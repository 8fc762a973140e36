/** The workload generator of bench_mix.py: the sender, the tasks and the response handler working on
    shared user records. Every method is exactly one step of the protocol in `MixedWorkload`. */
module MixedRunner {
  import opened Collections
  import opened MixedWorkload
  import opened MixedGenerator

  /** The values of user records. */
  ghost function Records(us: seq<UserData>): (r: seq<User>)
    reads us
    ensures |r| == |us|
  {
    seq(|us|, i requires 0 <= i < |us| reads us => us[i].AsUser())
  }

  /** Entries named by the number of their user. */
  ghost function Numbered<T>(q: seq<(UserData, T)>): (r: seq<(nat, T)>)
    ensures |r| == |q|
  {
    seq(|q|, i requires 0 <= i < |q| => (q[i].0.userId, q[i].1))
  }

  class WorkloadGenerator {
    const cfg: Config
    const generator: UserGenerator
    var tasks: seq<(UserData, string)>
    var responseQueue: seq<(UserData, Reply)>
    var handler: Handler
    var sentRequests: nat
    var completedRequests: nat
    var done: bool
    ghost var users: seq<UserData>
    ghost var finished: set<nat>
    ghost var lost: set<nat>
    ghost var dropped: set<nat>

    ghost function Users(): (r: seq<User>)
      reads this`users, users
      ensures |r| == |users|
    {
      Records(users)
    }

    ghost function Requests(): (r: seq<(nat, string)>)
      reads this`tasks
      ensures |r| == |tasks|
    {
      Numbered(tasks)
    }

    ghost function Responses(): (r: seq<(nat, Reply)>)
      reads this`responseQueue
      ensures |r| == |responseQueue|
    {
      Numbered(responseQueue)
    }

    ghost function View(): State
      reads this, users, generator, generator.queue
    {
      State(Users(), generator.Entries(), Requests(), Responses(), handler, sentRequests, completedRequests, done,
            generator.userStats, generator.inputStats, generator.outputStats, finished, lost, dropped)
    }

    /** The record is the one its number stands for. */
    ghost predicate Known(u: UserData)
      reads this`users
    {
      u.userId < |users| && users[u.userId] == u
    }

    ghost predicate Valid()
      reads this`users, this`tasks, this`responseQueue, generator
    {
      && generator.cfg == cfg && generator.Valid() && generator.userId == |users|
      && (forall i :: 0 <= i < |users| ==> users[i].userId == i)
      && (forall k :: 0 <= k < |generator.queue| ==> Known(generator.queue[k]))
      && (forall k :: 0 <= k < |tasks| ==> Known(tasks[k].0))
      && (forall k :: 0 <= k < |responseQueue| ==> Known(responseQueue[k].0))
    }

    constructor (cfg: Config)
      requires ValidConfig(cfg)
      ensures Valid() && this.cfg == cfg && fresh(generator)
      ensures View() == Init(cfg)
    {
      this.cfg := cfg;
      generator := new UserGenerator(cfg);
      tasks, responseQueue, handler, sentRequests, completedRequests, done := [], [], Waiting, 0, 0, false;
      users, finished, lost, dropped := [], {}, {}, {};
    }

    /** A due user from the queue, or a new one. */
    method TakeUser(d: Draw, now: real) returns (user: UserData)
      requires Valid() && Enabled(cfg, View(), Send(d, now))
      modifies this`users, generator
      ensures Valid() && Known(user)
      ensures View() == Apply(cfg, old(View()), Send(d, now)).(tasks := old(Requests()), sent := old(sentRequests))
      ensures Apply(cfg, old(View()), Send(d, now)).tasks == old(Requests()) + [(user.userId, user.prompt)]
    {
      ghost var queued := Due(generator.Entries(), now);
      ghost var records := Users();
      user := generator.Pop(d, now);
      assert Users() == records;
      if !queued {
        users := users + [user];
        assert Users() == records + [user.AsUser()];
      }
    }

    /** The sender takes a due user or generates a new one, and starts a task for it. */
    method SendNext(d: Draw, now: real)
      requires Valid() && Enabled(cfg, View(), Send(d, now))
      modifies this, generator
      ensures Valid() && View() == Apply(cfg, old(View()), Send(d, now))
    {
      var user := TakeUser(d, now);
      tasks := tasks + [(user, user.prompt)];
      sentRequests := sentRequests + 1;
      assert Requests() == old(Requests()) + [(user.userId, user.prompt)];
    }

    /** The duration is over. */
    method StopSending()
      requires Valid() && !done
      modifies this
      ensures Valid() && View() == Apply(cfg, old(View()), Stop)
    {
      done := true;
    }

    method FinishRequest(k: nat, reply: Reply)
      requires Valid() && !done && k < |tasks|
      modifies this
      ensures Valid() && View() == Apply(cfg, old(View()), Finish(k, reply))
    {
      responseQueue := responseQueue + [(tasks[k].0, reply)];
      tasks := tasks[..k] + tasks[k + 1..];
    }

    /** A task that raises gives its slot back itself. */
    method DropRequest(k: nat)
      requires Valid() && !done && k < |tasks|
      modifies this
      ensures Valid() && View() == Apply(cfg, old(View()), Raise(k))
    {
      dropped := dropped + {tasks[k].0.userId};
      completedRequests := completedRequests + 1;
      tasks := tasks[..k] + tasks[k + 1..];
      assert Requests() == Remove(old(Requests()), k);
    }

    /** In every state of every run the user whose answer comes next is not queued as well. */
    lemma NextIsNotQueued()
      requires Valid() && Inv(cfg, View()) && responseQueue != []
      ensures responseQueue[0].0 !in generator.queue
    {
      HeadOfQueue(View());
      forall k | 0 <= k < |generator.queue| ensures generator.queue[k] != responseQueue[0].0 {
        CountMember(generator.Entries(), k);
      }
    }

    /** The queue and the record of a user that moves on. */
    method PushUser(user: UserData, reply: Reply, d: Draw, now: real)
      requires Valid() && Known(user) && user !in generator.queue && user.currentRound < user.totalRounds <= cfg.rounds
      modifies generator, user
      ensures Valid() && Users() == old(Users())[user.userId := user.AsUser()]
      ensures View() == ApplyPush(cfg, old(View()), user.userId, reply, d, now)
        .(finished := finished, handler := handler)
    {
      generator.Push(user, reply.text, reply.itl, d, now);
      assert Users() == old(Users())[user.userId := user.AsUser()];
      forall u | u in generator.queue ensures Known(u) {
        assert u == user || u in old(generator.queue);
      }
    }

    /** Moves the user of a good answer on to its next round, or ends it. */
    method MoveOn(user: UserData, reply: Reply, d: Draw, now: real)
      requires Valid() && Known(user) && user !in generator.queue && user.currentRound < user.totalRounds <= cfg.rounds
      modifies this`finished, this`handler, generator, user
      ensures Valid() && View() == ApplyPush(cfg, old(View()), user.userId, reply, d, now)
    {
      ghost var last := user.currentRound + 1 >= user.totalRounds;
      PushUser(user, reply, d, now);
      ghost var pushed := View();
      if last {
        finished := finished + {user.userId};
      }
      handler := Counting;
      assert View() == pushed.(finished := finished, handler := Counting);
    }

    /** The handler takes one answer; a good one moves its user on, a failed one keeps its slot. */
    method HandleResponse(d: Draw, now: real)
      requires Valid() && Enabled(cfg, View(), Handle(d, now))
      requires responseQueue[0].0 !in generator.queue
      modifies this, generator, responseQueue[0].0
      ensures Valid() && View() == Apply(cfg, old(View()), Handle(d, now))
    {
      var user, reply := responseQueue[0].0, responseQueue[0].1;
      responseQueue := responseQueue[1..];
      assert View() == old(View()).(responses := old(View()).responses[1..]);
      if !reply.success {
        lost := lost + {user.userId};
      } else {
        MoveOn(user, reply, d, now);
      }
    }

    method CountCompleted()
      requires Valid() && handler.Counting?
      modifies this
      ensures Valid() && View() == Apply(cfg, old(View()), CountDone)
    {
      completedRequests := completedRequests + 1;
      handler := Waiting;
    }

    method WaitTimesOut()
      requires Valid() && handler.Waiting? && responseQueue == []
      modifies this
      ensures Valid() && View() == Apply(cfg, old(View()), Expire)
    {
      handler := Checking;
    }

    method CheckDone()
      requires Valid() && handler.Checking?
      modifies this
      ensures Valid() && View() == Apply(cfg, old(View()), Decide)
    {
      handler := if done then Exited else Waiting;
    }
  }
}
