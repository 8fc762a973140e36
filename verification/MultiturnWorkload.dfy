/** The objects of bench_multiturn.py: the ready queue and the workload generator, whose methods
    update their fields in place. Every method is exactly one step of the protocol in `Multiturn`, so
    what is proved there of every run holds for every interleaving of these methods. */
module MultiturnWorkload {
  import opened Collections
  import opened Multiturn

  datatype PopResult = Nothing | Item(client: nat, prompt: string) | NotImplemented

  class ReadyQueue {
    var requests: seq<(nat, string)>
    const policy: Policy

    constructor (requests: seq<(nat, string)>, policy: Policy)
      ensures this.requests == requests && this.policy == policy
    {
      this.requests, this.policy := requests, policy;
    }

    method Append(client: nat, prompt: string)
      modifies this
      ensures requests == old(requests) + [(client, prompt)]
    {
      requests := requests + [(client, prompt)];
    }

    /** `draw` is the random index. An unknown policy is only noticed when there is something to pop. */
    method Pop(draw: nat) returns (r: PopResult)
      requires policy == Random && requests != [] ==> draw < |requests|
      modifies this
      ensures old(requests) == [] ==> r == Nothing && requests == old(requests)
      ensures old(requests) != [] && policy == Unsupported ==> r == NotImplemented && requests == old(requests)
      ensures old(requests) != [] && policy != Unsupported ==>
        var k := if policy == Random then draw else 0;
        r == Item(old(requests)[k].0, old(requests)[k].1) && requests == Remove(old(requests), k)
    {
      if requests == [] {
        return Nothing;
      }
      if policy == Random {
        r := Item(requests[draw].0, requests[draw].1);
        requests := requests[..draw] + requests[draw + 1..];
      } else if policy == Fifo {
        r := Item(requests[0].0, requests[0].1);
        requests := requests[..0] + requests[1..];
      } else {
        r := NotImplemented;
      }
    }
  }

  class WorkloadGenerator {
    const cfg: Config
    const readyQueue: ReadyQueue
    var tasks: seq<(nat, string)>
    var responseQueue: seq<(nat, Response)>
    var clientRecords: seq<Record>
    var subQuestionInputs: seq<string>
    var sentRequests: nat
    var completedRequests: nat
    var progress: nat
    var loop: Loop
    var handler: Handler
    ghost var finished: set<nat>
    ghost var lost: set<nat>
    ghost var crashed: set<nat>
    ghost var log: seq<seq<string>>

    ghost function View(): State
      reads this, readyQueue
    {
      State(readyQueue.requests, tasks, responseQueue, clientRecords, subQuestionInputs,
            sentRequests, completedRequests, progress, loop, handler, finished, lost, crashed, log)
    }

    ghost predicate Valid() {
      readyQueue.policy == cfg.policy
    }

    constructor (cfg: Config)
      requires cfg.clients <= |cfg.prompts|
      ensures Valid() && this.cfg == cfg && fresh(readyQueue)
      ensures View() == Init(cfg)
    {
      var initRequests: seq<(nat, string)> := [];
      var records: seq<Record> := [];
      for i := 0 to cfg.clients
        invariant initRequests == seq(i, k requires 0 <= k < i => (k, cfg.prompts[k]))
        invariant records == seq(i, k requires 0 <= k < i => Record(0, cfg.prompts[k]))
      {
        initRequests := initRequests + [(i, cfg.prompts[i])];
        records := records + [Record(0, cfg.prompts[i])];
      }
      this.cfg := cfg;
      readyQueue := new ReadyQueue(initRequests, cfg.policy);
      clientRecords, subQuestionInputs := records, cfg.pool;
      tasks, responseQueue, sentRequests, completedRequests, progress := [], [], 0, 0, 0;
      loop, handler, finished, lost, crashed, log := Idle, Waiting, {}, {}, {}, seq(cfg.clients, _ => []);
    }

    /** Top of the sender's loop: go on if a slot is free, else sleep. */
    method CheckSlot() returns (admitted: bool)
      requires Valid() && loop.Idle?
      modifies this
      ensures admitted == Enabled(cfg, old(View()), Admit)
      ensures View() == if admitted then Apply(cfg, old(View()), Admit) else old(View())
    {
      if sentRequests - completedRequests < cfg.maxParallel {
        loop := Admitted;
        admitted := true;
      } else {
        admitted := false;
      }
    }

    /** The sender pops a ready request, if there is one, and starts a task for it. */
    method SendNext(draw: nat)
      requires Valid() && Enabled(cfg, View(), Action.Pop(draw))
      modifies this, readyQueue
      ensures View() == Apply(cfg, old(View()), Action.Pop(draw))
    {
      var next := readyQueue.Pop(draw);
      match next
      case Nothing =>
        loop := Testing;
      case NotImplemented =>
        loop := LoopFailed;
      case Item(client, prompt) =>
        tasks := tasks + [(client, prompt)];
        log := log[client := log[client] + [prompt]];
        sentRequests := sentRequests + 1;
        loop := Testing;
    }

    /** Bottom of the sender's loop: leave when the bar is full, else sleep until the next request. */
    method TestProgress()
      requires Valid() && loop.Testing?
      modifies this
      ensures View() == Apply(cfg, old(View()), Test)
    {
      loop := if progress == cfg.clients * cfg.rounds then Stopped else Idle;
    }

    /** A request in flight is answered, well or badly, and counted on the bar. */
    method FinishRequest(k: nat, response: Response)
      requires Valid() && loop.Idle? && k < |tasks|
      modifies this
      ensures View() == Apply(cfg, old(View()), Finish(k, response))
    {
      var client := tasks[k].0;
      tasks := tasks[..k] + tasks[k + 1..];
      if cfg.clients * cfg.rounds > 0 {
        progress := progress + 1;
      }
      loop := Reporting(client, response);
    }

    /** A task that raises is caught: no answer, nothing on the bar, and its slot is not given back. */
    method DropRequest(k: nat)
      requires Valid() && loop.Idle? && k < |tasks|
      modifies this
      ensures View() == Apply(cfg, old(View()), Raise(k))
    {
      crashed := crashed + {tasks[k].0};
      tasks := tasks[..k] + tasks[k + 1..];
    }

    method PutResponse()
      requires Valid() && loop.Reporting?
      modifies this
      ensures View() == Apply(cfg, old(View()), Put)
    {
      responseQueue := responseQueue + [(loop.client, loop.response)];
      loop := Idle;
    }

    /** The handler takes one answer. A failed one is dropped without counting it as completed. */
    method HandleResponse()
      requires Valid() && Enabled(cfg, View(), Handle)
      modifies this
      ensures View() == Apply(cfg, old(View()), Handle)
    {
      var client, response := responseQueue[0].0, responseQueue[0].1;
      responseQueue := responseQueue[1..];
      if !response.success {
        lost := lost + {client};
        return;
      }
      var record := clientRecords[client];
      record := record.(history := record.history + response.text);
      record := record.(round := record.round + 1);
      clientRecords := clientRecords[client := record];
      completedRequests := completedRequests + 1;
      if clientRecords[client].round < cfg.rounds {
        handler := Resuming(client);
      } else {
        finished := finished + {client};
      }
    }

    /** The rest of the handler's step: extend the history by a sub-question and queue the next round. */
    method QueueNextRound()
      requires Valid() && Enabled(cfg, View(), Requeue)
      modifies this, readyQueue
      ensures View() == Apply(cfg, old(View()), Requeue)
    {
      var client := handler.next;
      if subQuestionInputs == [] {
        handler := Starved(client);
        return;
      }
      var question := subQuestionInputs[|subQuestionInputs| - 1];
      subQuestionInputs := subQuestionInputs[..|subQuestionInputs| - 1];
      var record := clientRecords[client];
      record := record.(history := record.history + question);
      clientRecords := clientRecords[client := record];
      readyQueue.Append(client, record.history);
      handler := Waiting;
    }

    /** No answer for ten seconds. */
    method WaitTimesOut()
      requires Valid() && handler.Waiting? && responseQueue == []
      modifies this
      ensures View() == Apply(cfg, old(View()), Expire)
    {
      handler := Checking;
    }

    /** After a timeout the handler leaves if the bar is full, else waits again. */
    method CheckProgress()
      requires Valid() && handler.Checking?
      modifies this
      ensures View() == Apply(cfg, old(View()), Decide)
    {
      handler := if progress == cfg.clients * cfg.rounds then Exited else Waiting;
    }
  }
}
