/** The multi-turn load generator of bench_multiturn.py as a step protocol.

    Two threads work on shared state. One runs an event loop with the request sender and one task
    per request in flight; control in this thread moves only between `await`s, so a sender
    iteration and the end of a task exclude each other. The other thread is the response handler.
    Each step below is one stretch of a thread that the other thread cannot look into. */
module Multiturn {
  import opened Collections

  datatype Policy = Random | Fifo | Unsupported

  /** What is fixed before the run: the arguments, the first prompts and the sub-question pool. */
  datatype Config = Config(clients: nat, rounds: nat, maxParallel: int, policy: Policy,
                           prompts: seq<string>, pool: seq<string>)

  datatype Response = Response(success: bool, text: string)

  datatype Record = Record(round: nat, history: string)

  /** Where the event loop is. */
  datatype Loop =
    | Idle                                          // everything is waiting
    | Admitted                                      // the sender has found a free slot
    | Testing                                       // the sender is about to compare n and total
    | Reporting(client: nat, response: Response)    // counted on the bar, not yet in the queue
    | Stopped                                       // the sender has left its loop
    | LoopFailed                                    // unknown queue policy

  datatype Handler =
    | Waiting                                       // blocked on the response queue
    | Resuming(next: nat)                           // counted a response, about to queue the next round
    | Starved(last: nat)                            // popped from an empty pool
    | Checking                                      // timed out, about to compare n and total
    | Exited

  /** `finished`, `lost`, `crashed` and `log` are history: clients done with their rounds, clients
      whose request failed, clients whose task raised, and the prompts each client has sent. */
  datatype State = State(ready: seq<(nat, string)>, tasks: seq<(nat, string)>, responses: seq<(nat, Response)>,
                         records: seq<Record>, pool: seq<string>,
                         sent: nat, completed: nat, progress: nat, loop: Loop, handler: Handler,
                         finished: set<nat>, lost: set<nat>, crashed: set<nat>, log: seq<seq<string>>)

  datatype Action = Admit | Pop(index: nat) | Test | Finish(task: nat, response: Response) | Raise(task: nat)
                  | Put | Handle | Requeue | Expire | Decide

  /** The total of the progress bar. */
  function Total(cfg: Config): nat {
    cfg.clients * cfg.rounds
  }

  /** Rounds a client goes through: even with zero rounds configured it is asked once. */
  function LastRound(cfg: Config): (r: nat)
    ensures r >= 1
  {
    if cfg.rounds == 0 then 1 else cfg.rounds
  }

  function Init(cfg: Config): State
    requires cfg.clients <= |cfg.prompts|
  {
    State(seq(cfg.clients, i requires 0 <= i < cfg.clients => (i, cfg.prompts[i])), [], [],
          seq(cfg.clients, i requires 0 <= i < cfg.clients => Record(0, cfg.prompts[i])), cfg.pool,
          0, 0, 0, Idle, Waiting, {}, {}, {}, seq(cfg.clients, _ => []))
  }

  // ---------------------------------------------------------------- steps

  predicate Enabled(cfg: Config, s: State, a: Action) {
    match a
    case Admit => s.loop.Idle? && s.sent - s.completed < cfg.maxParallel
    case Pop(i) =>
      && s.loop.Admitted?
      && (if s.ready == [] || cfg.policy != Random then i == 0 else i < |s.ready|)
      && (s.ready != [] ==> s.ready[i].0 < |s.log|)
    case Test => s.loop.Testing?
    case Finish(k, _) => s.loop.Idle? && k < |s.tasks|
    case Raise(k) => s.loop.Idle? && k < |s.tasks|
    case Put => s.loop.Reporting?
    case Handle => s.handler.Waiting? && s.responses != [] && s.responses[0].0 < |s.records|
    case Requeue => s.handler.Resuming? && s.handler.next < |s.records|
    case Expire => s.handler.Waiting? && s.responses == []
    case Decide => s.handler.Checking?
  }

  function ApplyPop(cfg: Config, s: State, i: nat): State
    requires Enabled(cfg, s, Pop(i))
  {
    if s.ready == [] then s.(loop := Testing)
    else if cfg.policy == Unsupported then s.(loop := LoopFailed)
    else
      var c := s.ready[i].0;
      s.(ready := Remove(s.ready, i), tasks := s.tasks + [s.ready[i]], sent := s.sent + 1, loop := Testing,
         log := s.log[c := s.log[c] + [s.ready[i].1]])
  }

  function ApplyHandle(cfg: Config, s: State): State
    requires Enabled(cfg, s, Handle)
  {
    var c, r := s.responses[0].0, s.responses[0].1;
    var s1 := s.(responses := s.responses[1..]);
    if !r.success then s1.(lost := s.lost + {c})
    else
      var record := Record(s.records[c].round + 1, s.records[c].history + r.text);
      var s2 := s1.(records := s.records[c := record], completed := s.completed + 1);
      if record.round < cfg.rounds then s2.(handler := Resuming(c))
      else s2.(finished := s.finished + {c})
  }

  function ApplyRequeue(s: State): State
    requires s.handler.Resuming? && s.handler.next < |s.records|
  {
    var c := s.handler.next;
    if s.pool == [] then s.(handler := Starved(c))
    else
      var text := s.records[c].history + Last(s.pool);
      s.(pool := s.pool[..|s.pool| - 1], records := s.records[c := s.records[c].(history := text)],
         ready := s.ready + [(c, text)], handler := Waiting)
  }

  /** The progress bar counts an answer, good or bad, unless its total is zero. A task that raises is
      caught and forgotten. */
  function Apply(cfg: Config, s: State, a: Action): State
    requires Enabled(cfg, s, a)
  {
    match a
    case Admit => s.(loop := Admitted)
    case Pop(i) => ApplyPop(cfg, s, i)
    case Test => s.(loop := if s.progress == Total(cfg) then Stopped else Idle)
    case Finish(k, r) => s.(tasks := Remove(s.tasks, k), loop := Reporting(s.tasks[k].0, r),
                            progress := if Total(cfg) > 0 then s.progress + 1 else s.progress)
    case Raise(k) => s.(tasks := Remove(s.tasks, k), crashed := s.crashed + {s.tasks[k].0})
    case Put => s.(responses := s.responses + [(s.loop.client, s.loop.response)], loop := Idle)
    case Handle => ApplyHandle(cfg, s)
    case Requeue => ApplyRequeue(s)
    case Expire => s.(handler := Checking)
    case Decide => s.(handler := if s.progress == Total(cfg) then Exited else Waiting)
  }

  /** A run: states and the actions between them, from the initial state. */
  ghost predicate IsRun(cfg: Config, tr: seq<State>, acts: seq<Action>) {
    && cfg.clients <= |cfg.prompts| && |tr| == |acts| + 1 && tr[0] == Init(cfg)
    && forall i {:trigger acts[i]} :: 0 <= i < |acts| ==>
         Enabled(cfg, tr[i], acts[i]) && tr[i + 1] == Apply(cfg, tr[i], acts[i])
  }

  // ---------------------------------------------------------------- invariant: every client is in one place

  predicate InLoop(s: State, c: nat) {
    s.loop.Reporting? && s.loop.client == c
  }

  predicate InHandler(s: State, c: nat) {
    match s.handler
    case Resuming(d) => c == d
    case Starved(d) => c == d
    case _ => false
  }

  /** How many requests of client `c` were sent and not counted as completed. */
  function Outstanding(s: State, c: nat): nat {
    Count(s.tasks, c) + One(InLoop(s, c)) + Count(s.responses, c) + One(c in s.lost)
    + One(c in s.crashed)
  }

  /** In how many places client `c` is: ready, outstanding, with the handler, finished. */
  function Places(s: State, c: nat): nat {
    Count(s.ready, c) + Outstanding(s, c) + One(InHandler(s, c)) + One(c in s.finished)
  }

  ghost predicate Partition(cfg: Config, s: State) {
    && |s.records| == |s.log| == cfg.clients
    && forall c: nat :: Places(s, c) == One(c < cfg.clients)
  }

  lemma PopMoves(cfg: Config, s: State, i: nat, c: nat)
    requires Enabled(cfg, s, Pop(i))
    ensures Places(Apply(cfg, s, Pop(i)), c) == Places(s, c)
  {
    if s.ready != [] && cfg.policy != Unsupported {
      CountRemove(s.ready, i, c);
      CountSnoc(s.tasks, s.ready[i], c);
    }
  }

  lemma FinishMoves(cfg: Config, s: State, k: nat, r: Response, c: nat)
    requires Enabled(cfg, s, Finish(k, r))
    ensures Places(Apply(cfg, s, Finish(k, r)), c) == Places(s, c)
    ensures Outstanding(Apply(cfg, s, Finish(k, r)), c) == Outstanding(s, c)
  {
    CountRemove(s.tasks, k, c);
  }

  lemma RaiseMoves(cfg: Config, s: State, k: nat, c: nat)
    requires Partition(cfg, s) && Enabled(cfg, s, Raise(k))
    ensures Places(Apply(cfg, s, Raise(k)), c) == Places(s, c)
    ensures Outstanding(Apply(cfg, s, Raise(k)), c) == Outstanding(s, c)
  {
    TaskIsAlone(cfg, s, k);
    CountRemove(s.tasks, k, c);
  }

  lemma TaskIsAlone(cfg: Config, s: State, k: nat)
    requires Partition(cfg, s) && k < |s.tasks|
    ensures s.tasks[k].0 !in s.crashed
  {
    CountMember(s.tasks, k);
    assert Places(s, s.tasks[k].0) <= 1;
  }

  lemma PutMoves(cfg: Config, s: State, c: nat)
    requires Enabled(cfg, s, Put)
    ensures Places(Apply(cfg, s, Put), c) == Places(s, c)
    ensures Outstanding(Apply(cfg, s, Put), c) == Outstanding(s, c)
  {
    CountSnoc(s.responses, (s.loop.client, s.loop.response), c);
  }

  lemma RequeueMoves(cfg: Config, s: State, c: nat)
    requires Enabled(cfg, s, Requeue)
    ensures Places(Apply(cfg, s, Requeue), c) == Places(s, c)
  {
    if s.pool != [] {
      CountSnoc(s.ready, (s.handler.next, s.records[s.handler.next].history + Last(s.pool)), c);
    }
  }

  /** The client at the head of the response queue is nowhere else. */
  lemma HeadOfQueue(cfg: Config, s: State)
    requires Partition(cfg, s) && s.responses != []
    ensures var c := s.responses[0].0;
      && c < cfg.clients && c !in s.lost + s.crashed && c !in s.finished
      && Count(s.ready, c) == 0 && Count(s.tasks, c) == 0
      && !InLoop(s, c) && !InHandler(s, c) && Outstanding(s, c) == 1
  {
    var c := s.responses[0].0;
    CountMember(s.responses, 0);
    assert Places(s, c) == One(c < cfg.clients);
  }

  lemma HandleMoves(cfg: Config, s: State, c: nat)
    requires Partition(cfg, s) && Enabled(cfg, s, Handle)
    ensures Places(Apply(cfg, s, Handle), c) == Places(s, c)
  {
    HeadOfQueue(cfg, s);
    CountTail(s.responses, c);
  }

  lemma PartitionPreserved(cfg: Config, s: State, a: Action)
    requires Partition(cfg, s) && Enabled(cfg, s, a)
    ensures Partition(cfg, Apply(cfg, s, a))
  {
    var s' := Apply(cfg, s, a);
    forall c: nat ensures Places(s', c) == Places(s, c) {
      match a
      case Pop(i) => PopMoves(cfg, s, i, c);
      case Finish(k, r) => FinishMoves(cfg, s, k, r, c);
      case Raise(k) => RaiseMoves(cfg, s, k, c);
      case Put => PutMoves(cfg, s, c);
      case Requeue => RequeueMoves(cfg, s, c);
      case Handle => HandleMoves(cfg, s, c);
      case _ =>
    }
  }

  // ---------------------------------------------------------------- invariant: counters

  function Rounds(s: State): (r: seq<nat>)
    ensures |r| == |s.records|
  {
    seq(|s.records|, c requires 0 <= c < |s.records| => s.records[c].round)
  }

  function LoopLoad(s: State): nat {
    One(s.loop.Reporting?)
  }

  function HandlerLoad(s: State): nat {
    One(s.handler.Resuming? || s.handler.Starved?)
  }

  /** What the three counters and the pool say about the rest of the state. */
  ghost predicate Counters(cfg: Config, s: State) {
    && s.completed == Sum(Rounds(s))
    && s.sent == s.completed + |s.tasks| + LoopLoad(s) + |s.responses| + |s.lost| + |s.crashed|
    && s.progress == (if Total(cfg) > 0 then s.sent - |s.tasks| - |s.crashed| else 0)
    && |s.pool| + s.completed == |cfg.pool| + |s.finished| + HandlerLoad(s) && |s.pool| <= |cfg.pool|
    && (s.handler.Starved? ==> s.pool == [])
  }

  lemma HandleCounts(cfg: Config, s: State)
    requires Partition(cfg, s) && Counters(cfg, s) && Enabled(cfg, s, Handle)
    ensures Counters(cfg, Apply(cfg, s, Handle))
  {
    HeadOfQueue(cfg, s);
    HandleCountsNew(cfg, s);
  }

  lemma HandleCountsNew(cfg: Config, s: State)
    requires Counters(cfg, s) && Enabled(cfg, s, Handle)
    requires s.responses[0].0 !in s.lost && s.responses[0].0 !in s.finished
    ensures Counters(cfg, Apply(cfg, s, Handle))
  {
    HandleRounds(cfg, s);
    if s.responses[0].1.success {
      HandleCredits(cfg, s);
    } else {
      HandleLoses(cfg, s);
    }
    HandleAdds(cfg, s, ApplyHandle(cfg, s));
  }

  lemma HandleCredits(cfg: Config, s: State)
    requires Enabled(cfg, s, Handle) && s.responses[0].1.success && s.responses[0].0 !in s.finished
    ensures var s' := ApplyHandle(cfg, s);
      && s'.lost == s.lost && s'.completed == s.completed + 1
      && |s'.finished| + HandlerLoad(s') == |s.finished| + HandlerLoad(s) + 1
  {
  }

  lemma HandleLoses(cfg: Config, s: State)
    requires Enabled(cfg, s, Handle) && !s.responses[0].1.success && s.responses[0].0 !in s.lost
    ensures var s' := ApplyHandle(cfg, s);
      && |s'.lost| == |s.lost| + 1 && s'.completed == s.completed
      && s'.finished == s.finished && s'.handler == s.handler
  {
  }

  lemma HandleAdds(cfg: Config, s: State, s': State)
    requires Counters(cfg, s) && s.responses != [] && s'.completed == Sum(Rounds(s'))
    requires s'.pool == s.pool && s'.sent == s.sent && s'.tasks == s.tasks && s'.progress == s.progress
    requires s'.loop == s.loop && s'.crashed == s.crashed && |s'.responses| == |s.responses| - 1
    requires !s'.handler.Starved? && |s'.lost| + s'.completed == |s.lost| + s.completed + 1
    requires |s'.finished| + HandlerLoad(s') - s'.completed == |s.finished| + HandlerLoad(s) - s.completed
    ensures Counters(cfg, s')
  {
  }

  lemma HandleRounds(cfg: Config, s: State)
    requires Enabled(cfg, s, Handle)
    ensures Sum(Rounds(ApplyHandle(cfg, s))) == Sum(Rounds(s)) + One(s.responses[0].1.success)
  {
    var c, s' := s.responses[0].0, ApplyHandle(cfg, s);
    if s.responses[0].1.success {
      assert Rounds(s') == Rounds(s)[c := Rounds(s)[c] + 1];
      SumUpdate(Rounds(s), c, Rounds(s)[c] + 1);
    } else {
      assert Rounds(s') == Rounds(s);
    }
  }

  lemma CountersPreserved(cfg: Config, s: State, a: Action)
    requires Partition(cfg, s) && Counters(cfg, s) && Enabled(cfg, s, a)
    ensures Counters(cfg, Apply(cfg, s, a))
  {
    if a.Handle? {
      HandleCounts(cfg, s);
    } else if a.Raise? {
      TaskIsAlone(cfg, s, a.task);
      assert Rounds(Apply(cfg, s, a)) == Rounds(s);
    } else {
      assert Rounds(Apply(cfg, s, a)) == Rounds(s);
    }
  }

  // ---------------------------------------------------------------- invariant: rounds

  ghost predicate RoundBounds(cfg: Config, s: State) {
    forall c :: 0 <= c < |s.records| ==>
      if c in s.finished then s.records[c].round == LastRound(cfg) else s.records[c].round < LastRound(cfg)
  }

  lemma RoundBoundsPreserved(cfg: Config, s: State, a: Action)
    requires Partition(cfg, s) && RoundBounds(cfg, s) && Enabled(cfg, s, a)
    ensures RoundBounds(cfg, Apply(cfg, s, a))
  {
    if a.Handle? {
      HeadOfQueue(cfg, s);
    }
  }

  // ---------------------------------------------------------------- invariant: slots and exits

  ghost predicate Slots(cfg: Config, s: State) {
    && s.completed <= s.sent
    && s.sent - s.completed <= (if cfg.maxParallel > 0 then cfg.maxParallel else 0)
    && (s.loop.Admitted? ==> s.sent - s.completed < cfg.maxParallel)
    && (s.loop.Testing? || s.loop.Stopped? ==> s.tasks != [] || s.sent - s.completed < cfg.maxParallel)
    && (s.loop.Stopped? ==> s.progress == Total(cfg))
    && (s.loop.LoopFailed? ==> cfg.policy == Unsupported && s.ready != [])
  }

  lemma SlotsPreserved(cfg: Config, s: State, a: Action)
    requires Partition(cfg, s) && Counters(cfg, s) && Slots(cfg, s) && Enabled(cfg, s, a)
    ensures Slots(cfg, Apply(cfg, s, a))
  {
    CountersPreserved(cfg, s, a);
  }

  // ---------------------------------------------------------------- invariant: prompts and histories

  /** The prompts one client has sent, against its record: each extends the one before, starting from
      the configured prompt, and the record extends the last one. */
  ghost predicate Conversation(first: string, log: seq<string>, history: string) {
    && (if log == [] then history == first else log[0] == first && Last(log) <= history)
    && forall k :: 0 <= k < |log| - 1 ==> log[k] <= log[k + 1]
  }

  ghost predicate Current(s: State, e: (nat, string)) {
    e.0 < |s.records| && e.1 == s.records[e.0].history
  }

  ghost predicate Payloads(s: State) {
    && (forall k :: 0 <= k < |s.ready| ==> Current(s, s.ready[k]))
    && (forall k :: 0 <= k < |s.tasks| ==> Current(s, s.tasks[k]))
  }

  ghost predicate Conversations(cfg: Config, s: State)
    requires |s.records| == |s.log| == cfg.clients <= |cfg.prompts|
  {
    forall c :: 0 <= c < cfg.clients ==>
      && Conversation(cfg.prompts[c], s.log[c], s.records[c].history)
      && |s.log[c]| == s.records[c].round + Outstanding(s, c)
      && (Outstanding(s, c) > 0 ==> Last(s.log[c]) == s.records[c].history)
  }

  lemma Elsewhere(cfg: Config, s: State, c: nat, k: nat)
    requires Partition(cfg, s) && (Outstanding(s, c) > Count(s.tasks, c) || InHandler(s, c))
    ensures k < |s.ready| ==> s.ready[k].0 != c
    ensures k < |s.tasks| ==> s.tasks[k].0 != c
  {
    assert Places(s, c) <= 1;
    if k < |s.ready| { CountMember(s.ready, k); }
    if k < |s.tasks| { CountMember(s.tasks, k); }
  }

  lemma PayloadsPreserved(cfg: Config, s: State, a: Action)
    requires Partition(cfg, s) && Payloads(s) && Enabled(cfg, s, a)
    ensures Payloads(Apply(cfg, s, a))
  {
    if a.Handle? {
      HeadOfQueue(cfg, s);
      CountMember(s.responses, 0);
      PayloadsKept(cfg, s, Apply(cfg, s, a), s.responses[0].0);
    } else if a.Requeue? {
      PayloadsKept(cfg, s, Apply(cfg, s, a), s.handler.next);
    }
  }

  /** A client that has nothing queued or in flight may get another history. */
  lemma PayloadsKept(cfg: Config, s: State, s': State, c: nat)
    requires Partition(cfg, s) && Payloads(s) && (Outstanding(s, c) > Count(s.tasks, c) || InHandler(s, c))
    requires |s'.records| == |s.records| && forall d :: 0 <= d < |s.records| && d != c ==> s'.records[d] == s.records[d]
    requires s'.tasks == s.tasks
    requires s'.ready == s.ready || exists e :: s'.ready == s.ready + [e] && Current(s', e)
    ensures Payloads(s')
  {
    forall k: nat ensures k < |s.ready| ==> Current(s', s.ready[k]) { Elsewhere(cfg, s, c, k); }
    forall k: nat ensures k < |s.tasks| ==> Current(s', s.tasks[k]) { Elsewhere(cfg, s, c, k); }
  }

  lemma ExtendLog(first: string, log: seq<string>, history: string)
    requires Conversation(first, log, history)
    ensures Conversation(first, log + [history], history)
  {
  }

  lemma ExtendHistory(first: string, log: seq<string>, history: string, more: string)
    requires Conversation(first, log, history) && log != []
    ensures Conversation(first, log, history + more)
  {
  }

  lemma PopTalk(cfg: Config, s: State, i: nat)
    requires cfg.clients <= |cfg.prompts|
    requires Partition(cfg, s) && Payloads(s) && Conversations(cfg, s) && Enabled(cfg, s, Pop(i))
    ensures var s' := Apply(cfg, s, Pop(i)); |s'.records| == |s'.log| == cfg.clients && Conversations(cfg, s')
  {
    var s' := Apply(cfg, s, Pop(i));
    if s.ready != [] && cfg.policy != Unsupported {
      var d, p := s.ready[i].0, s.ready[i].1;
      assert Current(s, s.ready[i]);
      CountMember(s.ready, i);
      assert Places(s, d) == 1;
      ExtendLog(cfg.prompts[d], s.log[d], p);
      forall c: nat | c < cfg.clients ensures Outstanding(s', c) == Outstanding(s, c) + One(c == d) {
        CountSnoc(s.tasks, s.ready[i], c);
      }
    }
  }

  lemma HandleTalk(cfg: Config, s: State)
    requires cfg.clients <= |cfg.prompts|
    requires Partition(cfg, s) && Conversations(cfg, s) && Enabled(cfg, s, Handle)
    ensures var s' := Apply(cfg, s, Handle); |s'.records| == |s'.log| == cfg.clients && Conversations(cfg, s')
  {
    HeadOfQueue(cfg, s);
    var d, r := s.responses[0].0, s.responses[0].1;
    ExtendHistory(cfg.prompts[d], s.log[d], s.records[d].history, r.text);
    forall c: nat ensures Outstanding(Apply(cfg, s, Handle), c) == Outstanding(s, c) - One(c == d && r.success) {
      HandleTakes(cfg, s, c);
    }
  }

  lemma HandleTakes(cfg: Config, s: State, c: nat)
    requires Enabled(cfg, s, Handle) && s.responses[0].0 !in s.lost
    ensures Outstanding(Apply(cfg, s, Handle), c)
      == Outstanding(s, c) - One(c == s.responses[0].0 && s.responses[0].1.success)
  {
    CountTail(s.responses, c);
  }

  lemma RequeueTalk(cfg: Config, s: State)
    requires cfg.clients <= |cfg.prompts|
    requires Partition(cfg, s) && RoundBounds(cfg, s) && Conversations(cfg, s) && Enabled(cfg, s, Requeue)
    requires s.records[s.handler.next].round > 0
    ensures var s' := Apply(cfg, s, Requeue); |s'.records| == |s'.log| == cfg.clients && Conversations(cfg, s')
  {
    var d := s.handler.next;
    assert Places(s, d) == 1;
    assert forall c: nat :: Outstanding(Apply(cfg, s, Requeue), c) == Outstanding(s, c);
    if s.pool != [] {
      ExtendHistory(cfg.prompts[d], s.log[d], s.records[d].history, Last(s.pool));
    }
  }

  /** A client being resumed has had at least one answer. */
  ghost predicate Resumed(s: State) {
    s.handler.Resuming? ==> s.handler.next < |s.records| && s.records[s.handler.next].round > 0
  }

  lemma ConversationsPreserved(cfg: Config, s: State, a: Action)
    requires cfg.clients <= |cfg.prompts|
    requires Partition(cfg, s) && RoundBounds(cfg, s) && Payloads(s) && Conversations(cfg, s) && Resumed(s)
    requires Enabled(cfg, s, a)
    ensures var s' := Apply(cfg, s, a);
      |s'.records| == |s'.log| == cfg.clients && Conversations(cfg, s') && Resumed(s')
  {
    match a
    case Pop(i) => PopTalk(cfg, s, i);
    case Handle => HandleTalk(cfg, s);
    case Requeue => RequeueTalk(cfg, s);
    case _ =>
      forall c: nat ensures Outstanding(Apply(cfg, s, a), c) == Outstanding(s, c) { OutstandingKept(cfg, s, a, c); }
      SameTalk(cfg, s, Apply(cfg, s, a));
  }

  /** Only sending and crediting a request changes what is outstanding. */
  lemma OutstandingKept(cfg: Config, s: State, a: Action, c: nat)
    requires Partition(cfg, s) && Enabled(cfg, s, a) && !a.Pop? && !a.Handle? && !a.Requeue?
    ensures Outstanding(Apply(cfg, s, a), c) == Outstanding(s, c)
  {
    match a
    case Finish(k, r) => FinishMoves(cfg, s, k, r, c);
    case Raise(k) => RaiseMoves(cfg, s, k, c);
    case Put => PutMoves(cfg, s, c);
    case _ =>
  }

  lemma SameTalk(cfg: Config, s: State, s': State)
    requires |s.records| == |s.log| == cfg.clients <= |cfg.prompts| && Conversations(cfg, s)
    requires s'.records == s.records && s'.log == s.log && forall c: nat :: Outstanding(s', c) == Outstanding(s, c)
    ensures Conversations(cfg, s')
  {
  }

  // ---------------------------------------------------------------- every state of every run

  ghost predicate Inv(cfg: Config, s: State) {
    && cfg.clients <= |cfg.prompts|
    && Partition(cfg, s) && Counters(cfg, s) && RoundBounds(cfg, s) && Slots(cfg, s)
    && Payloads(s) && Conversations(cfg, s) && Resumed(s)
  }

  lemma InitInv(cfg: Config)
    requires cfg.clients <= |cfg.prompts|
    ensures Inv(cfg, Init(cfg))
  {
    var s := Init(cfg);
    forall c: nat ensures Places(s, c) == One(c < cfg.clients) { CountIndexed(s.ready, c); }
    SumOfZeros(Rounds(s));
  }

  lemma InvPreserved(cfg: Config, s: State, a: Action)
    requires Inv(cfg, s) && Enabled(cfg, s, a)
    ensures Inv(cfg, Apply(cfg, s, a))
  {
    PartitionPreserved(cfg, s, a);
    CountersPreserved(cfg, s, a);
    RoundBoundsPreserved(cfg, s, a);
    SlotsPreserved(cfg, s, a);
    PayloadsPreserved(cfg, s, a);
    ConversationsPreserved(cfg, s, a);
  }

  lemma {:induction false} RunInv(cfg: Config, tr: seq<State>, acts: seq<Action>, i: nat)
    requires IsRun(cfg, tr, acts) && i < |tr|
    ensures Inv(cfg, tr[i])
  {
    if i == 0 {
      InitInv(cfg);
    } else {
      RunInv(cfg, tr, acts, i - 1);
      InvPreserved(cfg, tr[i - 1], acts[i - 1]);
    }
  }
}
