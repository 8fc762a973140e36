/** What holds in every run of the multi-turn load generator: where clients are, how the counters
    bound each other, how long a run can be, and in which states it can come to rest. */
module MultiturnRuns {
  import opened Arithmetic
  import opened Collections
  import opened Multiturn

  // ---------------------------------------------------------------- places and slots

  /** In every state of every run each client is in exactly one place, and no queue holds it twice. */
  lemma OnePlace(cfg: Config, tr: seq<State>, acts: seq<Action>, i: nat, c: nat)
    requires IsRun(cfg, tr, acts) && i < |tr| && c < cfg.clients
    ensures var s := tr[i];
      One(c in Tags(s.ready)) + One(c in Tags(s.tasks)) + One(InLoop(s, c)) + One(c in Tags(s.responses))
      + One(InHandler(s, c)) + One(c in s.finished) + One(c in s.lost) + One(c in s.crashed) == 1
    ensures |Tags(tr[i].ready)| == |tr[i].ready| && |Tags(tr[i].tasks)| == |tr[i].tasks|
      && |Tags(tr[i].responses)| == |tr[i].responses|
  {
    RunInv(cfg, tr, acts, i);
    assert Places(tr[i], c) == 1;
    NoDuplicates(cfg, tr[i]);
  }

  lemma NoDuplicates(cfg: Config, s: State)
    requires Partition(cfg, s)
    ensures |Tags(s.ready)| == |s.ready| && |Tags(s.tasks)| == |s.tasks| && |Tags(s.responses)| == |s.responses|
  {
    assert forall c: nat :: Places(s, c) <= 1;
    assert forall c: nat {:trigger Count(s.ready, c)} :: Count(s.ready, c) <= Places(s, c);
    assert forall c: nat {:trigger Count(s.tasks, c)} :: Count(s.tasks, c) <= Places(s, c);
    assert forall c: nat {:trigger Count(s.responses, c)} :: Count(s.responses, c) <= Places(s, c);
    TagsSize(s.ready);
    TagsSize(s.tasks);
    TagsSize(s.responses);
  }

  /** A slot is held by a request in flight, an answer not handled yet, or, for good, a request that failed or
      raised; so never more than `max_parallel` requests are in flight. */
  lemma SlotsInUse(cfg: Config, tr: seq<State>, acts: seq<Action>, i: nat)
    requires IsRun(cfg, tr, acts) && i < |tr|
    ensures var s := tr[i];
      s.sent - s.completed == |s.tasks| + LoopLoad(s) + |s.responses| + |s.lost| + |s.crashed|
    ensures |tr[i].tasks| + |tr[i].lost| + |tr[i].crashed| <= if cfg.maxParallel > 0 then cfg.maxParallel else 0
  {
    RunInv(cfg, tr, acts, i);
  }

  // ---------------------------------------------------------------- sums over clients

  /** Clients whose latest answer is on the progress bar but not in their record. */
  function Pending(s: State): set<nat> {
    (if s.loop.Reporting? then {s.loop.client} else {}) + Tags(s.responses) + s.lost
  }

  lemma PendingFacts(cfg: Config, s: State)
    requires Partition(cfg, s)
    ensures Pending(s) <= Range(cfg.clients)
    ensures |Pending(s)| == LoopLoad(s) + |s.responses| + |s.lost|
    ensures forall c :: c in Pending(s) ==>
      Outstanding(s, c) == 1 && Count(s.tasks, c) == 0 && c !in s.finished + s.crashed
  {
    PendingSize(cfg, s);
    forall c | c in Pending(s)
      ensures c < cfg.clients && Outstanding(s, c) == 1 && Count(s.tasks, c) == 0 && c !in s.finished + s.crashed
    {
      assert Places(s, c) == One(c < cfg.clients);
    }
  }

  lemma PendingSize(cfg: Config, s: State)
    requires Partition(cfg, s)
    ensures |Pending(s)| == LoopLoad(s) + |s.responses| + |s.lost|
  {
    NoDuplicates(cfg, s);
    var l := if s.loop.Reporting? then {s.loop.client} else {};
    forall c | c in l + s.lost ensures c !in Tags(s.responses) && (c in l ==> c !in s.lost) {
      assert Places(s, c) <= 1;
    }
    DisjointSize(l, Tags(s.responses), s.lost);
  }

  lemma DisjointSize<T>(a: set<T>, b: set<T>, c: set<T>)
    requires a !! b && a !! c && b !! c
    ensures |a + b + c| == |a| + |b| + |c|
  {
  }

  /** Answers client `c` has received, good or bad. */
  function Received(s: State, c: nat): nat
    requires c < |s.records|
  {
    s.records[c].round + One(c in Pending(s))
  }

  ghost predicate EveryoneAnswered(cfg: Config, s: State)
    requires |s.records| == cfg.clients
  {
    forall c: nat :: c < cfg.clients ==> Received(s, c) == LastRound(cfg)
  }

  lemma ReceivedBound(cfg: Config, s: State, c: nat)
    requires Inv(cfg, s) && c < cfg.clients
    ensures Received(s, c) <= LastRound(cfg)
  {
    PendingFacts(cfg, s);
  }

  lemma ReceivedTotal(cfg: Config, s: State)
    requires Inv(cfg, s)
    ensures Sum(Marked(Rounds(s), Pending(s))) == s.completed + LoopLoad(s) + |s.responses| + |s.lost|
  {
    PendingFacts(cfg, s);
    SumMarked(Rounds(s), Pending(s));
  }

  lemma ReceivedSum(cfg: Config, s: State)
    requires Inv(cfg, s)
    ensures var n := s.completed + LoopLoad(s) + |s.responses| + |s.lost|;
      && n <= cfg.clients * LastRound(cfg)
      && (n == cfg.clients * LastRound(cfg) <==> EveryoneAnswered(cfg, s))
  {
    ReceivedTotal(cfg, s);
    AnsweredSum(cfg, s, Marked(Rounds(s), Pending(s)));
  }

  lemma AnsweredSum(cfg: Config, s: State, xs: seq<nat>)
    requires Inv(cfg, s) && |xs| == cfg.clients
    requires forall c: nat :: c < cfg.clients ==> xs[c] == Received(s, c)
    ensures Sum(xs) <= cfg.clients * LastRound(cfg)
    ensures Sum(xs) == cfg.clients * LastRound(cfg) <==> EveryoneAnswered(cfg, s)
  {
    forall c: nat | c < cfg.clients ensures xs[c] <= LastRound(cfg) { ReceivedBound(cfg, s, c); }
    SumBelow(xs, LastRound(cfg));
  }

  /** The progress bar never overshoots, and it is full exactly when every client has received an
      answer for each of its rounds. */
  lemma ProgressBar(cfg: Config, tr: seq<State>, acts: seq<Action>, i: nat)
    requires IsRun(cfg, tr, acts) && i < |tr|
    ensures tr[i].progress <= Total(cfg)
    ensures |tr[i].records| == cfg.clients
    ensures Total(cfg) > 0 ==> (tr[i].progress == Total(cfg) <==> EveryoneAnswered(cfg, tr[i]))
  {
    RunInv(cfg, tr, acts, i);
    ProgressIsReceived(cfg, tr[i]);
  }

  lemma ProgressIsReceived(cfg: Config, s: State)
    requires Inv(cfg, s)
    ensures s.progress <= Total(cfg)
    ensures Total(cfg) > 0 ==> (s.progress == Total(cfg) <==> EveryoneAnswered(cfg, s))
  {
    ReceivedSum(cfg, s);
    if Total(cfg) > 0 { TotalPositive(cfg); }
  }

  lemma TotalPositive(cfg: Config)
    requires Total(cfg) > 0
    ensures cfg.clients > 0 && cfg.rounds > 0 && LastRound(cfg) == cfg.rounds
  {
  }

  lemma NobodyLeft(cfg: Config, s: State)
    requires Inv(cfg, s) && Total(cfg) > 0 && s.progress == Total(cfg)
    ensures s.ready == [] && s.tasks == [] && HandlerLoad(s) == 0 && s.crashed == {}
  {
    TotalPositive(cfg);
    ReceivedSum(cfg, s);
    if s.ready != [] {
      CountMember(s.ready, 0);
      AllReceived(cfg, s, s.ready[0].0);
    }
    if s.tasks != [] {
      CountMember(s.tasks, 0);
      AllReceived(cfg, s, s.tasks[0].0);
    }
    if c :| c in s.crashed {
      AllReceived(cfg, s, c);
    }
    if HandlerLoad(s) != 0 {
      AllReceived(cfg, s, if s.handler.Resuming? then s.handler.next else s.handler.last);
    }
  }

  /** A client with all its answers is finished or has its last answer pending. */
  lemma AllReceived(cfg: Config, s: State, c: nat)
    requires Inv(cfg, s) && (c < cfg.clients ==> Received(s, c) == LastRound(cfg))
    ensures Count(s.ready, c) == 0 && Count(s.tasks, c) == 0 && !InHandler(s, c) && c !in s.crashed
  {
    PendingFacts(cfg, s);
    assert Places(s, c) == One(c < cfg.clients);
  }

  /** When the sender leaves its loop nothing is waiting to be sent and nothing is in flight. */
  lemma SenderLeavesNothing(cfg: Config, tr: seq<State>, acts: seq<Action>, i: nat)
    requires IsRun(cfg, tr, acts) && i < |tr| && tr[i].loop.Stopped? && Total(cfg) > 0
    ensures tr[i].ready == [] && tr[i].tasks == []
    ensures |tr[i].records| == cfg.clients
    ensures EveryoneAnswered(cfg, tr[i])
  {
    RunInv(cfg, tr, acts, i);
    NobodyLeft(cfg, tr[i]);
    ProgressBar(cfg, tr, acts, i);
  }

  // ---------------------------------------------------------------- a bar without a total

  /** With a total of zero the exit test passes the first time it is made. */
  ghost predicate FirstIteration(cfg: Config, s: State) {
    && s.progress == 0 && s.responses == [] && !s.loop.Reporting? && HandlerLoad(s) == 0
    && (s.loop.Idle? || s.loop.Admitted? || s.loop.LoopFailed? ==> s.tasks == [])
    && (s.loop.Testing? || s.loop.Stopped? ==> |s.tasks| == One(cfg.clients > 0))
    && (s.loop.Idle? || s.loop.Admitted? || s.loop.LoopFailed? ==> |s.ready| == cfg.clients)
  }

  lemma {:induction false} OnlyOneIteration(cfg: Config, tr: seq<State>, acts: seq<Action>, i: nat)
    requires IsRun(cfg, tr, acts) && i < |tr| && Total(cfg) == 0
    ensures FirstIteration(cfg, tr[i])
  {
    if i > 0 {
      OnlyOneIteration(cfg, tr, acts, i - 1);
      IterationStep(cfg, tr[i - 1], acts[i - 1]);
    }
  }

  lemma IterationStep(cfg: Config, s: State, a: Action)
    requires Total(cfg) == 0 && FirstIteration(cfg, s) && Enabled(cfg, s, a)
    ensures FirstIteration(cfg, Apply(cfg, s, a))
  {
  }

  /** The sender leaves its loop with nothing waiting and nothing in flight if and only if the bar has a
      total or there are no clients; otherwise it abandons the request it has just sent. */
  lemma SenderLeavesNothingExactlyWhen(cfg: Config, tr: seq<State>, acts: seq<Action>, i: nat)
    requires IsRun(cfg, tr, acts) && i < |tr| && tr[i].loop.Stopped?
    ensures tr[i].ready == [] && tr[i].tasks == [] <==> Total(cfg) > 0 || cfg.clients == 0
  {
    if Total(cfg) > 0 {
      SenderLeavesNothing(cfg, tr, acts, i);
    } else {
      OnlyOneIteration(cfg, tr, acts, i);
      RunInv(cfg, tr, acts, i);
      if tr[i].ready != [] {
        CountMember(tr[i].ready, 0);
        assert Places(tr[i], tr[i].ready[0].0) == One(tr[i].ready[0].0 < cfg.clients);
      }
    }
  }

  /** The lookups in the steps never fail: what the source tests is all that decides whether the sender
      can pop and the handler can handle. */
  lemma NoLookupErrors(cfg: Config, tr: seq<State>, acts: seq<Action>, i: nat, k: nat)
    requires IsRun(cfg, tr, acts) && i < |tr|
    ensures tr[i].loop.Admitted? ==>
      (Enabled(cfg, tr[i], Pop(k)) <==> if tr[i].ready == [] || cfg.policy != Random then k == 0 else k < |tr[i].ready|)
    ensures tr[i].handler.Waiting? && tr[i].responses != [] ==> Enabled(cfg, tr[i], Handle)
    ensures tr[i].handler.Resuming? ==> Enabled(cfg, tr[i], Requeue)
  {
    var s := tr[i];
    RunInv(cfg, tr, acts, i);
    if s.responses != [] { HeadOfQueue(cfg, s); }
    assert k < |s.ready| ==> Current(s, s.ready[k]);
    assert s.ready != [] ==> Current(s, s.ready[0]);
  }

  /** A sub-question pool of `clients * max(rounds - 1, 1)` entries is never popped empty. */
  lemma PoolNeverEmpty(cfg: Config, tr: seq<State>, acts: seq<Action>, i: nat)
    requires IsRun(cfg, tr, acts) && i < |tr|
    requires |cfg.pool| >= cfg.clients * (if cfg.rounds >= 2 then cfg.rounds - 1 else 1)
    ensures !tr[i].handler.Starved?
  {
    RunInv(cfg, tr, acts, i);
    PoolLargeEnough(cfg, tr[i]);
  }

  lemma PoolLargeEnough(cfg: Config, s: State)
    requires Inv(cfg, s)
    requires |cfg.pool| >= cfg.clients * (if cfg.rounds >= 2 then cfg.rounds - 1 else 1)
    ensures !s.handler.Starved?
  {
    RoundsBeforeLast(cfg, s);
    ProductMonotone(cfg.clients, LastRound(cfg) - 1, if cfg.rounds >= 2 then cfg.rounds - 1 else 1);
    PoolLeft(cfg, s, cfg.clients * (LastRound(cfg) - 1));
  }

  lemma PoolLeft(cfg: Config, s: State, n: int)
    requires Counters(cfg, s) && s.completed <= n + |s.finished| && |cfg.pool| >= n
    ensures !s.handler.Starved?
  {
  }

  lemma RoundsBeforeLast(cfg: Config, s: State)
    requires Partition(cfg, s) && RoundBounds(cfg, s) && s.completed == Sum(Rounds(s))
    ensures s.completed <= cfg.clients * (LastRound(cfg) - 1) + |s.finished|
  {
    FinishedAreClients(cfg, s);
    FinishedSum(cfg, s);
  }

  lemma FinishedSum(cfg: Config, s: State)
    requires |s.records| == cfg.clients && RoundBounds(cfg, s) && s.finished <= Range(cfg.clients)
    ensures Sum(Rounds(s)) <= cfg.clients * (LastRound(cfg) - 1) + |s.finished|
  {
    var flat: seq<nat> := seq(cfg.clients, _ => LastRound(cfg) - 1);
    RoundsBelow(cfg, s, flat, Marked(flat, s.finished));
    SumBelow(flat, LastRound(cfg) - 1);
  }

  lemma RoundsBelow(cfg: Config, s: State, flat: seq<nat>, marked: seq<nat>)
    requires |s.records| == cfg.clients && RoundBounds(cfg, s) && s.finished <= Range(cfg.clients)
    requires |flat| == |marked| == cfg.clients
    requires forall c :: 0 <= c < cfg.clients ==> flat[c] == LastRound(cfg) - 1
    requires forall c :: 0 <= c < cfg.clients ==> marked[c] == flat[c] + One(c in s.finished)
    ensures Sum(Rounds(s)) <= Sum(flat) + |s.finished|
  {
    SumMarkedBy(flat, marked, s.finished);
    SumMonotone(Rounds(s), marked);
  }

  lemma FinishedAreClients(cfg: Config, s: State)
    requires Partition(cfg, s)
    ensures s.finished <= Range(cfg.clients)
  {
    forall c | c in s.finished ensures c in Range(cfg.clients) { assert Places(s, c) == One(c < cfg.clients); }
  }

  // ---------------------------------------------------------------- prompts

  lemma {:induction false} HistoryGrows(cfg: Config, tr: seq<State>, acts: seq<Action>, i: nat, j: nat, c: nat)
    requires IsRun(cfg, tr, acts) && i <= j < |tr| && c < cfg.clients
    ensures |tr[i].records| == |tr[j].records| == cfg.clients
    ensures tr[i].records[c].history <= tr[j].records[c].history
    decreases j
  {
    if i == j {
      RunInv(cfg, tr, acts, j);
    } else {
      HistoryGrows(cfg, tr, acts, i, j - 1, c);
      assert tr[j] == Apply(cfg, tr[j - 1], acts[j - 1]);
      StepGrows(cfg, tr[j - 1], acts[j - 1], c);
    }
  }

  lemma StepGrows(cfg: Config, s: State, a: Action, c: nat)
    requires |s.records| == cfg.clients && Enabled(cfg, s, a) && c < cfg.clients
    ensures |Apply(cfg, s, a).records| == cfg.clients
    ensures s.records[c].history <= Apply(cfg, s, a).records[c].history
  {
  }

  lemma {:induction false} LogChain(first: string, log: seq<string>, history: string, k: nat, l: nat)
    requires Conversation(first, log, history) && k <= l < |log|
    ensures log[k] <= log[l] <= history
    decreases |log| - k
  {
    if k == l {
      if l < |log| - 1 {
        LogChain(first, log, history, l + 1, |log| - 1);
      }
    } else {
      LogChain(first, log, history, k + 1, l);
    }
  }

  /** A payload that is queued or in flight is the client's whole recorded history, and every prompt
      the client has sent before is a prefix of it, as the earlier prompts are of the later ones. */
  lemma PromptsExtendEachOther(cfg: Config, tr: seq<State>, acts: seq<Action>, i: nat, k: nat, l: nat, c: nat)
    requires IsRun(cfg, tr, acts) && i < |tr| && c < cfg.clients
    ensures Payloads(tr[i]) && |tr[i].records| == |tr[i].log| == cfg.clients
    ensures k <= l < |tr[i].log[c]| ==> tr[i].log[c][k] <= tr[i].log[c][l] <= tr[i].records[c].history
    ensures tr[i].log[c] != [] ==> tr[i].log[c][0] == cfg.prompts[c]
  {
    RunInv(cfg, tr, acts, i);
    if k <= l < |tr[i].log[c]| {
      LogChain(cfg.prompts[c], tr[i].log[c], tr[i].records[c].history, k, l);
    }
  }

  lemma {:induction false} ResumingWaits(cfg: Config, tr: seq<State>, acts: seq<Action>, i: nat, j: nat, c: nat)
    requires IsRun(cfg, tr, acts) && i <= j < |tr| && tr[i].handler == Resuming(c)
    requires forall m :: i <= m < j ==> acts[m] != Requeue
    ensures tr[j].handler == Resuming(c) && tr[j].records == tr[i].records
    decreases j
  {
    if i < j {
      ResumingWaits(cfg, tr, acts, i, j - 1, c);
      assert acts[j - 1] != Requeue;
    }
  }

  /** The next prompt of a client is its last prompt, the answer to it and a sub-question, whatever
      the other thread does between counting the answer and queueing the next round. */
  lemma NextPrompt(cfg: Config, tr: seq<State>, acts: seq<Action>, i: nat, j: nat)
    requires IsRun(cfg, tr, acts) && i < j < |acts|
    requires acts[i] == Handle && acts[j] == Requeue && forall m :: i < m < j ==> acts[m] != Requeue
    requires tr[i + 1].handler.Resuming? && tr[j].pool != []
    ensures var c := tr[i].responses[0].0;
      && c < |tr[i].log| && tr[i].log[c] != [] && tr[j + 1].ready != []
      && Last(tr[j + 1].ready) == (c, Last(tr[i].log[c]) + tr[i].responses[0].1.text + Last(tr[j].pool))
  {
    RunInv(cfg, tr, acts, i);
    AnswersLastPrompt(cfg, tr[i]);
    assert tr[i + 1] == ApplyHandle(cfg, tr[i]);
    ResumingWaits(cfg, tr, acts, i + 1, j, tr[i].responses[0].0);
    assert tr[j + 1] == ApplyRequeue(tr[j]);
  }

  /** The answer at the head of the queue is to the client's last prompt, which is its history. */
  lemma AnswersLastPrompt(cfg: Config, s: State)
    requires Inv(cfg, s) && s.responses != []
    ensures var c := s.responses[0].0;
      c < |s.log| && c < |s.records| && s.log[c] != [] && Last(s.log[c]) == s.records[c].history
  {
    HeadOfQueue(cfg, s);
  }

  // ---------------------------------------------------------------- work

  /** Steps that move a request on, as opposed to the sender polling. */
  predicate IsWork(cfg: Config, s: State, a: Action) {
    match a
    case Pop(_) => s.ready != [] && cfg.policy != Unsupported
    case Requeue => s.pool != []
    case Finish(_, _) => true
    case Raise(_) => true
    case Put => true
    case Handle => true
    case _ => false
  }

  /** Sends, answers counted or tasks raised, answers queued, answers handled, and rounds queued, so far. */
  function WorkDone(cfg: Config, s: State): int {
    s.sent + (s.completed + |s.lost| + |s.responses| + LoopLoad(s) + |s.crashed|)
    + (s.completed + |s.lost| + |s.responses|) + (s.completed + |s.lost|) + (|cfg.pool| - |s.pool|)
  }

  lemma WorkStep(cfg: Config, s: State, a: Action)
    requires Inv(cfg, s) && Enabled(cfg, s, a)
    ensures WorkDone(cfg, Apply(cfg, s, a)) == WorkDone(cfg, s) + One(IsWork(cfg, s, a))
  {
    if a.Handle? { HandleWork(cfg, s); }
    if a.Raise? { TaskIsAlone(cfg, s, a.task); }
  }

  lemma HandleWork(cfg: Config, s: State)
    requires Inv(cfg, s) && Enabled(cfg, s, Handle)
    ensures WorkDone(cfg, Apply(cfg, s, Handle)) == WorkDone(cfg, s) + 1
  {
    HeadOfQueue(cfg, s);
    HandleWorkNew(cfg, s);
  }

  lemma HandleWorkNew(cfg: Config, s: State)
    requires Enabled(cfg, s, Handle) && s.responses[0].0 !in s.lost && s.responses[0].0 !in s.finished
    ensures WorkDone(cfg, Apply(cfg, s, Handle)) == WorkDone(cfg, s) + 1
  {
    if s.responses[0].1.success {
      HandleCredits(cfg, s);
    } else {
      HandleLoses(cfg, s);
    }
    HandleWorkAdds(cfg, s, ApplyHandle(cfg, s));
  }

  lemma HandleWorkAdds(cfg: Config, s: State, s': State)
    requires s'.sent == s.sent && s'.pool == s.pool && s'.crashed == s.crashed && s'.loop == s.loop
    requires |s'.responses| == |s.responses| - 1 && |s'.lost| + s'.completed == |s.lost| + s.completed + 1
    ensures WorkDone(cfg, s') == WorkDone(cfg, s) + 1
  {
  }

  /** Clients that have a request out. */
  function Busy(s: State): set<nat> {
    Pending(s) + Tags(s.tasks) + s.crashed
  }

  lemma SentBound(cfg: Config, s: State)
    requires Inv(cfg, s)
    ensures s.sent <= cfg.clients * LastRound(cfg)
  {
    BusyFacts(cfg, s);
    BusySum(cfg, s);
  }

  lemma BusySum(cfg: Config, s: State)
    requires |s.records| == cfg.clients && RoundBounds(cfg, s)
    requires Busy(s) <= Range(cfg.clients) && Busy(s) !! s.finished
    ensures Sum(Rounds(s)) + |Busy(s)| <= cfg.clients * LastRound(cfg)
  {
    BusyBelow(cfg, s, Marked(Rounds(s), Busy(s)));
    SumMarked(Rounds(s), Busy(s));
  }

  lemma BusyBelow(cfg: Config, s: State, xs: seq<nat>)
    requires |s.records| == cfg.clients && RoundBounds(cfg, s) && Busy(s) !! s.finished && |xs| == cfg.clients
    requires forall c :: 0 <= c < |xs| ==> xs[c] == s.records[c].round + One(c in Busy(s))
    ensures Sum(xs) <= cfg.clients * LastRound(cfg)
  {
    SumBelow(xs, LastRound(cfg));
  }

  lemma BusyFacts(cfg: Config, s: State)
    requires Partition(cfg, s) && Counters(cfg, s)
    ensures Busy(s) <= Range(cfg.clients) && Busy(s) !! s.finished
    ensures |Busy(s)| == s.sent - s.completed
  {
    PendingFacts(cfg, s);
    NoDuplicates(cfg, s);
    forall c | c in Tags(s.tasks) + s.crashed
      ensures c < cfg.clients && c !in s.finished && c !in Pending(s) && (c in Tags(s.tasks) ==> c !in s.crashed)
    {
      OutAndNowhereElse(cfg, s, c);
    }
    DisjointSize(Pending(s), Tags(s.tasks), s.crashed);
  }

  lemma OutAndNowhereElse(cfg: Config, s: State, c: nat)
    requires Partition(cfg, s) && (c in Tags(s.tasks) || c in s.crashed)
    ensures c < cfg.clients && c !in s.finished && c !in Pending(s) && (c in Tags(s.tasks) ==> c !in s.crashed)
  {
    assert Places(s, c) == One(c < cfg.clients);
  }

  lemma WorkBound(cfg: Config, s: State)
    requires Inv(cfg, s)
    ensures 0 <= WorkDone(cfg, s) <= 5 * (cfg.clients * LastRound(cfg))
  {
    SentBound(cfg, s);
    WorkBelow(cfg, s, cfg.clients * LastRound(cfg));
  }

  lemma WorkBelow(cfg: Config, s: State, n: int)
    requires Counters(cfg, s) && s.sent <= n
    ensures 0 <= WorkDone(cfg, s) <= 5 * n
  {
    var taken := |cfg.pool| - |s.pool|;
    assert 0 <= taken <= s.completed;
  }

  /** The number of work steps among the first `i` actions. */
  ghost function Works(cfg: Config, tr: seq<State>, acts: seq<Action>, i: nat): nat
    requires i <= |acts| && i < |tr|
  {
    if i == 0 then 0 else Works(cfg, tr, acts, i - 1) + One(IsWork(cfg, tr[i - 1], acts[i - 1]))
  }

  /** However threads interleave and servers answer, a run contains at most five steps of work per
      client and round; everything else is polling. */
  lemma {:induction false} RunWork(cfg: Config, tr: seq<State>, acts: seq<Action>, i: nat)
    requires IsRun(cfg, tr, acts) && i < |tr|
    ensures Works(cfg, tr, acts, i) == WorkDone(cfg, tr[i])
    ensures Works(cfg, tr, acts, i) <= 5 * (cfg.clients * LastRound(cfg))
  {
    if i > 0 {
      var s, a := tr[i - 1], acts[i - 1];
      RunWork(cfg, tr, acts, i - 1);
      assert tr[i] == Apply(cfg, s, a);
      RunInv(cfg, tr, acts, i - 1);
      WorkStep(cfg, s, a);
    } else {
      assert WorkDone(cfg, Init(cfg)) == 0;
    }
    RunInv(cfg, tr, acts, i);
    WorkBound(cfg, tr[i]);
  }
}
