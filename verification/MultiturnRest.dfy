/** Where a run of the multi-turn load generator can come to rest, and whether its threads get out. */
module MultiturnRest {
  import opened Collections
  import opened Multiturn
  import opened MultiturnRuns

  // ---------------------------------------------------------------- continuations

  ghost predicate CanExec(cfg: Config, s: State, acts: seq<Action>)
    decreases |acts|
  {
    acts == [] || (Enabled(cfg, s, acts[0]) && CanExec(cfg, Apply(cfg, s, acts[0]), acts[1..]))
  }

  ghost function Exec(cfg: Config, s: State, acts: seq<Action>): State
    requires CanExec(cfg, s, acts)
    decreases |acts|
  {
    if acts == [] then s else Exec(cfg, Apply(cfg, s, acts[0]), acts[1..])
  }

  // ---------------------------------------------------------------- rest

  /** The benchmark is configured to work: something to do, a known policy, a full pool. */
  ghost predicate Sound(cfg: Config) {
    && Total(cfg) > 0 && cfg.policy != Unsupported
    && |cfg.pool| >= cfg.clients * (if cfg.rounds >= 2 then cfg.rounds - 1 else 1)
  }

  /** The handler will take the next answer, now or after finding that the bar is not full. */
  predicate Attending(cfg: Config, s: State) {
    s.handler.Waiting? || (s.handler.Checking? && s.progress != Total(cfg))
  }

  /** No request can be moved on any more: none in flight or half-way, no answer the handler will still
      take, and nothing ready that the sender could get a slot for. */
  predicate Quiet(cfg: Config, s: State) {
    && s.tasks == [] && !s.loop.Reporting? && !s.handler.Resuming?
    && (s.responses == [] || !Attending(cfg, s))
    && (s.ready == [] || s.sent - s.completed >= cfg.maxParallel)
  }

  /** Rest is for good: from a quiet state only polling is possible, and it stays quiet. */
  lemma QuietStays(cfg: Config, s: State, a: Action)
    requires Inv(cfg, s) && Quiet(cfg, s) && Enabled(cfg, s, a)
    ensures !IsWork(cfg, s, a) && Quiet(cfg, Apply(cfg, s, a))
    ensures Apply(cfg, s, a) == s.(loop := Apply(cfg, s, a).loop, handler := Apply(cfg, s, a).handler)
  {
  }

  lemma TestGoesOn(cfg: Config, s: State)
    requires Inv(cfg, s) && Sound(cfg) && s.loop.Testing? && (s.ready != [] || s.tasks != [])
    ensures Apply(cfg, s, Test) == s.(loop := Idle)
  {
    if s.progress == Total(cfg) { NobodyLeft(cfg, s); }
  }

  /** From the idle event loop with something to send or to answer, work is at most one step away. */
  lemma IdleWork(cfg: Config, s: State) returns (polls: seq<Action>, a: Action)
    requires Inv(cfg, s) && Sound(cfg) && s.loop.Idle?
    requires s.tasks != [] || (s.ready != [] && s.sent - s.completed < cfg.maxParallel)
    ensures |polls| <= 1 && CanExec(cfg, s, polls) && Exec(cfg, s, polls).responses == s.responses
    ensures Enabled(cfg, Exec(cfg, s, polls), a) && IsWork(cfg, Exec(cfg, s, polls), a)
    ensures WorkDone(cfg, Exec(cfg, s, polls)) == WorkDone(cfg, s)
  {
    if s.tasks != [] {
      polls, a := [], Finish(0, Response(true, ""));
    } else {
      polls, a := [Admit], Pop(0);
      var s1 := Apply(cfg, s, Admit);
      assert CanExec(cfg, s1, polls[1..]) && Exec(cfg, s1, polls[1..]) == s1;
      assert Current(s, s.ready[0]);
    }
  }

  lemma PollThen(cfg: Config, s: State, a: Action, polls: seq<Action>)
    requires Enabled(cfg, s, a) && CanExec(cfg, Apply(cfg, s, a), polls)
    ensures CanExec(cfg, s, [a] + polls) && Exec(cfg, s, [a] + polls) == Exec(cfg, Apply(cfg, s, a), polls)
  {
    assert ([a] + polls)[1..] == polls;
  }

  lemma RequeueIsWork(cfg: Config, s: State)
    requires Inv(cfg, s) && Sound(cfg) && s.handler.Resuming?
    ensures Enabled(cfg, s, Requeue) && IsWork(cfg, s, Requeue)
  {
    InvPreserved(cfg, s, Requeue);
    PoolLargeEnough(cfg, Apply(cfg, s, Requeue));
  }

  /** Work that is possible whatever the sender is doing. */
  lemma HandlerWork(cfg: Config, s: State) returns (polls: seq<Action>, a: Action)
    requires Inv(cfg, s) && Sound(cfg)
    requires s.loop.Reporting? || s.handler.Resuming? || (s.responses != [] && Attending(cfg, s))
    ensures |polls| <= 1 && CanExec(cfg, s, polls)
    ensures Enabled(cfg, Exec(cfg, s, polls), a) && IsWork(cfg, Exec(cfg, s, polls), a)
    ensures WorkDone(cfg, Exec(cfg, s, polls)) == WorkDone(cfg, s)
  {
    polls := [];
    if s.loop.Reporting? {
      a := Put;
    } else if s.handler.Resuming? {
      RequeueIsWork(cfg, s);
      a := Requeue;
    } else {
      HeadOfQueue(cfg, s);
      a := Handle;
      if s.handler.Checking? {
        PollThen(cfg, s, Decide, []);
        polls := [Decide] + [];
      }
    }
  }

  lemma SenderWork(cfg: Config, s: State) returns (polls: seq<Action>, a: Action)
    requires Inv(cfg, s) && Sound(cfg) && !s.loop.Reporting?
    requires s.tasks != [] || (s.ready != [] && s.sent - s.completed < cfg.maxParallel)
    ensures |polls| <= 3 && CanExec(cfg, s, polls)
    ensures Enabled(cfg, Exec(cfg, s, polls), a) && IsWork(cfg, Exec(cfg, s, polls), a)
    ensures WorkDone(cfg, Exec(cfg, s, polls)) == WorkDone(cfg, s)
  {
    match s.loop
    case Idle => polls, a := IdleWork(cfg, s);
    case Testing => polls, a := TestingWork(cfg, s);
    case Admitted =>
      if s.ready != [] {
        polls, a := [], Pop(0);
        assert Current(s, s.ready[0]);
      } else {
        var s1 := Apply(cfg, s, Pop(0));
        InvPreserved(cfg, s, Pop(0));
        var rest;
        rest, a := TestingWork(cfg, s1);
        PollThen(cfg, s, Pop(0), rest);
        polls := [Pop(0)] + rest;
      }
    case Stopped => NobodyLeft(cfg, s);
  }

  lemma TestingWork(cfg: Config, s: State) returns (polls: seq<Action>, a: Action)
    requires Inv(cfg, s) && Sound(cfg) && s.loop.Testing?
    requires s.tasks != [] || (s.ready != [] && s.sent - s.completed < cfg.maxParallel)
    ensures |polls| <= 2 && CanExec(cfg, s, polls)
    ensures Enabled(cfg, Exec(cfg, s, polls), a) && IsWork(cfg, Exec(cfg, s, polls), a)
    ensures WorkDone(cfg, Exec(cfg, s, polls)) == WorkDone(cfg, s)
  {
    TestGoesOn(cfg, s);
    InvPreserved(cfg, s, Test);
    var rest;
    rest, a := IdleWork(cfg, Apply(cfg, s, Test));
    PollThen(cfg, s, Test, rest);
    polls := [Test] + rest;
  }

  /** No deadlock: in a state that is not quiet, after at most three polling steps some
      step of work is possible. */
  lemma WorkIsPossible(cfg: Config, tr: seq<State>, acts: seq<Action>, i: nat)
    returns (polls: seq<Action>, a: Action)
    requires IsRun(cfg, tr, acts) && i < |tr| && Sound(cfg) && !Quiet(cfg, tr[i])
    ensures |polls| <= 3 && CanExec(cfg, tr[i], polls)
    ensures Enabled(cfg, Exec(cfg, tr[i], polls), a) && IsWork(cfg, Exec(cfg, tr[i], polls), a)
    ensures WorkDone(cfg, Exec(cfg, tr[i], polls)) == WorkDone(cfg, tr[i])
  {
    var s := tr[i];
    RunInv(cfg, tr, acts, i);
    if s.loop.Reporting? || s.handler.Resuming? || (s.responses != [] && Attending(cfg, s)) {
      polls, a := HandlerWork(cfg, s);
    } else {
      polls, a := SenderWork(cfg, s);
    }
  }

  // ---------------------------------------------------------------- the handler's exit

  /** Answers counted on the bar that the handler has not taken. */
  function Unhandled(s: State): nat {
    |s.responses| + LoopLoad(s)
  }

  /** The handler has stopped waiting and the bar is full: it will not take another answer. */
  predicate Unattended(cfg: Config, s: State) {
    s.progress == Total(cfg) && (s.handler.Checking? || s.handler.Exited?)
  }

  lemma UnattendedStep(cfg: Config, s: State, a: Action)
    requires Inv(cfg, s) && Total(cfg) > 0 && Unattended(cfg, s) && Enabled(cfg, s, a)
    ensures Unattended(cfg, Apply(cfg, s, a)) && Unhandled(Apply(cfg, s, a)) == Unhandled(s)
  {
    NobodyLeft(cfg, s);
  }

  /** Once unattended, always so, and what is unhandled then stays unhandled. */
  lemma {:induction false} UnattendedForEver(cfg: Config, tr: seq<State>, acts: seq<Action>, m: nat, i: nat)
    requires IsRun(cfg, tr, acts) && m <= i < |tr| && Total(cfg) > 0 && Unattended(cfg, tr[m])
    ensures Unattended(cfg, tr[i]) && Unhandled(tr[i]) == Unhandled(tr[m])
    decreases i
  {
    if m < i {
      UnattendedForEver(cfg, tr, acts, m, i - 1);
      RunInv(cfg, tr, acts, i - 1);
      UnattendedStep(cfg, tr[i - 1], acts[i - 1]);
    }
  }

  /** The handler exits only with the bar full, and through a state in which it is unattended. */
  lemma {:induction false} ExitIsUnattended(cfg: Config, tr: seq<State>, acts: seq<Action>, i: nat)
    requires IsRun(cfg, tr, acts) && i < |tr| && Total(cfg) > 0 && tr[i].handler.Exited?
    ensures Unattended(cfg, tr[i])
  {
    assert i > 0;
    assert tr[i] == Apply(cfg, tr[i - 1], acts[i - 1]);
    if tr[i - 1].handler.Exited? {
      ExitIsUnattended(cfg, tr, acts, i - 1);
      UnattendedForEver(cfg, tr, acts, i - 1, i);
    }
  }

  // ---------------------------------------------------------------- failure-free runs end complete

  lemma QuietAndHandled(cfg: Config, s: State)
    requires Inv(cfg, s) && Total(cfg) > 0 && Quiet(cfg, s) && !s.handler.Starved? && s.responses == []
    requires s.lost == s.crashed == {} && cfg.maxParallel >= 1
    ensures s.ready == [] && s.completed == s.sent == Total(cfg)
    ensures forall c :: 0 <= c < cfg.clients ==> s.records[c].round == cfg.rounds
  {
    assert s.ready == [];
    forall c | 0 <= c < cfg.clients ensures s.records[c].round == LastRound(cfg) {
      assert Places(s, c) == 1;
    }
    TotalPositive(cfg);
    SumBelow(Rounds(s), LastRound(cfg));
  }

  lemma LogLengths(cfg: Config, s: State)
    requires Inv(cfg, s) && Total(cfg) > 0 && s.progress == Total(cfg)
    ensures forall c :: 0 <= c < cfg.clients ==> |s.log[c]| == cfg.rounds
  {
    TotalPositive(cfg);
    NobodyLeft(cfg, s);
    ReceivedSum(cfg, s);
    PendingFacts(cfg, s);
    forall c: nat | c < cfg.clients ensures |s.log[c]| == cfg.rounds {
      assert Received(s, c) == LastRound(cfg);
      assert Outstanding(s, c) > 0 ==> c in Pending(s);
    }
  }

  /** With no request failed or raised and at least one slot, a run can only come to rest after exactly
      `clients * rounds` requests, `rounds` from each client, with the bar full; and unless the
      handler has turned away with answers still to come, every client has completed all its rounds. */
  lemma FailureFreeRest(cfg: Config, tr: seq<State>, acts: seq<Action>, i: nat)
    requires IsRun(cfg, tr, acts) && i < |tr| && Sound(cfg) && cfg.maxParallel >= 1
    requires Quiet(cfg, tr[i]) && tr[i].lost == tr[i].crashed == {}
    ensures var s := tr[i];
      && s.sent == s.progress == Total(cfg) && s.ready == [] && |s.records| == |s.log| == cfg.clients
      && (forall c :: 0 <= c < cfg.clients ==> |s.log[c]| == cfg.rounds)
      && s.completed == Total(cfg) - |s.responses|
      && (s.responses != [] ==> Unattended(cfg, s))
      && (s.responses == [] ==> forall c :: 0 <= c < cfg.clients ==> s.records[c].round == cfg.rounds)
  {
    var s := tr[i];
    RunInv(cfg, tr, acts, i);
    PoolNeverEmpty(cfg, tr, acts, i);
    if s.responses == [] {
      QuietAndHandled(cfg, s);
    } else {
      if s.handler.Exited? { ExitIsUnattended(cfg, tr, acts, i); }
      NobodyLeft(cfg, s);
    }
    LogLengths(cfg, s);
  }

  lemma CompleteRounds(cfg: Config, s: State)
    requires Inv(cfg, s) && forall c :: 0 <= c < cfg.clients ==> s.records[c].round == cfg.rounds
    ensures s.completed == Total(cfg)
  {
    SumBelow(Rounds(s), cfg.rounds);
  }

  /** A failure-free run at rest has taken every client through all its rounds if and only if the
      handler was at no point past its timeout with the bar full and an answer not taken yet. */
  lemma RoundsCompleteExactlyWhen(cfg: Config, tr: seq<State>, acts: seq<Action>, i: nat)
    requires IsRun(cfg, tr, acts) && i < |tr| && Sound(cfg) && cfg.maxParallel >= 1
    requires Quiet(cfg, tr[i]) && tr[i].lost == tr[i].crashed == {}
    ensures |tr[i].records| == cfg.clients
    ensures (forall c :: 0 <= c < cfg.clients ==> tr[i].records[c].round == cfg.rounds)
      <==> (forall m :: 0 <= m <= i && Unattended(cfg, tr[m]) ==> Unhandled(tr[m]) == 0)
  {
    var s := tr[i];
    RunInv(cfg, tr, acts, i);
    FailureFreeRest(cfg, tr, acts, i);
    forall m: nat | m <= i && Unattended(cfg, tr[m]) ensures |s.responses| == Unhandled(tr[m]) {
      UnattendedForEver(cfg, tr, acts, m, i);
    }
    if forall c :: 0 <= c < cfg.clients ==> s.records[c].round == cfg.rounds {
      CompleteRounds(cfg, s);
    }
  }

  // ---------------------------------------------------------------- does the sender get out?

  ghost predicate StopReachable(cfg: Config, s: State) {
    exists acts :: CanExec(cfg, s, acts) && Exec(cfg, s, acts).loop.Stopped?
  }

  /** The sender will never leave its loop: the bar will not fill, or no slot will get free. */
  ghost predicate Trapped(cfg: Config, s: State) {
    && Inv(cfg, s) && Quiet(cfg, s) && !s.loop.Stopped?
    && (s.progress != Total(cfg) || (s.loop.Idle? && s.sent - s.completed >= cfg.maxParallel))
  }

  lemma {:induction false} TrappedForEver(cfg: Config, s: State, acts: seq<Action>)
    requires Trapped(cfg, s) && CanExec(cfg, s, acts)
    ensures !Exec(cfg, s, acts).loop.Stopped?
    decreases |acts|
  {
    if acts != [] {
      QuietStays(cfg, s, acts[0]);
      InvPreserved(cfg, s, acts[0]);
      TrappedForEver(cfg, Apply(cfg, s, acts[0]), acts[1..]);
    }
  }

  /** With the bar full, nothing ready and a slot free the sender can leave, without disturbing anything else. */
  lemma WayOut(cfg: Config, s: State) returns (acts: seq<Action>)
    requires s.progress == Total(cfg) && s.ready == [] && s.sent - s.completed < cfg.maxParallel
    requires !s.loop.Reporting? && !s.loop.LoopFailed?
    ensures CanExec(cfg, s, acts) && Exec(cfg, s, acts) == s.(loop := Stopped)
  {
    var s1, s2 := s.(loop := Admitted), s.(loop := Testing);
    assert Apply(cfg, s2, Test) == s.(loop := Stopped);
    PollThen(cfg, s2, Test, []);
    PollThen(cfg, s1, Pop(0), [Test] + []);
    match s.loop
    case Idle =>
      PollThen(cfg, s, Admit, [Pop(0)] + ([Test] + []));
      acts := [Admit] + ([Pop(0)] + ([Test] + []));
    case Admitted => acts := [Pop(0)] + ([Test] + []);
    case Testing => acts := [Test] + [];
    case Stopped => acts := [];
  }

  /** Of a quiet state with a full bar, the sender is past its slot test only if a slot is free. */
  lemma PastTheTest(cfg: Config, s: State)
    requires Inv(cfg, s) && Total(cfg) > 0 && Quiet(cfg, s) && s.progress == Total(cfg)
    ensures s.loop.Idle? || s.sent - s.completed < cfg.maxParallel
  {
    NobodyLeft(cfg, s);
  }

  /** A run at rest lets the sender out if and only if every client has received an answer for each
      of its rounds and the failed and unhandled requests leave a slot free. */
  lemma SenderGetsOutExactlyWhen(cfg: Config, tr: seq<State>, acts: seq<Action>, i: nat)
    requires IsRun(cfg, tr, acts) && i < |tr| && Total(cfg) > 0 && Quiet(cfg, tr[i])
    ensures |tr[i].records| == cfg.clients
    ensures StopReachable(cfg, tr[i])
      <==> EveryoneAnswered(cfg, tr[i]) && |tr[i].lost| + |tr[i].responses| < cfg.maxParallel
  {
    var s := tr[i];
    RunInv(cfg, tr, acts, i);
    ProgressBar(cfg, tr, acts, i);
    if s.progress == Total(cfg) {
      NobodyLeft(cfg, s);
      PastTheTest(cfg, s);
    }
    if s.progress == Total(cfg) && s.sent - s.completed < cfg.maxParallel {
      var out := WayOut(cfg, s);
    } else {
      forall more | CanExec(cfg, s, more) ensures !Exec(cfg, s, more).loop.Stopped? {
        TrappedForEver(cfg, s, more);
      }
    }
  }

  // ---------------------------------------------------------------- does the benchmark return?

  /** Both threads can be joined. */
  ghost predicate ReturnReachable(cfg: Config, s: State) {
    exists acts :: CanExec(cfg, s, acts) && Exec(cfg, s, acts).loop.Stopped? && Exec(cfg, s, acts).handler.Exited?
  }

  lemma HandlerOut(cfg: Config, s: State) returns (acts: seq<Action>)
    requires Inv(cfg, s) && Total(cfg) > 0 && Quiet(cfg, s) && s.progress == Total(cfg)
    ensures CanExec(cfg, s, acts) && Exec(cfg, s, acts) == s.(handler := Exited)
  {
    NobodyLeft(cfg, s);
    var s1 := s.(handler := Checking);
    assert Apply(cfg, s1, Decide) == s.(handler := Exited);
    PollThen(cfg, s1, Decide, []);
    match s.handler
    case Waiting =>
      PollThen(cfg, s, Expire, [Decide] + []);
      acts := [Expire] + ([Decide] + []);
    case Checking => acts := [Decide] + [];
    case Exited => acts := [];
  }

  lemma {:induction false} ExecThen(cfg: Config, s: State, first: seq<Action>, rest: seq<Action>)
    requires CanExec(cfg, s, first) && CanExec(cfg, Exec(cfg, s, first), rest)
    ensures CanExec(cfg, s, first + rest)
    ensures Exec(cfg, s, first + rest) == Exec(cfg, Exec(cfg, s, first), rest)
    decreases |first|
  {
    if first == [] {
      assert first + rest == rest;
    } else {
      ExecThen(cfg, Apply(cfg, s, first[0]), first[1..], rest);
      PollThen(cfg, s, first[0], first[1..] + rest);
      assert first + rest == [first[0]] + (first[1..] + rest);
    }
  }

  /** A run at rest can still return, with both threads out of their loops, under exactly the condition
      that lets the sender out: the handler never holds it up. */
  lemma RunReturnsExactlyWhen(cfg: Config, tr: seq<State>, acts: seq<Action>, i: nat)
    requires IsRun(cfg, tr, acts) && i < |tr| && Total(cfg) > 0 && Quiet(cfg, tr[i])
    ensures |tr[i].records| == cfg.clients
    ensures ReturnReachable(cfg, tr[i])
      <==> EveryoneAnswered(cfg, tr[i]) && |tr[i].lost| + |tr[i].responses| < cfg.maxParallel
  {
    var s := tr[i];
    SenderGetsOutExactlyWhen(cfg, tr, acts, i);
    if StopReachable(cfg, s) {
      RunInv(cfg, tr, acts, i);
      ProgressBar(cfg, tr, acts, i);
      NobodyLeft(cfg, s);
      var first := HandlerOut(cfg, s);
      var rest := WayOut(cfg, s.(handler := Exited));
      ExecThen(cfg, s, first, rest);
    }
  }

  // ---------------------------------------------------------------- what can go wrong

  function SmallConfig(rounds: nat, p: string, q: string): Config {
    Config(1, rounds, 1, Fifo, [p], [q])
  }

  /** One client, one slot: the request is sent and its answer arrives. */
  lemma FirstAnswer(p: string, q: string, r: Response) returns (tr: seq<State>, acts: seq<Action>)
    ensures var cfg := SmallConfig(1, p, q);
      && Sound(cfg) && IsRun(cfg, tr, acts)
      && var s := Last(tr);
        && s.loop == Reporting(0, r) && s.handler.Waiting? && s.ready == s.tasks == [] && s.responses == []
        && s.lost == s.crashed == {} && s.sent == 1 && s.completed == 0 && s.progress == 1 && |s.records| == 1
        && s.records[0].round == 0
  {
    var cfg := SmallConfig(1, p, q);
    var s0 := Init(cfg);
    assert s0.ready == [(0, p)];
    var s1 := Apply(cfg, s0, Admit);
    var s2 := Apply(cfg, s1, Pop(0));
    assert s2.tasks == [(0, p)] && s2.ready == [];
    var s3 := Apply(cfg, s2, Test);
    var s4 := Apply(cfg, s3, Finish(0, r));
    tr, acts := [s0, s1, s2, s3, s4], [Admit, Pop(0), Test, Finish(0, r)];
  }

  lemma RunSnoc(cfg: Config, tr: seq<State>, acts: seq<Action>, a: Action)
    requires IsRun(cfg, tr, acts) && Enabled(cfg, Last(tr), a)
    ensures IsRun(cfg, tr + [Apply(cfg, Last(tr), a)], acts + [a])
    ensures Last(tr + [Apply(cfg, Last(tr), a)]) == Apply(cfg, Last(tr), a)
  {
  }

  /** The handler can time out between the last answer being counted on the bar and being queued. The
      answer is then never handled, the client stays a round short, and with one slot the sender
      never gets out either. */
  lemma HandlerMayMissTheLastAnswer(p: string, q: string, text: string) returns (tr: seq<State>, acts: seq<Action>)
    ensures var cfg := SmallConfig(1, p, q);
      && Sound(cfg) && IsRun(cfg, tr, acts)
      && var s := Last(tr);
        && Quiet(cfg, s) && s.lost == {} && s.progress == Total(cfg) && |s.responses| == 1
        && s.completed == 0 && !StopReachable(cfg, s)
  {
    var cfg := SmallConfig(1, p, q);
    tr, acts := FirstAnswer(p, q, Response(true, text));
    RunSnoc(cfg, tr, acts, Expire);
    tr, acts := tr + [Apply(cfg, Last(tr), Expire)], acts + [Expire];
    RunSnoc(cfg, tr, acts, Decide);
    tr, acts := tr + [Apply(cfg, Last(tr), Decide)], acts + [Decide];
    RunSnoc(cfg, tr, acts, Put);
    tr, acts := tr + [Apply(cfg, Last(tr), Put)], acts + [Put];
    SenderGetsOutExactlyWhen(cfg, tr, acts, |tr| - 1);
  }

  /** A request that fails in the last round fills the bar but keeps its slot, so with one slot the
      sender waits for ever. */
  lemma FailureMayTrapTheSender(p: string, q: string) returns (tr: seq<State>, acts: seq<Action>)
    ensures var cfg := SmallConfig(1, p, q);
      && Sound(cfg) && IsRun(cfg, tr, acts)
      && var s := Last(tr);
        && Quiet(cfg, s) && s.progress == Total(cfg) && s.handler.Waiting? && !StopReachable(cfg, s)
  {
    var cfg := SmallConfig(1, p, q);
    tr, acts := FirstAnswer(p, q, Response(false, ""));
    RunSnoc(cfg, tr, acts, Put);
    tr, acts := tr + [Apply(cfg, Last(tr), Put)], acts + [Put];
    RunSnoc(cfg, tr, acts, Handle);
    tr, acts := tr + [Apply(cfg, Last(tr), Handle)], acts + [Handle];
    SenderGetsOutExactlyWhen(cfg, tr, acts, |tr| - 1);
  }
}
