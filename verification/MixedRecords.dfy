/** What the records and queues of the mixed workload hold over a whole run: rounds, requested tokens and
    start times as drawn, answers in the order in which they came, and when the handler leaves. */
module MixedRecords {
  import opened Collections
  import opened MixedWorkload
  import opened MixedTranscript

  // ---------------------------------------------------------------- records against draws

  /** The time at which a step draws for user `u`, if it does. */
  function NewTime(s: State, s': State, a: Action, u: nat): seq<real> {
    if NewDraw(s, s', a, u) == [] then []
    else
      match a
      case Send(_, now) => [now]
      case Handle(_, now) => [now]
      case _ => []
  }

  /** The times of the draws made for user `u` during the first `i` steps. */
  ghost function TimesOf(tr: seq<State>, acts: seq<Action>, i: nat, u: nat): seq<real>
    requires i <= |acts| && |tr| == |acts| + 1
  {
    if i == 0 then [] else TimesOf(tr, acts, i - 1, u) + NewTime(tr[i - 1], tr[i], acts[i - 1], u)
  }

  /** The number of rounds for a drawn ratio: up to the first cumulative ratio above it, or all. */
  ghost predicate DrawnRounds(cumulative: seq<int>, ratio: int, total: nat) {
    && 1 <= total <= |cumulative| && (ratio < cumulative[total - 1] || total == |cumulative|)
    && forall j :: 0 <= j < total - 1 ==> cumulative[j] <= ratio
  }

  /** The drawn number of tokens if it is positive, else the mean of the round. */
  ghost predicate DrawnTokens(mean: int, drawn: int, tokens: int) {
    tokens == if drawn > 0 then drawn else mean
  }

  /** The start of a round: right away for the first, else the drawn interval after the time of the draw, or the
      mean interval of the round if the drawn one is not positive. */
  ghost predicate DrawnStart(cfg: Config, draws: seq<Draw>, times: seq<real>, start: real)
    requires 0 < |draws| == |times| && |draws| <= |cfg.meanInterval|
  {
    var r, drawn := |draws| - 1, Last(draws).interval;
    if r == 0 then start == 0.0
    else if drawn > 0.0 then start == times[r] + drawn
    else start == times[r] + cfg.meanInterval[r]
  }

  ghost predicate AsDrawn(cfg: Config, user: User, draws: seq<Draw>, times: seq<real>) {
    && 0 < |draws| == |times| && |draws| <= |cfg.meanReturn| == |cfg.meanInterval|
    && DrawnRounds(cfg.cumulative, draws[0].ratio, user.total)
    && DrawnTokens(cfg.meanReturn[|draws| - 1], Last(draws).tokens, user.returnTokens)
    && DrawnStart(cfg, draws, times, user.start)
  }

  ghost predicate Recorded(cfg: Config, s: State, u: nat, draws: seq<Draw>, times: seq<real>) {
    if u < |s.users| then AsDrawn(cfg, s.users[u], draws, times) else draws == [] && times == []
  }

  lemma NewUserAsDrawn(cfg: Config, id: nat, d: Draw, now: real)
    requires ValidConfig(cfg)
    ensures AsDrawn(cfg, NewUser(cfg, id, d), [d], [now])
  {
  }

  lemma NextRoundAsDrawn(cfg: Config, user: User, text: string, d: Draw, now: real,
                         draws: seq<Draw>, times: seq<real>)
    requires ValidConfig(cfg) && AsDrawn(cfg, user, draws, times) && |draws| == user.current + 1 < cfg.rounds
    ensures AsDrawn(cfg, NextRound(cfg, user, text, d, now), draws + [d], times + [now])
  {
    assert (draws + [d])[0] == draws[0];
  }

  lemma SendRecords(cfg: Config, s: State, d: Draw, now: real, u: nat, draws: seq<Draw>, times: seq<real>)
    requires ValidConfig(cfg) && Recorded(cfg, s, u, draws, times) && Enabled(cfg, s, Send(d, now))
    ensures var s', a := ApplySend(cfg, s, d, now), Send(d, now);
      Recorded(cfg, s', u, draws + NewDraw(s, s', a, u), times + NewTime(s, s', a, u))
  {
    NoTail(draws);
    NoTail(times);
    if !Due(s.queue, now) && u == |s.users| {
      NoHead([d]);
      NoHead([now]);
      NewUserAsDrawn(cfg, u, d, now);
    }
  }

  lemma HandleRecords(cfg: Config, s: State, d: Draw, now: real, u: nat, draws: seq<Draw>, times: seq<real>)
    requires ValidConfig(cfg) && Recorded(cfg, s, u, draws, times) && Enabled(cfg, s, Handle(d, now))
    requires u == s.responses[0].0 ==> |draws| == s.users[u].current + 1
    ensures var s', a := ApplyHandle(cfg, s, d, now), Handle(d, now);
      Recorded(cfg, s', u, draws + NewDraw(s, s', a, u), times + NewTime(s, s', a, u))
  {
    NoTail(draws);
    NoTail(times);
    HandleDraws(cfg, s, d, now, u);
    var h, r := s.responses[0].0, s.responses[0].1;
    if r.success && u == h && s.users[u].current + 1 < s.users[u].total {
      NextRoundAsDrawn(cfg, s.users[u], r.text, d, now, draws, times);
    }
  }

  /** Each round a user has entered has its draw. */
  ghost predicate DrawPerRound(s: State, u: nat, draws: seq<Draw>) {
    u < |s.users| ==> |draws| + One(u in s.finished) == s.users[u].current + 1
  }

  lemma RecordStep(cfg: Config, s: State, a: Action, s': State, u: nat, draws: seq<Draw>, times: seq<real>)
    requires ValidConfig(cfg) && Partition(s) && Enabled(cfg, s, a) && s' == Apply(cfg, s, a)
    requires DrawPerRound(s, u, draws) && Recorded(cfg, s, u, draws, times)
    ensures Recorded(cfg, s', u, draws + NewDraw(s, s', a, u), times + NewTime(s, s', a, u))
  {
    if a.Send? {
      SendRecords(cfg, s, a.draw, a.now, u, draws, times);
    } else if a.Handle? {
      HeadOfQueue(s);
      HandleRecords(cfg, s, a.draw, a.now, u, draws, times);
    } else {
      NoTail(draws);
      NoTail(times);
    }
  }

  lemma DrawsCounted(cfg: Config, tr: seq<State>, acts: seq<Action>, i: nat, u: nat)
    requires IsRun(cfg, tr, acts) && i < |tr|
    ensures DrawPerRound(tr[i], u, DrawsFor(tr, acts, i, u))
  {
    PromptsAreStories(cfg, tr, acts, i, u);
  }

  lemma RecordStepOfRun(cfg: Config, tr: seq<State>, acts: seq<Action>, i: nat, u: nat,
                        draws: seq<Draw>, times: seq<real>)
    requires IsRun(cfg, tr, acts) && 0 < i < |tr|
    requires DrawPerRound(tr[i - 1], u, draws) && Recorded(cfg, tr[i - 1], u, draws, times)
    ensures Recorded(cfg, tr[i], u, draws + NewDraw(tr[i - 1], tr[i], acts[i - 1], u),
                     times + NewTime(tr[i - 1], tr[i], acts[i - 1], u))
  {
    RunStep(cfg, tr, acts, i);
    RecordStep(cfg, tr[i - 1], acts[i - 1], tr[i], u, draws, times);
  }

  lemma NextRecorded(cfg: Config, tr: seq<State>, acts: seq<Action>, i: nat, u: nat)
    requires IsRun(cfg, tr, acts) && 0 < i < |tr|
    requires Recorded(cfg, tr[i - 1], u, DrawsFor(tr, acts, i - 1, u), TimesOf(tr, acts, i - 1, u))
    ensures Recorded(cfg, tr[i], u, DrawsFor(tr, acts, i, u), TimesOf(tr, acts, i, u))
  {
    DrawsCounted(cfg, tr, acts, i - 1, u);
    RecordStepOfRun(cfg, tr, acts, i, u, DrawsFor(tr, acts, i - 1, u), TimesOf(tr, acts, i - 1, u));
  }

  lemma {:induction false} RecordsHold(cfg: Config, tr: seq<State>, acts: seq<Action>, i: nat, u: nat)
    requires IsRun(cfg, tr, acts) && i < |tr|
    ensures Recorded(cfg, tr[i], u, DrawsFor(tr, acts, i, u), TimesOf(tr, acts, i, u))
  {
    if i > 0 {
      RecordsHold(cfg, tr, acts, i - 1, u);
      NextRecorded(cfg, tr, acts, i, u);
    }
  }

  /** In every run a user has the number of rounds its first draw stands for, asks for the tokens of its last draw
      or the mean of that draw's round, and starts the drawn interval, or that round's mean one, after the time
      of the draw; the last draw is the one for the round it is in, or for its last round once it is finished. */
  lemma RecordsFollowDraws(cfg: Config, tr: seq<State>, acts: seq<Action>, i: nat, u: nat)
    requires IsRun(cfg, tr, acts) && i < |tr|
    ensures Recorded(cfg, tr[i], u, DrawsFor(tr, acts, i, u), TimesOf(tr, acts, i, u))
    ensures DrawPerRound(tr[i], u, DrawsFor(tr, acts, i, u))
  {
    RecordsHold(cfg, tr, acts, i, u);
    DrawsCounted(cfg, tr, acts, i, u);
  }

  // ---------------------------------------------------------------- answers

  /** The answer a step brings, if any, with its user. */
  function NewAnswer(s: State, a: Action): seq<(nat, Reply)> {
    match a
    case Finish(k, r) => if k < |s.tasks| then [(s.tasks[k].0, r)] else []
    case _ => []
  }

  /** The answer a step takes from the queue, if any: the one by which the queue gets shorter. */
  function NewTaken(s: State, s': State, a: Action): seq<(nat, Reply)> {
    if a.Handle? && |s'.responses| < |s.responses| then [s.responses[0]] else []
  }

  ghost function Answers(tr: seq<State>, acts: seq<Action>, i: nat): seq<(nat, Reply)>
    requires i <= |acts| && |tr| == |acts| + 1
  {
    if i == 0 then [] else Answers(tr, acts, i - 1) + NewAnswer(tr[i - 1], acts[i - 1])
  }

  ghost function Taken(tr: seq<State>, acts: seq<Action>, i: nat): seq<(nat, Reply)>
    requires i <= |acts| && |tr| == |acts| + 1
  {
    if i == 0 then [] else Taken(tr, acts, i - 1) + NewTaken(tr[i - 1], tr[i], acts[i - 1])
  }

  lemma HandleShortens(cfg: Config, s: State, d: Draw, now: real)
    requires Enabled(cfg, s, Handle(d, now))
    ensures ApplyHandle(cfg, s, d, now).responses == s.responses[1..]
  {
  }

  lemma AnswerStep(cfg: Config, s: State, a: Action, s': State)
    requires Enabled(cfg, s, a) && s' == Apply(cfg, s, a)
    ensures NewTaken(s, s', a) + s'.responses == s.responses + NewAnswer(s, a)
  {
    if a.Handle? {
      HandleShortens(cfg, s, a.draw, a.now);
      FrontTaken(s.responses);
    } else {
      OthersTakeNothing(cfg, s, a, s');
      NoHead(s'.responses);
    }
  }

  lemma FrontTaken<T>(q: seq<T>)
    requires q != []
    ensures [q[0]] + q[1..] == q + []
  {
  }

  lemma OthersTakeNothing(cfg: Config, s: State, a: Action, s': State)
    requires Enabled(cfg, s, a) && s' == Apply(cfg, s, a) && !a.Handle?
    ensures s'.responses == s.responses + NewAnswer(s, a)
  {
    NoTail(s.responses);
  }

  /** In every run the answers the handler has taken, followed by those in the queue, are the server's answers to
      all users, in the order in which they came. */
  lemma {:induction false} AnswersInOrder(cfg: Config, tr: seq<State>, acts: seq<Action>, i: nat)
    requires IsRun(cfg, tr, acts) && i < |tr|
    ensures Taken(tr, acts, i) + tr[i].responses == Answers(tr, acts, i)
  {
    if i > 0 {
      var answers, added := Answers(tr, acts, i - 1), NewAnswer(tr[i - 1], acts[i - 1]);
      AnswersInOrder(cfg, tr, acts, i - 1);
      RunStep(cfg, tr, acts, i);
      AnswerStep(cfg, tr[i - 1], acts[i - 1], tr[i]);
      NoHead(answers);
      NoHead(answers + added);
      QueueMoves(Taken(tr, acts, i - 1), NewTaken(tr[i - 1], tr[i], acts[i - 1]), tr[i].responses,
                 tr[i - 1].responses, added, [], answers);
    }
  }

  // ---------------------------------------------------------------- the end

  ghost predicate StopBefore(acts: seq<Action>, i: nat)
    requires i <= |acts|
  {
    exists l :: 0 <= l < i && acts[l].Stop?
  }

  lemma {:induction false} StoppedExactlyWhen(cfg: Config, tr: seq<State>, acts: seq<Action>, i: nat)
    requires IsRun(cfg, tr, acts) && i < |tr|
    ensures tr[i].stopped <==> StopBefore(acts, i)
  {
    if i > 0 {
      StoppedExactlyWhen(cfg, tr, acts, i - 1);
      assert StepAt(cfg, tr, acts, i - 1);
    }
  }

  ghost predicate LeavesAt(acts: seq<Action>, m: nat)
    requires m < |acts|
  {
    acts[m].Decide? && StopBefore(acts, m)
  }

  /** In every run the handler has left exactly when it has looked, after a timeout, behind the sender's end. */
  lemma {:induction false} HandlerLeavesExactlyWhen(cfg: Config, tr: seq<State>, acts: seq<Action>, i: nat)
    requires IsRun(cfg, tr, acts) && i < |tr|
    ensures tr[i].handler.Exited? <==> exists m :: 0 <= m < i && LeavesAt(acts, m)
  {
    if i > 0 {
      HandlerLeavesExactlyWhen(cfg, tr, acts, i - 1);
      StoppedExactlyWhen(cfg, tr, acts, i - 1);
      assert StepAt(cfg, tr, acts, i - 1);
      ExitStep(cfg, tr[i - 1], acts[i - 1], tr[i]);
      assert tr[i].handler.Exited? <==> tr[i - 1].handler.Exited? || LeavesAt(acts, i - 1);
    }
  }

  lemma ExitStep(cfg: Config, s: State, a: Action, s': State)
    requires Enabled(cfg, s, a) && s' == Apply(cfg, s, a)
    ensures s'.handler.Exited? <==> s.handler.Exited? || (a.Decide? && s.stopped)
  {
  }
}
