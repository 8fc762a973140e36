/** What every user of the mixed workload says over a whole run, and what the token statistics add up to:
    prompts and statistics against the server's answers and the random draws alone. */
module MixedTranscript {
  import opened Collections
  import opened MixedWorkload

  // ---------------------------------------------------------------- the history of one user

  /** The answer a step brings for user `u`, if any. */
  function NewReply(s: State, a: Action, u: nat): seq<Reply> {
    match a
    case Finish(k, r) => if k < |s.tasks| && s.tasks[k].0 == u then [r] else []
    case _ => []
  }

  /** The draw of a step that creates user `u` or queues it again, if it does. */
  function NewDraw(s: State, s': State, a: Action, u: nat): seq<Draw> {
    match a
    case Send(d, _) => if |s.users| <= u < |s'.users| then [d] else []
    case Handle(d, _) => if Count(s.queue, u) < Count(s'.queue, u) then [d] else []
    case _ => []
  }

  /** The prompt a step sends for user `u`, if any. */
  function NewPrompt(s': State, a: Action, u: nat): seq<string> {
    if a.Send? && s'.tasks != [] && Last(s'.tasks).0 == u then [Last(s'.tasks).1] else []
  }

  /** The server's answers to user `u` during the first `i` steps, good and bad. */
  ghost function RepliesTo(tr: seq<State>, acts: seq<Action>, i: nat, u: nat): seq<Reply>
    requires i <= |acts| && |tr| == |acts| + 1
  {
    if i == 0 then [] else RepliesTo(tr, acts, i - 1, u) + NewReply(tr[i - 1], acts[i - 1], u)
  }

  /** The draws made for user `u` during the first `i` steps. */
  ghost function DrawsFor(tr: seq<State>, acts: seq<Action>, i: nat, u: nat): seq<Draw>
    requires i <= |acts| && |tr| == |acts| + 1
  {
    if i == 0 then [] else DrawsFor(tr, acts, i - 1, u) + NewDraw(tr[i - 1], tr[i], acts[i - 1], u)
  }

  /** The prompts user `u` has sent during the first `i` steps. */
  ghost function PromptsOf(tr: seq<State>, acts: seq<Action>, i: nat, u: nat): seq<string>
    requires i <= |acts| && |tr| == |acts| + 1
  {
    if i == 0 then [] else PromptsOf(tr, acts, i - 1, u) + NewPrompt(tr[i], acts[i - 1], u)
  }

  /** Number and first drawn text, then answers and drawn texts in turn. */
  function Story(u: nat, replies: seq<Reply>, draws: seq<Draw>): string
    requires |draws| == |replies| + 1
  {
    if replies == [] then Decimal(u) + " " + draws[0].prompt
    else
      var n := |replies| - 1;
      Story(u, replies[..n], draws[..n + 1]) + (replies[n].text + draws[n + 1].prompt)
  }

  lemma StorySnoc(u: nat, replies: seq<Reply>, draws: seq<Draw>, r: Reply, d: Draw)
    requires |draws| == |replies| + 1
    ensures Story(u, replies + [r], draws + [d]) == Story(u, replies, draws) + (r.text + d.prompt)
  {
    assert (replies + [r])[..|replies|] == replies && (draws + [d])[..|draws|] == draws;
  }

  // ---------------------------------------------------------------- what has been said

  ghost predicate Said(u: nat, prompt: string, replies: seq<Reply>, draws: seq<Draw>, j: nat) {
    j <= |replies| && j < |draws| && prompt == Story(u, replies[..j], draws[..j + 1])
  }

  /** The prompts sent are the stories up to their round. */
  ghost predicate Spoken(u: nat, prompts: seq<string>, replies: seq<Reply>, draws: seq<Draw>) {
    forall j :: 0 <= j < |prompts| ==> Said(u, prompts[j], replies, draws, j)
  }

  lemma PrefixOfConcat<T>(a: seq<T>, b: seq<T>, j: nat)
    requires j <= |a|
    ensures (a + b)[..j] == a[..j]
  {
  }

  lemma NoTail<T>(a: seq<T>)
    ensures a + [] == a && a[..|a|] == a
  {
  }

  lemma SpokenMore(u: nat, prompts: seq<string>, replies: seq<Reply>, draws: seq<Draw>,
                   more: seq<Reply>, drawn: seq<Draw>)
    requires Spoken(u, prompts, replies, draws)
    ensures Spoken(u, prompts, replies + more, draws + drawn)
  {
    forall j | 0 <= j < |prompts| ensures Said(u, prompts[j], replies + more, draws + drawn, j) {
      assert Said(u, prompts[j], replies, draws, j);
      PrefixOfConcat(replies, more, j);
      PrefixOfConcat(draws, drawn, j + 1);
    }
  }

  /** Answers of user `u` that it has not been moved on for: queued, or failed. */
  function OnTheWay(s: State, u: nat): nat {
    Count(s.responses, u) + One(u in s.lost)
  }

  /** Queue entries of user `u` carry its latest answer. */
  ghost predicate Delivered(s: State, u: nat, replies: seq<Reply>) {
    forall k :: 0 <= k < |s.responses| && s.responses[k].0 == u ==> replies != [] && s.responses[k].1 == Last(replies)
  }

  /** The record of user `u` against its answers, draws and prompts. */
  ghost predicate Told(s: State, u: nat, prompts: seq<string>, replies: seq<Reply>, draws: seq<Draw>)
    requires u < |s.users|
  {
    var user := s.users[u];
    && |draws| + One(u in s.finished) == user.current + 1 && draws != []
    && |replies| == user.current + OnTheWay(s, u)
    && |prompts| == user.current + OnTheWay(s, u) + Count(s.tasks, u) + One(u in s.dropped)
    && user.prompt == Story(u, replies[..|draws| - 1], draws)
    && Spoken(u, prompts, replies, draws)
    && (forall j :: 0 <= j < user.current ==> replies[j].success)
    && (u in s.lost ==> !Last(replies).success)
    && Delivered(s, u, replies)
  }

  ghost predicate Ok(s: State, u: nat, prompts: seq<string>, replies: seq<Reply>, draws: seq<Draw>) {
    if u < |s.users| then Told(s, u, prompts, replies, draws) else prompts == [] && replies == [] && draws == []
  }

  // ---------------------------------------------------------------- the steps

  /** A step that does not concern user `u`. */
  lemma Unconcerned(s: State, s': State, u: nat, prompts: seq<string>, replies: seq<Reply>, draws: seq<Draw>)
    requires Ok(s, u, prompts, replies, draws) && (u < |s'.users| <==> u < |s.users|)
    requires u < |s.users| ==> s'.users[u] == s.users[u]
    requires OnTheWay(s', u) == OnTheWay(s, u) && (u in s'.lost <==> u in s.lost)
    requires Count(s'.tasks, u) + One(u in s'.dropped) == Count(s.tasks, u) + One(u in s.dropped)
    requires u in s'.finished <==> u in s.finished
    requires u < |s.users| ==> Delivered(s', u, replies)
    ensures Ok(s', u, prompts, replies, draws)
  {
  }

  /** A queued user sends its prompt. */
  lemma Sends(s: State, s': State, u: nat, prompts: seq<string>, replies: seq<Reply>, draws: seq<Draw>)
    requires u < |s.users| && Told(s, u, prompts, replies, draws)
    requires u !in s.finished && u !in s.dropped && OnTheWay(s, u) == 0 && Count(s.tasks, u) == 0
    requires s'.users == s.users && s'.responses == s.responses && s'.lost == s.lost
    requires s'.finished == s.finished && s'.dropped == s.dropped && Count(s'.tasks, u) == 1
    ensures Told(s', u, prompts + [s.users[u].prompt], replies, draws)
  {
    NoTail(replies);
    NoTail(draws);
    assert Said(u, s.users[u].prompt, replies, draws, |prompts|);
  }

  lemma SendDue(cfg: Config, s: State, d: Draw, now: real, u: nat,
                prompts: seq<string>, replies: seq<Reply>, draws: seq<Draw>)
    requires Partition(s) && Ok(s, u, prompts, replies, draws) && Enabled(cfg, s, Send(d, now)) && Due(s.queue, now)
    ensures var s' := ApplySend(cfg, s, d, now);
      Ok(s', u, prompts + NewPrompt(s', Send(d, now), u), replies, draws)
  {
    var s', h := ApplySend(cfg, s, d, now), s.queue[0].0;
    CountSnoc(s.tasks, (h, s.users[h].prompt), u);
    if u == h {
      CountMember(s.queue, 0);
      assert Places(s, u) == One(u < |s.users|);
      Sends(s, s', u, prompts, replies, draws);
    } else {
      NoTail(prompts);
      Unconcerned(s, s', u, prompts, replies, draws);
    }
  }

  lemma FirstStory(cfg: Config, u: nat, d: Draw)
    requires ValidConfig(cfg)
    ensures NewUser(cfg, u, d).prompt == Story(u, [], [d]) && NewUser(cfg, u, d).current == 0
  {
  }

  lemma NoHead<T>(a: seq<T>)
    ensures [] + a == a
  {
  }

  /** A new user sends its first prompt. */
  lemma Appears(s: State, s': State, user: User, d: Draw)
    requires Partition(s) && user.prompt == Story(|s.users|, [], [d]) && user.current == 0
    requires s'.users == s.users + [user] && s'.tasks == s.tasks + [(|s.users|, user.prompt)]
    requires s'.responses == s.responses && s'.lost == s.lost && s'.finished == s.finished && s'.dropped == s.dropped
    ensures Told(s', |s.users|, [user.prompt], [], [d])
  {
    var u := |s.users|;
    assert Places(s, u) == 0;
    CountSnoc(s.tasks, (u, user.prompt), u);
    assert Said(u, user.prompt, [], [d], 0);
    forall k | 0 <= k < |s.responses| ensures s.responses[k].0 != u {
      if s.responses[k].0 == u { CountMember(s.responses, k); }
    }
  }

  lemma SendNew(cfg: Config, s: State, d: Draw, now: real, u: nat,
                prompts: seq<string>, replies: seq<Reply>, draws: seq<Draw>)
    requires Partition(s) && Ok(s, u, prompts, replies, draws) && Enabled(cfg, s, Send(d, now)) && !Due(s.queue, now)
    ensures var s', a := ApplySend(cfg, s, d, now), Send(d, now);
      Ok(s', u, prompts + NewPrompt(s', a, u), replies, draws + NewDraw(s, s', a, u))
  {
    var user := NewUser(cfg, |s.users|, d);
    FirstStory(cfg, |s.users|, d);
    NewTold(s, ApplySend(cfg, s, d, now), user, d, now, u, prompts, replies, draws);
  }

  lemma NewTold(s: State, s': State, user: User, d: Draw, now: real, u: nat,
                prompts: seq<string>, replies: seq<Reply>, draws: seq<Draw>)
    requires Partition(s) && Ok(s, u, prompts, replies, draws)
    requires user.prompt == Story(|s.users|, [], [d]) && user.current == 0
    requires s'.users == s.users + [user] && s'.tasks == s.tasks + [(|s.users|, user.prompt)]
    requires s'.responses == s.responses && s'.lost == s.lost && s'.finished == s.finished && s'.dropped == s.dropped
    ensures Ok(s', u, prompts + NewPrompt(s', Send(d, now), u), replies, draws + NewDraw(s, s', Send(d, now), u))
  {
    if u == |s.users| {
      NoHead([user.prompt]);
      NoHead([d]);
      Appears(s, s', user, d);
    } else {
      NoTail(prompts);
      NoTail(draws);
      Aside(s, s', user, u, prompts, replies, draws);
    }
  }

  /** Another user appears. */
  lemma Aside(s: State, s': State, user: User, u: nat,
              prompts: seq<string>, replies: seq<Reply>, draws: seq<Draw>)
    requires Ok(s, u, prompts, replies, draws) && u != |s.users|
    requires s'.users == s.users + [user] && s'.tasks == s.tasks + [(|s.users|, user.prompt)]
    requires s'.responses == s.responses && s'.lost == s.lost && s'.finished == s.finished && s'.dropped == s.dropped
    ensures Ok(s', u, prompts, replies, draws)
  {
    CountSnoc(s.tasks, (|s.users|, user.prompt), u);
    Unconcerned(s, s', u, prompts, replies, draws);
  }

  lemma FinishTold(cfg: Config, s: State, k: nat, r: Reply, u: nat,
                   prompts: seq<string>, replies: seq<Reply>, draws: seq<Draw>)
    requires Partition(s) && Ok(s, u, prompts, replies, draws) && Enabled(cfg, s, Finish(k, r))
    ensures Ok(Apply(cfg, s, Finish(k, r)), u, prompts, replies + NewReply(s, Finish(k, r), u), draws)
  {
    if u == s.tasks[k].0 {
      FinishOwn(cfg, s, k, r, prompts, replies, draws);
    } else {
      NoTail(replies);
      FinishOther(cfg, s, k, r, u, prompts, replies, draws);
    }
  }

  lemma FinishOther(cfg: Config, s: State, k: nat, r: Reply, u: nat,
                    prompts: seq<string>, replies: seq<Reply>, draws: seq<Draw>)
    requires Ok(s, u, prompts, replies, draws) && Enabled(cfg, s, Finish(k, r)) && u != s.tasks[k].0
    ensures Ok(Apply(cfg, s, Finish(k, r)), u, prompts, replies, draws)
  {
    CountRemove(s.tasks, k, u);
    CountSnoc(s.responses, (s.tasks[k].0, r), u);
    Unconcerned(s, Apply(cfg, s, Finish(k, r)), u, prompts, replies, draws);
  }

  lemma FinishOwn(cfg: Config, s: State, k: nat, r: Reply,
                  prompts: seq<string>, replies: seq<Reply>, draws: seq<Draw>)
    requires Partition(s) && Enabled(cfg, s, Finish(k, r)) && Ok(s, s.tasks[k].0, prompts, replies, draws)
    ensures Ok(Apply(cfg, s, Finish(k, r)), s.tasks[k].0, prompts, replies + [r], draws)
  {
    var u := s.tasks[k].0;
    CountMember(s.tasks, k);
    assert Places(s, u) == One(u < |s.users|);
    CountRemove(s.tasks, k, u);
    CountSnoc(s.responses, (u, r), u);
    IsAnswered(s, Apply(cfg, s, Finish(k, r)), u, prompts, replies, draws, r);
  }

  /** A further answer does not change what has been said. */
  lemma IsAnswered(s: State, s': State, u: nat, prompts: seq<string>, replies: seq<Reply>, draws: seq<Draw>, r: Reply)
    requires u < |s.users| && Told(s, u, prompts, replies, draws) && u !in s.finished
    requires OnTheWay(s, u) == 0 && Count(s'.tasks, u) == Count(s.tasks, u) - 1 && OnTheWay(s', u) == 1
    requires s'.users == s.users && s'.responses == s.responses + [(u, r)] && s'.lost == s.lost
    requires s'.finished == s.finished && s'.dropped == s.dropped
    ensures Told(s', u, prompts, replies + [r], draws)
  {
    PrefixOfConcat(replies, [r], |draws| - 1);
    NoTail(draws);
    SpokenMore(u, prompts, replies, draws, [r], []);
    forall k | 0 <= k < |s.responses| ensures s.responses[k].0 != u {
      if s.responses[k].0 == u { CountMember(s.responses, k); }
    }
  }

  lemma RaiseTold(cfg: Config, s: State, k: nat, u: nat,
                  prompts: seq<string>, replies: seq<Reply>, draws: seq<Draw>)
    requires Partition(s) && Ok(s, u, prompts, replies, draws) && Enabled(cfg, s, Raise(k))
    ensures Ok(Apply(cfg, s, Raise(k)), u, prompts, replies, draws)
  {
    CountMember(s.tasks, k);
    assert Places(s, s.tasks[k].0) <= 1;
    CountRemove(s.tasks, k, u);
    Unconcerned(s, Apply(cfg, s, Raise(k)), u, prompts, replies, draws);
  }

  /** When a handled answer draws something for user `u`. */
  lemma HandleDraws(cfg: Config, s: State, d: Draw, now: real, u: nat)
    requires Enabled(cfg, s, Handle(d, now))
    ensures var h, user := s.responses[0], s.users[s.responses[0].0];
      NewDraw(s, ApplyHandle(cfg, s, d, now), Handle(d, now), u)
        == if h.1.success && h.0 == u && user.current + 1 < user.total then [d] else []
  {
    var h, user := s.responses[0], s.users[s.responses[0].0];
    if h.1.success && user.current + 1 < user.total {
      InsertedCounts(s.queue, (h.0, NextRound(cfg, user, h.1.text, d, now).start), u);
    }
  }

  lemma TailDelivered(s: State, s': State, u: nat, replies: seq<Reply>)
    requires Delivered(s, u, replies) && s.responses != [] && s'.responses == s.responses[1..]
    ensures Delivered(s', u, replies)
  {
    assert forall k :: 0 <= k < |s'.responses| ==> s'.responses[k] == s.responses[k + 1];
  }

  lemma HandleOther(cfg: Config, s: State, d: Draw, now: real, u: nat,
                    prompts: seq<string>, replies: seq<Reply>, draws: seq<Draw>)
    requires Ok(s, u, prompts, replies, draws) && Enabled(cfg, s, Handle(d, now)) && u != s.responses[0].0
    ensures Ok(ApplyHandle(cfg, s, d, now), u, prompts, replies, draws)
  {
    var s' := ApplyHandle(cfg, s, d, now);
    CountTail(s.responses, u);
    if u < |s.users| {
      TailDelivered(s, s', u, replies);
      Unconcerned(s, s', u, prompts, replies, draws);
    }
  }

  /** The user whose answer is taken: all it has is that answer, the latest one. */
  ghost predicate Takes(cfg: Config, s: State, d: Draw, now: real,
                        prompts: seq<string>, replies: seq<Reply>, draws: seq<Draw>) {
    && Enabled(cfg, s, Handle(d, now)) && Told(s, s.responses[0].0, prompts, replies, draws)
    && var u := s.responses[0].0;
      && u !in s.finished && u !in s.lost && u !in s.dropped && Count(s.tasks, u) == 0
      && Count(s.responses, u) == 1 && Count(s.responses[1..], u) == 0
      && replies != [] && Last(replies) == s.responses[0].1
      && Delivered(ApplyHandle(cfg, s, d, now), u, replies)
  }

  lemma TakesLatest(cfg: Config, s: State, d: Draw, now: real,
                    prompts: seq<string>, replies: seq<Reply>, draws: seq<Draw>)
    requires Partition(s) && Enabled(cfg, s, Handle(d, now)) && Ok(s, s.responses[0].0, prompts, replies, draws)
    ensures Takes(cfg, s, d, now, prompts, replies, draws)
  {
    HeadOfQueue(s);
    CountTail(s.responses, s.responses[0].0);
    TailDelivered(s, ApplyHandle(cfg, s, d, now), s.responses[0].0, replies);
  }

  /** A good answer before the last round: answer and drawn text are added to the prompt. */
  lemma GoesOn(cfg: Config, s: State, d: Draw, now: real,
               prompts: seq<string>, replies: seq<Reply>, draws: seq<Draw>)
    requires Takes(cfg, s, d, now, prompts, replies, draws) && s.responses[0].1.success
    requires var user := s.users[s.responses[0].0]; user.current + 1 < user.total
    ensures Told(ApplyHandle(cfg, s, d, now), s.responses[0].0, prompts, replies, draws + [d])
  {
    Continues(s, ApplyHandle(cfg, s, d, now), s.responses[0].0, prompts, replies, draws, d);
  }

  /** The next story is the last one with the latest answer and the draw. */
  lemma Continues(s: State, s': State, u: nat, prompts: seq<string>, replies: seq<Reply>, draws: seq<Draw>, d: Draw)
    requires u < |s.users| == |s'.users| && Told(s, u, prompts, replies, draws)
    requires u !in s.finished && u !in s'.finished && OnTheWay(s, u) == 1 && OnTheWay(s', u) == 0
    requires s'.users[u].current == s.users[u].current + 1 && Last(replies).success
    requires s'.users[u].prompt == s.users[u].prompt + (Last(replies).text + d.prompt)
    requires Count(s'.tasks, u) + One(u in s'.dropped) == Count(s.tasks, u) + One(u in s.dropped)
    requires Delivered(s', u, replies)
    ensures Told(s', u, prompts, replies, draws + [d])
  {
    var n := |replies| - 1;
    NoTail(replies);
    assert replies[..n] + [Last(replies)] == replies[..n + 1];
    StorySnoc(u, replies[..n], draws, Last(replies), d);
    SpokenMore(u, prompts, replies, draws, [], [d]);
  }

  /** A good answer in the last round leaves the prompt alone. */
  lemma Ends(cfg: Config, s: State, d: Draw, now: real,
             prompts: seq<string>, replies: seq<Reply>, draws: seq<Draw>)
    requires Takes(cfg, s, d, now, prompts, replies, draws) && s.responses[0].1.success
    requires var user := s.users[s.responses[0].0]; user.current + 1 >= user.total
    ensures Told(ApplyHandle(cfg, s, d, now), s.responses[0].0, prompts, replies, draws)
  {
  }

  lemma Loses(cfg: Config, s: State, d: Draw, now: real,
              prompts: seq<string>, replies: seq<Reply>, draws: seq<Draw>)
    requires Takes(cfg, s, d, now, prompts, replies, draws) && !s.responses[0].1.success
    ensures Told(ApplyHandle(cfg, s, d, now), s.responses[0].0, prompts, replies, draws)
  {
  }

  lemma HandleTold(cfg: Config, s: State, d: Draw, now: real, u: nat,
                   prompts: seq<string>, replies: seq<Reply>, draws: seq<Draw>)
    requires Partition(s) && Ok(s, u, prompts, replies, draws) && Enabled(cfg, s, Handle(d, now))
    ensures var s' := ApplyHandle(cfg, s, d, now);
      Ok(s', u, prompts, replies, draws + NewDraw(s, s', Handle(d, now), u))
  {
    HandleDraws(cfg, s, d, now, u);
    NoTail(draws);
    if u != s.responses[0].0 {
      HandleOther(cfg, s, d, now, u, prompts, replies, draws);
    } else {
      TakesLatest(cfg, s, d, now, prompts, replies, draws);
      if !s.responses[0].1.success {
        Loses(cfg, s, d, now, prompts, replies, draws);
      } else if s.users[u].current + 1 >= s.users[u].total {
        Ends(cfg, s, d, now, prompts, replies, draws);
      } else {
        GoesOn(cfg, s, d, now, prompts, replies, draws);
      }
    }
  }

  lemma StepTold(cfg: Config, s: State, a: Action, u: nat,
                 prompts: seq<string>, replies: seq<Reply>, draws: seq<Draw>)
    requires Partition(s) && Ok(s, u, prompts, replies, draws) && Enabled(cfg, s, a)
    ensures var s' := Apply(cfg, s, a);
      Ok(s', u, prompts + NewPrompt(s', a, u), replies + NewReply(s, a, u), draws + NewDraw(s, s', a, u))
  {
    if a.Send? {
      NoTail(replies);
      SendTold(cfg, s, a.draw, a.now, u, prompts, replies, draws);
    } else if a.Handle? {
      NoTail(prompts);
      NoTail(replies);
      HandleTold(cfg, s, a.draw, a.now, u, prompts, replies, draws);
    } else {
      NoTail(prompts);
      NoTail(draws);
      OtherTold(cfg, s, a, u, prompts, replies, draws);
    }
  }

  lemma SendTold(cfg: Config, s: State, d: Draw, now: real, u: nat,
                 prompts: seq<string>, replies: seq<Reply>, draws: seq<Draw>)
    requires Partition(s) && Ok(s, u, prompts, replies, draws) && Enabled(cfg, s, Send(d, now))
    ensures var s', a := ApplySend(cfg, s, d, now), Send(d, now);
      Ok(s', u, prompts + NewPrompt(s', a, u), replies, draws + NewDraw(s, s', a, u))
  {
    if Due(s.queue, now) {
      NoTail(draws);
      SendDue(cfg, s, d, now, u, prompts, replies, draws);
    } else {
      SendNew(cfg, s, d, now, u, prompts, replies, draws);
    }
  }

  lemma OtherTold(cfg: Config, s: State, a: Action, u: nat,
                  prompts: seq<string>, replies: seq<Reply>, draws: seq<Draw>)
    requires Partition(s) && Ok(s, u, prompts, replies, draws) && Enabled(cfg, s, a) && !a.Send? && !a.Handle?
    ensures Ok(Apply(cfg, s, a), u, prompts, replies + NewReply(s, a, u), draws)
  {
    if a.Finish? {
      FinishTold(cfg, s, a.task, a.reply, u, prompts, replies, draws);
    } else {
      NoTail(replies);
      if a.Raise? {
        RaiseTold(cfg, s, a.task, u, prompts, replies, draws);
      } else {
        Unconcerned(s, Apply(cfg, s, a), u, prompts, replies, draws);
      }
    }
  }

  lemma RunStep(cfg: Config, tr: seq<State>, acts: seq<Action>, i: nat)
    requires IsRun(cfg, tr, acts) && 0 < i < |tr|
    ensures Partition(tr[i - 1]) && Enabled(cfg, tr[i - 1], acts[i - 1])
    ensures tr[i] == Apply(cfg, tr[i - 1], acts[i - 1])
  {
    assert StepAt(cfg, tr, acts, i - 1);
    RunInv(cfg, tr, acts, i - 1);
  }

  lemma StepOfRun(cfg: Config, tr: seq<State>, acts: seq<Action>, i: nat, u: nat,
                  prompts: seq<string>, replies: seq<Reply>, draws: seq<Draw>)
    requires IsRun(cfg, tr, acts) && 0 < i < |tr| && Ok(tr[i - 1], u, prompts, replies, draws)
    ensures Ok(tr[i], u, prompts + NewPrompt(tr[i], acts[i - 1], u), replies + NewReply(tr[i - 1], acts[i - 1], u),
               draws + NewDraw(tr[i - 1], tr[i], acts[i - 1], u))
  {
    RunStep(cfg, tr, acts, i);
    StepTold(cfg, tr[i - 1], acts[i - 1], u, prompts, replies, draws);
  }

  /** In every run the prompt a user sends in round `j` is its number and first drawn text, followed by the
      first `j` answers the server gave it and the texts drawn for it, in turn; only good answers move it
      on, and it makes one draw per round. */
  lemma {:induction false} PromptsAreStories(cfg: Config, tr: seq<State>, acts: seq<Action>, i: nat, u: nat)
    requires IsRun(cfg, tr, acts) && i < |tr|
    ensures Ok(tr[i], u, PromptsOf(tr, acts, i, u), RepliesTo(tr, acts, i, u), DrawsFor(tr, acts, i, u))
  {
    if i > 0 {
      PromptsAreStories(cfg, tr, acts, i - 1, u);
      StepOfRun(cfg, tr, acts, i, u, PromptsOf(tr, acts, i - 1, u), RepliesTo(tr, acts, i - 1, u),
                DrawsFor(tr, acts, i - 1, u));
    }
  }

  // ---------------------------------------------------------------- tokens

  /** What the draws of one user add to the input of round `r`. */
  function InputShare(draws: seq<Draw>, r: nat): nat {
    if r < |draws| then draws[r].promptLen else 0
  }

  /** What the answers a user was moved on for add to the output of round `r`. */
  function OutputShare(replies: seq<Reply>, current: nat, r: nat): nat {
    if r < current && r < |replies| then replies[r].itl + 1 else 0
  }

  ghost function InputShares(tr: seq<State>, acts: seq<Action>, i: nat, r: nat): (xs: seq<nat>)
    requires i <= |acts| && |tr| == |acts| + 1
    ensures |xs| == |tr[i].users|
  {
    seq(|tr[i].users|, u requires 0 <= u < |tr[i].users| => InputShare(DrawsFor(tr, acts, i, u), r))
  }

  ghost function OutputShares(tr: seq<State>, acts: seq<Action>, i: nat, r: nat): (xs: seq<nat>)
    requires i <= |acts| && |tr| == |acts| + 1
    ensures |xs| == |tr[i].users|
  {
    seq(|tr[i].users|, u requires 0 <= u < |tr[i].users| =>
      OutputShare(RepliesTo(tr, acts, i, u), tr[i].users[u].current, r))
  }

  /** One entry, possibly a new one, has `x` more. */
  lemma RaisedSum(xs: seq<nat>, ys: seq<nat>, u: nat, x: nat)
    requires |xs| <= |ys| <= |xs| + 1 && (x > 0 ==> u < |ys|)
    requires forall k :: 0 <= k < |ys| ==>
      ys[k] == (if k < |xs| then xs[k] else 0) + if k == u then x else 0
    ensures Sum(ys) == Sum(xs) + x
  {
    if u < |xs| {
      SumUpdate(xs, u, xs[u] + x);
      assert ys[..|xs|] == xs[u := xs[u] + x];
    } else {
      assert ys[..|xs|] == xs;
    }
    if |ys| == |xs| {
      assert ys[..|xs|] == ys;
    }
  }

  /** The user whose tokens a step counts. */
  function Subject(s: State, a: Action): nat {
    if a.Handle? && s.responses != [] then s.responses[0].0 else |s.users|
  }

  /** The prompt tokens a step adds to round `r`. */
  function NewInput(s: State, a: Action, r: nat): nat {
    match a
    case Send(d, now) => if !Due(s.queue, now) && r == 0 then d.promptLen else 0
    case Handle(d, _) =>
      if s.responses != [] && s.responses[0].1.success && s.responses[0].0 < |s.users|
         && var u := s.users[s.responses[0].0]; u.current + 1 == r < u.total
      then d.promptLen else 0
    case _ => 0
  }

  /** The answer tokens a step adds to round `r`. */
  function NewOutput(s: State, a: Action, r: nat): nat {
    if a.Handle? && s.responses != [] && s.responses[0].1.success && s.responses[0].0 < |s.users|
       && s.users[s.responses[0].0].current == r
    then s.responses[0].1.itl + 1 else 0
  }

  ghost predicate Counted(s: State, s': State, r: nat, input: nat, output: nat)
    requires r < |s.inputStats| && r < |s.outputStats|
  {
    && |s'.inputStats| == |s.inputStats| && |s'.outputStats| == |s.outputStats|
    && s'.inputStats[r].tokens == s.inputStats[r].tokens + input
    && s'.outputStats[r].tokens == s.outputStats[r].tokens + output
  }

  lemma HandleTokens(cfg: Config, s: State, d: Draw, now: real, r: nat)
    requires ValidConfig(cfg) && |s.inputStats| == |s.outputStats| == cfg.rounds
    requires Enabled(cfg, s, Handle(d, now)) && r < cfg.rounds
    ensures Counted(s, ApplyHandle(cfg, s, d, now), r, NewInput(s, Handle(d, now), r), NewOutput(s, Handle(d, now), r))
  {
  }

  lemma TokenStep(cfg: Config, s: State, a: Action, r: nat)
    requires ValidConfig(cfg) && |s.inputStats| == |s.outputStats| == cfg.rounds
    requires Enabled(cfg, s, a) && r < cfg.rounds
    ensures Counted(s, Apply(cfg, s, a), r, NewInput(s, a, r), NewOutput(s, a, r))
  {
    if a.Handle? {
      HandleTokens(cfg, s, a.draw, a.now, r);
    }
  }

  /** What a step adds to a round is what it adds to the share of its subject. */
  lemma InputStep(cfg: Config, s: State, a: Action, s': State, u: nat, r: nat,
                  prompts: seq<string>, replies: seq<Reply>, draws: seq<Draw>)
    requires Partition(s) && Ok(s, u, prompts, replies, draws) && Enabled(cfg, s, a) && s' == Apply(cfg, s, a)
    ensures InputShare(draws + NewDraw(s, s', a, u), r)
      == InputShare(draws, r) + if u == Subject(s, a) then NewInput(s, a, r) else 0
    ensures u >= |s.users| ==> InputShare(draws, r) == 0
  {
    NoTail(draws);
    if a.Handle? {
      HeadOfQueue(s);
      HandleDraws(cfg, s, a.draw, a.now, u);
    }
  }

  /** Every round a user has completed has its answer, and an answer about to be taken is the next one. */
  ghost predicate Backed(s: State, u: nat, replies: seq<Reply>)
    requires u < |s.users|
  {
    && s.users[u].current <= |replies|
    && (s.responses != [] && s.responses[0].0 == u ==>
          |replies| == s.users[u].current + 1 && s.responses[0].1 == Last(replies))
  }

  lemma ToldBacked(s: State, u: nat, prompts: seq<string>, replies: seq<Reply>, draws: seq<Draw>)
    requires Partition(s) && u < |s.users| && Told(s, u, prompts, replies, draws)
    ensures Backed(s, u, replies)
  {
    if s.responses != [] && s.responses[0].0 == u {
      HeadOfQueue(s);
    }
  }

  lemma OutputStep(cfg: Config, s: State, a: Action, s': State, u: nat, r: nat, replies: seq<Reply>)
    requires u < |s.users| && Backed(s, u, replies) && Enabled(cfg, s, a) && s' == Apply(cfg, s, a)
    ensures u < |s'.users|
    ensures OutputShare(replies + NewReply(s, a, u), s'.users[u].current, r)
      == OutputShare(replies, s.users[u].current, r) + if u == Subject(s, a) then NewOutput(s, a, r) else 0
  {
    NoTail(replies);
  }

  lemma InputAt(cfg: Config, tr: seq<State>, acts: seq<Action>, i: nat, r: nat, u: nat)
    requires IsRun(cfg, tr, acts) && 0 < i < |tr|
    ensures var s, a := tr[i - 1], acts[i - 1];
      && InputShare(DrawsFor(tr, acts, i, u), r)
           == InputShare(DrawsFor(tr, acts, i - 1, u), r) + (if u == Subject(s, a) then NewInput(s, a, r) else 0)
      && (u >= |s.users| ==> InputShare(DrawsFor(tr, acts, i - 1, u), r) == 0)
  {
    PromptsAreStories(cfg, tr, acts, i - 1, u);
    RunStep(cfg, tr, acts, i);
    InputStep(cfg, tr[i - 1], acts[i - 1], tr[i], u, r, PromptsOf(tr, acts, i - 1, u), RepliesTo(tr, acts, i - 1, u),
              DrawsFor(tr, acts, i - 1, u));
  }

  lemma RepliesBack(cfg: Config, tr: seq<State>, acts: seq<Action>, i: nat, u: nat)
    requires IsRun(cfg, tr, acts) && i < |tr| && u < |tr[i].users|
    ensures Backed(tr[i], u, RepliesTo(tr, acts, i, u))
  {
    PromptsAreStories(cfg, tr, acts, i, u);
    RunInv(cfg, tr, acts, i);
    ToldBacked(tr[i], u, PromptsOf(tr, acts, i, u), RepliesTo(tr, acts, i, u), DrawsFor(tr, acts, i, u));
  }

  lemma OutputOld(cfg: Config, tr: seq<State>, acts: seq<Action>, i: nat, r: nat, u: nat)
    requires IsRun(cfg, tr, acts) && 0 < i < |tr| && u < |tr[i - 1].users|
    ensures var s, a := tr[i - 1], acts[i - 1];
      && u < |tr[i].users|
      && OutputShare(RepliesTo(tr, acts, i, u), tr[i].users[u].current, r)
           == OutputShare(RepliesTo(tr, acts, i - 1, u), s.users[u].current, r)
              + if u == Subject(s, a) then NewOutput(s, a, r) else 0
  {
    RepliesBack(cfg, tr, acts, i - 1, u);
    RunStep(cfg, tr, acts, i);
    OutputStep(cfg, tr[i - 1], acts[i - 1], tr[i], u, r, RepliesTo(tr, acts, i - 1, u));
  }

  /** A new user has completed nothing, and the step that adds it handles no answer. */
  lemma OutputNew(cfg: Config, s: State, a: Action, u: nat, r: nat)
    requires Enabled(cfg, s, a) && |s.users| <= u < |Apply(cfg, s, a).users|
    ensures Apply(cfg, s, a).users[u].current == 0 && NewOutput(s, a, r) == 0
  {
  }

  lemma OutputAt(cfg: Config, tr: seq<State>, acts: seq<Action>, i: nat, r: nat, u: nat)
    requires IsRun(cfg, tr, acts) && 0 < i < |tr| && u < |tr[i].users|
    ensures var s, a := tr[i - 1], acts[i - 1];
      OutputShares(tr, acts, i, r)[u]
        == (if u < |s.users| then OutputShares(tr, acts, i - 1, r)[u] else 0)
           + if u == Subject(s, a) then NewOutput(s, a, r) else 0
  {
    if u < |tr[i - 1].users| {
      OutputOld(cfg, tr, acts, i, r, u);
    } else {
      RunStep(cfg, tr, acts, i);
      OutputNew(cfg, tr[i - 1], acts[i - 1], u, r);
    }
  }

  /** At most one user is added, and a step that adds tokens has one of the users as its subject. */
  lemma SubjectExists(cfg: Config, s: State, a: Action, r: nat)
    requires Enabled(cfg, s, a)
    ensures |s.users| <= |Apply(cfg, s, a).users| <= |s.users| + 1
    ensures NewInput(s, a, r) + NewOutput(s, a, r) > 0 ==> Subject(s, a) < |Apply(cfg, s, a).users|
  {
  }

  lemma InputSums(cfg: Config, tr: seq<State>, acts: seq<Action>, i: nat, r: nat)
    requires IsRun(cfg, tr, acts) && 0 < i < |tr|
    ensures Sum(InputShares(tr, acts, i, r))
      == Sum(InputShares(tr, acts, i - 1, r)) + NewInput(tr[i - 1], acts[i - 1], r)
  {
    var xs, ys := InputShares(tr, acts, i - 1, r), InputShares(tr, acts, i, r);
    var u, x := Subject(tr[i - 1], acts[i - 1]), NewInput(tr[i - 1], acts[i - 1], r);
    RunStep(cfg, tr, acts, i);
    SubjectExists(cfg, tr[i - 1], acts[i - 1], r);
    forall k | 0 <= k < |ys| ensures ys[k] == (if k < |xs| then xs[k] else 0) + if k == u then x else 0 {
      InputAt(cfg, tr, acts, i, r, k);
    }
    RaisedSum(xs, ys, u, x);
  }

  lemma OutputSums(cfg: Config, tr: seq<State>, acts: seq<Action>, i: nat, r: nat)
    requires IsRun(cfg, tr, acts) && 0 < i < |tr|
    ensures Sum(OutputShares(tr, acts, i, r))
      == Sum(OutputShares(tr, acts, i - 1, r)) + NewOutput(tr[i - 1], acts[i - 1], r)
  {
    var xs, ys := OutputShares(tr, acts, i - 1, r), OutputShares(tr, acts, i, r);
    var u, x := Subject(tr[i - 1], acts[i - 1]), NewOutput(tr[i - 1], acts[i - 1], r);
    RunStep(cfg, tr, acts, i);
    SubjectExists(cfg, tr[i - 1], acts[i - 1], r);
    forall k | 0 <= k < |ys| ensures ys[k] == (if k < |xs| then xs[k] else 0) + if k == u then x else 0 {
      OutputAt(cfg, tr, acts, i, r, k);
    }
    RaisedSum(xs, ys, u, x);
  }

  /** In every run the token statistics of a round are sums over the users: the lengths of their draws
      for that round, and the tokens of the answers that took them through it. */
  lemma {:induction false} RunTokens(cfg: Config, tr: seq<State>, acts: seq<Action>, i: nat, r: nat)
    requires IsRun(cfg, tr, acts) && i < |tr| && r < cfg.rounds
    ensures |tr[i].inputStats| == |tr[i].outputStats| == cfg.rounds
    ensures tr[i].inputStats[r].tokens == Sum(InputShares(tr, acts, i, r))
    ensures tr[i].outputStats[r].tokens == Sum(OutputShares(tr, acts, i, r))
  {
    if i > 0 {
      var s, a := tr[i - 1], acts[i - 1];
      RunTokens(cfg, tr, acts, i - 1, r);
      RunStep(cfg, tr, acts, i);
      RunInv(cfg, tr, acts, i - 1);
      TokenStep(cfg, s, a, r);
      InputSums(cfg, tr, acts, i, r);
      OutputSums(cfg, tr, acts, i, r);
    }
  }
}
