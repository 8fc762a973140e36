/** What the mixed workload of bench_mix.py does with texts, tokens and times over whole runs. */
module MixedRuns {
  import opened Collections
  import opened MixedWorkload

  // ---------------------------------------------------------------- answers

  /** The server's latest answer to user `u` during the first `i` steps. */
  ghost function LatestReply(tr: seq<State>, acts: seq<Action>, i: nat, u: nat): seq<Reply>
    requires i <= |acts| && |tr| == |acts| + 1
  {
    if i == 0 then []
    else
      match acts[i - 1]
      case Finish(k, r) =>
        if k < |tr[i - 1].tasks| && tr[i - 1].tasks[k].0 == u then [r] else LatestReply(tr, acts, i - 1, u)
      case _ => LatestReply(tr, acts, i - 1, u)
  }

  /** In every run an answer waiting in the queue is the latest one its user was given. */
  lemma {:induction false} QueuedAnswersAreLatest(cfg: Config, tr: seq<State>, acts: seq<Action>, i: nat, k: nat)
    requires IsRun(cfg, tr, acts) && i < |tr| && k < |tr[i].responses|
    ensures LatestReply(tr, acts, i, tr[i].responses[k].0) == [tr[i].responses[k].1]
    decreases i
  {
    var s, a, s' := tr[i - 1], acts[i - 1], tr[i];
    assert StepAt(cfg, tr, acts, i - 1);
    assert s' == Apply(cfg, s, a);
    if a.Handle? {
      QueuedAnswersAreLatest(cfg, tr, acts, i - 1, k + 1);
    } else if k < |s.responses| {
      QueuedAnswersAreLatest(cfg, tr, acts, i - 1, k);
      if a.Finish? {
        RunInv(cfg, tr, acts, i - 1);
        AnsweredOnce(s, k, a.task);
      }
    }
  }

  lemma AnsweredOnce(s: State, k: nat, j: nat)
    requires Partition(s) && k < |s.responses| && j < |s.tasks|
    ensures s.responses[k].0 != s.tasks[j].0
  {
    CountMember(s.responses, k);
    CountMember(s.tasks, j);
    assert Places(s, s.responses[k].0) <= 1;
  }

  /** A request carries its user's whole prompt for as long as it is in flight. */
  ghost predicate Carried(s: State) {
    forall k :: 0 <= k < |s.tasks| ==> s.tasks[k].0 < |s.users| && s.tasks[k].1 == s.users[s.tasks[k].0].prompt
  }

  lemma CarriedStep(cfg: Config, s: State, a: Action)
    requires Inv(cfg, s) && Carried(s) && Enabled(cfg, s, a)
    ensures Carried(Apply(cfg, s, a))
  {
    if a.Handle? {
      HeadOfQueue(s);
      forall k | 0 <= k < |s.tasks| ensures s.tasks[k].0 != s.responses[0].0 { CountMember(s.tasks, k); }
      HandleCarries(cfg, s, a.draw, a.now);
    }
  }

  lemma HandleCarries(cfg: Config, s: State, d: Draw, now: real)
    requires Carried(s) && Enabled(cfg, s, Handle(d, now))
    requires forall k :: 0 <= k < |s.tasks| ==> s.tasks[k].0 != s.responses[0].0
    ensures Carried(ApplyHandle(cfg, s, d, now))
  {
  }

  lemma {:induction false} RequestsCarryPrompts(cfg: Config, tr: seq<State>, acts: seq<Action>, i: nat)
    requires IsRun(cfg, tr, acts) && i < |tr|
    ensures Carried(tr[i])
  {
    if i > 0 {
      RequestsCarryPrompts(cfg, tr, acts, i - 1);
      RunInv(cfg, tr, acts, i - 1);
      assert StepAt(cfg, tr, acts, i - 1);
      CarriedStep(cfg, tr[i - 1], acts[i - 1]);
    }
  }

  /** A user that is queued again has its old prompt, the server's latest answer to it and the drawn
      text as its new prompt, is in the next round, and, if intervals are positive, starts later than
      now. */
  lemma NextPrompt(cfg: Config, tr: seq<State>, acts: seq<Action>, i: nat)
    requires IsRun(cfg, tr, acts) && i < |acts| && acts[i].Handle?
    ensures tr[i].responses != []
    ensures var u, s, s' := tr[i].responses[0].0, tr[i], tr[i + 1];
      && u < |s.users| == |s'.users| && |LatestReply(tr, acts, i, u)| == 1
      && (Count(s'.queue, u) == 1 ==>
        && LatestReply(tr, acts, i, u)[0].success
        && s'.users[u].prompt == s.users[u].prompt + (LatestReply(tr, acts, i, u)[0].text + acts[i].draw.prompt)
        && s'.users[u].current == s.users[u].current + 1 < s'.users[u].total == s.users[u].total
        && ((forall r :: 0 <= r < cfg.rounds ==> cfg.meanInterval[r] > 0.0) ==> s'.users[u].start > acts[i].now))
  {
    RunInv(cfg, tr, acts, i);
    assert StepAt(cfg, tr, acts, i);
    QueuedAnswersAreLatest(cfg, tr, acts, i, 0);
    HeadOfQueue(tr[i]);
    assert tr[i + 1] == ApplyHandle(cfg, tr[i], acts[i].draw, acts[i].now);
  }

  // ---------------------------------------------------------------- requested tokens

  /** With positive means, no user of any run asks for zero or fewer tokens, whatever is drawn. */
  lemma {:induction false} ReturnTokensPositive(cfg: Config, tr: seq<State>, acts: seq<Action>, i: nat, u: nat)
    requires IsRun(cfg, tr, acts) && i < |tr| && u < |tr[i].users|
    requires forall r :: 0 <= r < cfg.rounds ==> cfg.meanReturn[r] > 0
    ensures tr[i].users[u].returnTokens > 0
    decreases i
  {
    var s, a := tr[i - 1], acts[i - 1];
    assert StepAt(cfg, tr, acts, i - 1);
    assert tr[i] == Apply(cfg, s, a);
    if u < |s.users| {
      ReturnTokensPositive(cfg, tr, acts, i - 1, u);
    }
  }
}
