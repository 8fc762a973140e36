/** The conversations of the asyncio benchmark as whole runs see them: questions as configured, answers
    as the server gave them, in order, and output lengths as the server reported them. */
module AsyncServingTranscript {
  import opened Collections
  import opened AsyncServing

  /** The answer a step brings to conversation `c`, if any, with its reported length. */
  function NewReply(s: State, a: Action, c: nat): seq<(string, nat)> {
    match a
    case Succeed(k, reply, outputLen) => if k < |s.running| && s.running[k].0 == c then [(reply, outputLen)] else []
    case _ => []
  }

  /** The answers to conversation `c` during the first `i` steps. */
  ghost function Replies(tr: seq<State>, acts: seq<Action>, i: nat, c: nat): seq<(string, nat)>
    requires i <= |acts| && |tr| == |acts| + 1
  {
    if i == 0 then [] else Replies(tr, acts, i - 1, c) + NewReply(tr[i - 1], acts[i - 1], c)
  }

  /** The conversation with the first `|replies|` turns answered. */
  ghost predicate Recorded(conv: Conversation, replies: seq<(string, nat)>) {
    && |replies| <= |conv.turns| && 2 * |replies| <= |conv.messages| <= 2 * |replies| + 1
    && (forall j :: 0 <= j < |replies| ==> conv.messages[2 * j + 1] == Assistant(replies[j].0))
    && (forall j :: 0 <= j < |replies| ==> conv.turns[j].outputLen == replies[j].1)
  }

  ghost predicate Ok(s: State, c: nat, replies: seq<(string, nat)>) {
    c < |s.convs| && Recorded(s.convs[c], replies) && (c !in s.failed ==> |replies| == Answered(s, c))
  }

  lemma StartReplies(cfg: Config, s: State, k: nat, c: nat, replies: seq<(string, nat)>)
    requires Inv(cfg, s) && Ok(s, c, replies) && Enabled(cfg, s, Start(k))
    ensures Ok(Apply(cfg, s, Start(k)), c, replies)
  {
    if s.waiting[k].0 == c {
      CountMember(s.waiting, k);
      assert Places(s, c) == 1;
      assert ConvOk(cfg, s, c);
      StartOwnReplies(s, k, replies);
    } else {
      StartOtherReplies(s, k, c, replies);
    }
  }

  lemma StartOtherReplies(s: State, k: nat, c: nat, replies: seq<(string, nat)>)
    requires Ok(s, c, replies) && k < |s.waiting| && s.waiting[k].0 < |s.convs| && s.waiting[k].0 != c
    ensures Ok(ApplyStart(s, k), c, replies)
  {
    CountRemove(s.waiting, k, c);
    CountSnoc(s.running, s.waiting[k], c);
  }

  lemma StartOwnReplies(s: State, k: nat, replies: seq<(string, nat)>)
    requires k < |s.waiting| && s.waiting[k].0 < |s.convs| && Ok(s, s.waiting[k].0, replies)
    requires s.waiting[k].0 !in s.failed && |s.convs[s.waiting[k].0].messages| == 2 * |replies|
    ensures Ok(ApplyStart(s, k), s.waiting[k].0, replies)
  {
    var c := s.waiting[k].0;
    CountRemove(s.waiting, k, c);
    CountSnoc(s.running, s.waiting[k], c);
    if s.waiting[k].1 < |s.convs[c].turns| {
      QuestionRecorded(s.convs[c], replies, User(s.convs[c].turns[s.waiting[k].1].content));
    }
  }

  lemma QuestionRecorded(conv: Conversation, replies: seq<(string, nat)>, m: Message)
    requires Recorded(conv, replies) && |conv.messages| == 2 * |replies|
    ensures Recorded(conv.(messages := conv.messages + [m]), replies)
  {
  }

  lemma AnswerRecorded(conv: Conversation, replies: seq<(string, nat)>, x: (string, nat))
    requires Recorded(conv, replies) && |conv.messages| == 2 * |replies| + 1 && |replies| < |conv.turns|
    ensures var t := |replies|;
      Recorded(Conversation(conv.turns[t := conv.turns[t].(outputLen := x.1)], conv.messages + [Assistant(x.0)]),
               replies + [x])
  {
  }

  lemma SucceedReplies(cfg: Config, s: State, k: nat, x: (string, nat), c: nat, replies: seq<(string, nat)>)
    requires Inv(cfg, s) && Ok(s, c, replies) && Enabled(cfg, s, Succeed(k, x.0, x.1))
    ensures Ok(ApplySucceed(s, k, x.0, x.1), c, replies + NewReply(s, Succeed(k, x.0, x.1), c))
  {
    if s.running[k].0 == c {
      SucceedOwnReply(cfg, s, k, x, c, replies);
    } else {
      assert replies + [] == replies;
      SucceedOther(s, k, x.0, x.1, c);
    }
  }

  lemma SucceedOwnReply(cfg: Config, s: State, k: nat, x: (string, nat), c: nat, replies: seq<(string, nat)>)
    requires Inv(cfg, s) && Ok(s, c, replies) && Enabled(cfg, s, Succeed(k, x.0, x.1)) && s.running[k].0 == c
    ensures Ok(ApplySucceed(s, k, x.0, x.1), c, replies + [x])
  {
    CountRemove(s.running, k, c);
    CountMember(s.running, k);
    assert Places(s, c) == 1;
    assert ConvOk(cfg, s, c);
    assert s.running[k].1 == Count(s.issued, c) - 1 == |replies|;
    AnswerRecorded(s.convs[c], replies, x);
  }

  lemma StepReplies(cfg: Config, s: State, a: Action, c: nat, replies: seq<(string, nat)>)
    requires Inv(cfg, s) && Ok(s, c, replies) && Enabled(cfg, s, a)
    ensures Ok(Apply(cfg, s, a), c, replies + NewReply(s, a, c))
  {
    assert replies + [] == replies;
    match a
    case Yield =>
      CountSnoc(s.waiting, s.queue[0], c);
      CountSnoc(s.issued, s.queue[0], c);
    case GiveUp =>
    case Start(k) => StartReplies(cfg, s, k, c, replies);
    case Succeed(k, reply, outputLen) => SucceedReplies(cfg, s, k, (reply, outputLen), c, replies);
    case Fail(k) => CountRemove(s.running, k, c);
  }

  lemma InitReplies(cfg: Config, c: nat)
    requires c < |cfg.requests|
    ensures Ok(Init(cfg), c, [])
  {
  }

  lemma {:induction false} RunReplies(cfg: Config, tr: seq<State>, acts: seq<Action>, i: nat, c: nat)
    requires IsRun(cfg, tr, acts) && i < |tr| && c < |cfg.requests|
    ensures Ok(tr[i], c, Replies(tr, acts, i, c))
  {
    if i == 0 {
      InitReplies(cfg, c);
    } else {
      RunReplies(cfg, tr, acts, i - 1, c);
      RunInv(cfg, tr, acts, i - 1);
      StepReplies(cfg, tr[i - 1], acts[i - 1], c, Replies(tr, acts, i - 1, c));
    }
  }

  /** In every run a conversation that has not failed holds exactly its first questions, each followed
      by the server's answer to it, then at most one open question; answered turns carry the length the
      server reported and all others the configured one. */
  lemma ConversationIsTranscript(cfg: Config, tr: seq<State>, acts: seq<Action>, i: nat, c: nat)
    requires IsRun(cfg, tr, acts) && i < |tr| && c < |cfg.requests| == |tr[i].convs| && c !in tr[i].failed
    ensures var conv, replies, req := tr[i].convs[c], Replies(tr, acts, i, c), cfg.requests[c];
      && Recorded(conv, replies) && |conv.turns| == |req|
      && |conv.messages| == 2 * |replies| + Count(tr[i].running, c)
      && (forall j :: 0 <= 2 * j < |conv.messages| ==> j < |req| && conv.messages[2 * j] == User(req[j].content))
      && (forall j :: 0 <= j < |req| ==>
           conv.turns[j] == req[j].(outputLen := if j < |replies| then replies[j].1 else req[j].outputLen))
  {
    RunReplies(cfg, tr, acts, i, c);
    RunInv(cfg, tr, acts, i);
    assert Places(tr[i], c) == 1;
    assert ConvOk(cfg, tr[i], c);
  }
}
