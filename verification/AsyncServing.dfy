/** The asyncio benchmark of hicache/bench_serving.py as a step protocol: a generator takes
    conversations from a bounded queue and yields their next turn, a task per yielded turn waits for
    the concurrency limit, asks the server and puts the conversation back behind the others.

    A queue entry `(c, t)` is conversation `c` with `t` finished prompts. */
module AsyncServing {
  import opened Collections

  datatype Turn = Turn(content: string, inputLen: nat, outputLen: nat)
  datatype Message = User(content: string) | Assistant(content: string)
  datatype Conversation = Conversation(turns: seq<Turn>, messages: seq<Message>)

  /** `limit` is the concurrency limit, 0 for none; `requests` also fixes the queue's size. */
  datatype Config = Config(requests: seq<seq<Turn>>, numActual: nat, limit: nat)

  /** `timedOut`: the generator gave up waiting. `ended`, `failed` and `issued` are history. */
  datatype State = State(queue: seq<(nat, nat)>, waiting: seq<(nat, nat)>, running: seq<(nat, nat)>,
                         convs: seq<Conversation>, budget: nat, timedOut: bool,
                         ended: set<nat>, failed: set<nat>, issued: seq<(nat, nat)>)

  datatype Action = Yield | GiveUp | Start(k: nat) | Succeed(k: nat, reply: string, outputLen: nat) | Fail(k: nat)

  function Init(cfg: Config): State {
    State(seq(|cfg.requests|, c => (c, 0)), [], [],
          seq(|cfg.requests|, c requires 0 <= c < |cfg.requests| => Conversation(cfg.requests[c], [])),
          cfg.numActual, false, {}, {}, [])
  }

  // ---------------------------------------------------------------- steps

  predicate Enabled(cfg: Config, s: State, a: Action) {
    match a
    case Yield => s.budget > 0 && !s.timedOut && s.queue != []
    case GiveUp => s.budget > 0 && !s.timedOut && s.queue == []
    case Start(k) =>
      && k < |s.waiting| && s.waiting[k].0 < |s.convs|
      && (cfg.limit == 0 || |s.running| < cfg.limit)
    case Succeed(k, _, _) =>
      k < |s.running| && s.running[k].0 < |s.convs| && s.running[k].1 < |s.convs[s.running[k].0].turns|
    case Fail(k) => k < |s.running|
  }

  /** A conversation without turns makes its task raise before anything is sent. */
  function ApplyStart(s: State, k: nat): State
    requires k < |s.waiting| && s.waiting[k].0 < |s.convs|
  {
    var c, t := s.waiting[k].0, s.waiting[k].1;
    var s1 := s.(waiting := Remove(s.waiting, k));
    if t >= |s.convs[c].turns| then s1.(failed := s.failed + {c})
    else
      var conv := s.convs[c];
      s1.(running := s.running + [(c, t)],
          convs := s.convs[c := conv.(messages := conv.messages + [User(conv.turns[t].content)])])
  }

  function ApplySucceed(s: State, k: nat, reply: string, outputLen: nat): State
    requires k < |s.running| && s.running[k].0 < |s.convs|
    requires s.running[k].1 < |s.convs[s.running[k].0].turns|
  {
    var c, t := s.running[k].0, s.running[k].1;
    var conv := s.convs[c];
    var conv' := Conversation(conv.turns[t := conv.turns[t].(outputLen := outputLen)],
                              conv.messages + [Assistant(reply)]);
    var s1 := s.(running := Remove(s.running, k), convs := s.convs[c := conv']);
    if t + 1 < |conv.turns| then s1.(queue := s.queue + [(c, t + 1)]) else s1.(ended := s.ended + {c})
  }

  function Apply(cfg: Config, s: State, a: Action): State
    requires Enabled(cfg, s, a)
  {
    match a
    case Yield => s.(queue := s.queue[1..], waiting := s.waiting + [s.queue[0]], budget := s.budget - 1,
                     issued := s.issued + [s.queue[0]])
    case GiveUp => s.(timedOut := true)
    case Start(k) => ApplyStart(s, k)
    case Succeed(k, reply, outputLen) => ApplySucceed(s, k, reply, outputLen)
    case Fail(k) => s.(running := Remove(s.running, k), failed := s.failed + {s.running[k].0})
  }

  ghost predicate IsRun(cfg: Config, tr: seq<State>, acts: seq<Action>) {
    && |tr| == |acts| + 1 && tr[0] == Init(cfg)
    && forall i {:trigger acts[i]} :: 0 <= i < |acts| ==>
         Enabled(cfg, tr[i], acts[i]) && tr[i + 1] == Apply(cfg, tr[i], acts[i])
  }

  // ---------------------------------------------------------------- every conversation is in one place

  function Places(s: State, c: nat): nat {
    Count(s.queue, c) + Count(s.waiting, c) + Count(s.running, c) + One(c in s.ended) + One(c in s.failed)
  }

  ghost predicate Partition(cfg: Config, s: State) {
    |s.convs| == |cfg.requests| && forall c: nat :: Places(s, c) == One(c < |cfg.requests|)
  }

  lemma YieldMoves(cfg: Config, s: State, c: nat)
    requires Enabled(cfg, s, Yield)
    ensures Places(Apply(cfg, s, Yield), c) == Places(s, c)
  {
    CountTail(s.queue, c);
    CountSnoc(s.waiting, s.queue[0], c);
  }

  lemma StartMoves(cfg: Config, s: State, k: nat, c: nat)
    requires Enabled(cfg, s, Start(k)) && Partition(cfg, s)
    ensures Places(Apply(cfg, s, Start(k)), c) == Places(s, c)
  {
    CountRemove(s.waiting, k, c);
    CountSnoc(s.running, s.waiting[k], c);
    assert Places(s, c) <= 1;
  }

  lemma SucceedMoves(cfg: Config, s: State, k: nat, reply: string, outputLen: nat, c: nat)
    requires Enabled(cfg, s, Succeed(k, reply, outputLen)) && Partition(cfg, s)
    ensures Places(Apply(cfg, s, Succeed(k, reply, outputLen)), c) == Places(s, c)
  {
    assert Places(s, s.running[k].0) <= 1;
    SucceedMovesOne(s, k, reply, outputLen, c);
  }

  lemma SucceedMovesOne(s: State, k: nat, reply: string, outputLen: nat, c: nat)
    requires k < |s.running| && s.running[k].0 < |s.convs| && Places(s, s.running[k].0) <= 1
    requires s.running[k].1 < |s.convs[s.running[k].0].turns|
    ensures Places(ApplySucceed(s, k, reply, outputLen), c) == Places(s, c)
  {
    CountMember(s.running, k);
    SucceedCounts(s, k, reply, outputLen, c);
  }

  lemma SucceedCounts(s: State, k: nat, reply: string, outputLen: nat, c: nat)
    requires k < |s.running| && s.running[k].0 < |s.convs| && s.running[k].1 < |s.convs[s.running[k].0].turns|
    ensures var d, t, s' := s.running[k].0, s.running[k].1, ApplySucceed(s, k, reply, outputLen);
      && Count(s'.running, c) == Count(s.running, c) - One(c == d)
      && Count(s'.queue, c) == Count(s.queue, c) + One(c == d && t + 1 < |s.convs[d].turns|)
  {
    CountRemove(s.running, k, c);
    CountSnoc(s.queue, (s.running[k].0, s.running[k].1 + 1), c);
  }

  lemma FailMoves(cfg: Config, s: State, k: nat, c: nat)
    requires Enabled(cfg, s, Fail(k)) && Partition(cfg, s)
    ensures Places(Apply(cfg, s, Fail(k)), c) == Places(s, c)
  {
    CountRemove(s.running, k, c);
    assert Places(s, c) <= 1;
  }

  lemma PartitionPreserved(cfg: Config, s: State, a: Action)
    requires Partition(cfg, s) && Enabled(cfg, s, a)
    ensures Partition(cfg, Apply(cfg, s, a))
  {
    var s' := Apply(cfg, s, a);
    forall c: nat ensures Places(s', c) == Places(s, c) {
      match a
      case Yield => YieldMoves(cfg, s, c);
      case GiveUp =>
      case Start(k) => StartMoves(cfg, s, k, c);
      case Succeed(k, reply, outputLen) => SucceedMoves(cfg, s, k, reply, outputLen, c);
      case Fail(k) => FailMoves(cfg, s, k, c);
    }
  }

  // ---------------------------------------------------------------- what has been yielded

  /** The turns of conversation `c` in a list of entries, in order. */
  function TurnsOf(q: seq<(nat, nat)>, c: nat): seq<nat> {
    if q == [] then []
    else TurnsOf(q[..|q| - 1], c) + if q[|q| - 1].0 == c then [q[|q| - 1].1] else []
  }

  function UpTo(n: nat): (r: seq<nat>)
    ensures |r| == n && forall i :: 0 <= i < n ==> r[i] == i
  {
    seq(n, i => i)
  }

  lemma TurnsSnoc(q: seq<(nat, nat)>, e: (nat, nat), c: nat)
    ensures TurnsOf(q + [e], c) == TurnsOf(q, c) + if e.0 == c then [e.1] else []
  {
    assert (q + [e])[..|q|] == q;
  }

  /** All entries of `q` are `behind` turns short of what has been issued for their conversation. */
  ghost predicate AtTurn(s: State, q: seq<(nat, nat)>, behind: nat) {
    forall k :: 0 <= k < |q| ==> q[k].1 == Count(s.issued, q[k].0) - behind
  }

  ghost predicate InOrder(cfg: Config, s: State) {
    && |s.issued| + s.budget == cfg.numActual
    && AtTurn(s, s.queue, 0) && AtTurn(s, s.waiting, 1) && AtTurn(s, s.running, 1)
    && (forall c: nat :: TurnsOf(s.issued, c) == UpTo(Count(s.issued, c)))
    && (forall k :: 0 <= k < |s.issued| ==> s.issued[k].0 < |cfg.requests|)
  }

  lemma YieldOrder(cfg: Config, s: State)
    requires Partition(cfg, s) && InOrder(cfg, s) && Enabled(cfg, s, Yield)
    ensures InOrder(cfg, Apply(cfg, s, Yield))
  {
    var s', e := Apply(cfg, s, Yield), s.queue[0];
    CountMember(s.queue, 0);
    assert Places(s, e.0) == One(e.0 < |cfg.requests|);
    forall c: nat ensures Count(s'.issued, c) == Count(s.issued, c) + One(c == e.0) { CountSnoc(s.issued, e, c); }
    forall c: nat ensures TurnsOf(s'.issued, c) == UpTo(Count(s'.issued, c)) { TurnsSnoc(s.issued, e, c); }
    forall k: nat ensures k < |s.queue[1..]| ==> s.queue[1..][k].0 != e.0 { NotAgain(s, e.0, k); }
    forall k: nat ensures k < |s.waiting| ==> s.waiting[k].0 != e.0 { NotAgain(s, e.0, k); }
    forall k: nat ensures k < |s.running| ==> s.running[k].0 != e.0 { NotAgain(s, e.0, k); }
  }

  lemma NotAgain(s: State, c: nat, k: nat)
    requires Places(s, c) <= 1 && s.queue != [] && s.queue[0].0 == c
    ensures k < |s.queue[1..]| ==> s.queue[1..][k].0 != c
    ensures k < |s.waiting| ==> s.waiting[k].0 != c
    ensures k < |s.running| ==> s.running[k].0 != c
  {
    CountTail(s.queue, c);
    if k < |s.queue[1..]| { CountMember(s.queue[1..], k); }
    if k < |s.waiting| { CountMember(s.waiting, k); }
    if k < |s.running| { CountMember(s.running, k); }
  }

  lemma InOrderPreserved(cfg: Config, s: State, a: Action)
    requires Partition(cfg, s) && InOrder(cfg, s) && Enabled(cfg, s, a)
    ensures InOrder(cfg, Apply(cfg, s, a))
  {
    match a
    case Yield => YieldOrder(cfg, s);
    case Start(k) => StartOrder(cfg, s, k);
    case Succeed(k, reply, outputLen) => SucceedOrder(cfg, s, k, reply, outputLen);
    case Fail(k) => AtTurnRemove(s, s.running, k, 1);
    case GiveUp =>
  }

  lemma AtTurnRemove(s: State, q: seq<(nat, nat)>, k: nat, behind: nat)
    requires k < |q| && AtTurn(s, q, behind)
    ensures AtTurn(s, Remove(q, k), behind)
  {
  }

  lemma StartOrder(cfg: Config, s: State, k: nat)
    requires InOrder(cfg, s) && Enabled(cfg, s, Start(k))
    ensures InOrder(cfg, ApplyStart(s, k))
  {
    AtTurnRemove(s, s.waiting, k, 1);
  }

  lemma SucceedOrder(cfg: Config, s: State, k: nat, reply: string, outputLen: nat)
    requires InOrder(cfg, s) && Enabled(cfg, s, Succeed(k, reply, outputLen))
    ensures InOrder(cfg, ApplySucceed(s, k, reply, outputLen))
  {
    AtTurnRemove(s, s.running, k, 1);
  }

  // ---------------------------------------------------------------- the conversations themselves

  /** Turns of `c` that have been answered. */
  function Answered(s: State, c: nat): int {
    Count(s.issued, c) - Count(s.waiting, c) - Count(s.running, c) - One(c in s.failed)
  }

  /** User and assistant messages alternate, the user's being the configured turns in order; turns that
      are not answered yet are as configured, answered ones differ in their output length at most. */
  ghost predicate Talk(req: seq<Turn>, conv: Conversation, answered: int, open: bool) {
    && |conv.turns| == |req| && 0 <= answered && answered + One(open) <= |req|
    && |conv.messages| == 2 * answered + One(open)
    && (forall i :: 0 <= i < |req| ==>
         conv.turns[i].content == req[i].content && conv.turns[i].inputLen == req[i].inputLen)
    && (forall i :: answered <= i < |req| ==> conv.turns[i] == req[i])
    && (forall i :: 0 <= i < answered + One(open) ==> conv.messages[2 * i] == User(req[i].content))
    && (forall i :: 0 <= i < answered ==> conv.messages[2 * i + 1].Assistant?)
  }

  function AtLeastOne(n: nat): nat {
    if n == 0 then 1 else n
  }

  /** A conversation that has not failed: still has a turn to go while queued, has issued all of them
      when ended, and its messages are in step. */
  ghost predicate ConvOk(cfg: Config, s: State, c: nat)
    requires c < |s.convs| == |cfg.requests|
  {
    && |s.convs[c].turns| == |cfg.requests[c]|
    && Count(s.issued, c) + Count(s.queue, c) <= AtLeastOne(|cfg.requests[c]|)
    && (c in s.ended ==> Count(s.issued, c) == |cfg.requests[c]|)
    && (c !in s.failed ==> Talk(cfg.requests[c], s.convs[c], Answered(s, c), Count(s.running, c) == 1))
  }

  ghost predicate ConvsOk(cfg: Config, s: State)
    requires |s.convs| == |cfg.requests|
  {
    forall c: nat :: c < |cfg.requests| ==> ConvOk(cfg, s, c)
  }

  lemma YieldConv(cfg: Config, s: State, c: nat)
    requires Partition(cfg, s) && InOrder(cfg, s) && Enabled(cfg, s, Yield)
    requires c < |cfg.requests| && ConvOk(cfg, s, c)
    ensures ConvOk(cfg, Apply(cfg, s, Yield), c)
  {
    CountTail(s.queue, c);
    CountSnoc(s.waiting, s.queue[0], c);
    CountSnoc(s.issued, s.queue[0], c);
    assert Places(s, c) == 1;
  }

  lemma OpenTalk(req: seq<Turn>, conv: Conversation, t: nat)
    requires Talk(req, conv, t, false) && t < |req|
    ensures Talk(req, conv.(messages := conv.messages + [User(conv.turns[t].content)]), t, true)
  {
  }

  lemma CloseTalk(req: seq<Turn>, conv: Conversation, t: nat, reply: string, outputLen: nat)
    requires Talk(req, conv, t, true)
    ensures Talk(req, Conversation(conv.turns[t := conv.turns[t].(outputLen := outputLen)],
                                   conv.messages + [Assistant(reply)]), t + 1, false)
  {
  }

  /** Nothing about conversation `c` is different. */
  ghost predicate SameConv(s: State, s': State, c: nat)
    requires c < |s.convs| && c < |s'.convs|
  {
    && s'.convs[c] == s.convs[c] && s'.issued == s.issued
    && Count(s'.queue, c) == Count(s.queue, c) && Count(s'.waiting, c) == Count(s.waiting, c)
    && Count(s'.running, c) == Count(s.running, c)
    && (c in s'.ended <==> c in s.ended) && (c in s'.failed <==> c in s.failed)
  }

  lemma SameConvOk(cfg: Config, s: State, s': State, c: nat)
    requires c < |s.convs| == |s'.convs| == |cfg.requests| && ConvOk(cfg, s, c) && SameConv(s, s', c)
    ensures ConvOk(cfg, s', c)
  {
  }

  lemma StartConv(cfg: Config, s: State, k: nat, c: nat)
    requires Partition(cfg, s) && InOrder(cfg, s) && Enabled(cfg, s, Start(k))
    requires c < |cfg.requests| && ConvOk(cfg, s, c)
    ensures ConvOk(cfg, Apply(cfg, s, Start(k)), c)
  {
    if c == s.waiting[k].0 {
      StartOwn(cfg, s, k);
    } else {
      CountRemove(s.waiting, k, c);
      CountSnoc(s.running, s.waiting[k], c);
      SameConvOk(cfg, s, Apply(cfg, s, Start(k)), c);
    }
  }

  lemma StartOwn(cfg: Config, s: State, k: nat)
    requires Partition(cfg, s) && InOrder(cfg, s) && Enabled(cfg, s, Start(k)) && ConvOk(cfg, s, s.waiting[k].0)
    ensures ConvOk(cfg, Apply(cfg, s, Start(k)), s.waiting[k].0)
  {
    var c, t := s.waiting[k].0, s.waiting[k].1;
    assert t == Count(s.issued, c) - 1;
    CountRemove(s.waiting, k, c);
    CountSnoc(s.running, s.waiting[k], c);
    assert Places(s, c) == 1;
    if t < |s.convs[c].turns| {
      OpenTalk(cfg.requests[c], s.convs[c], t);
    }
  }

  lemma SucceedConv(cfg: Config, s: State, k: nat, reply: string, outputLen: nat, c: nat)
    requires Partition(cfg, s) && InOrder(cfg, s) && Enabled(cfg, s, Succeed(k, reply, outputLen))
    requires c < |cfg.requests| && ConvOk(cfg, s, c)
    ensures ConvOk(cfg, Apply(cfg, s, Succeed(k, reply, outputLen)), c)
  {
    if c == s.running[k].0 {
      SucceedOwn(cfg, s, k, reply, outputLen);
    } else {
      SucceedOther(s, k, reply, outputLen, c);
      SameConvOk(cfg, s, Apply(cfg, s, Succeed(k, reply, outputLen)), c);
    }
  }

  lemma SucceedOther(s: State, k: nat, reply: string, outputLen: nat, c: nat)
    requires k < |s.running| && s.running[k].0 < |s.convs|
    requires s.running[k].1 < |s.convs[s.running[k].0].turns|
    requires c < |s.convs| && c != s.running[k].0
    ensures SameConv(s, ApplySucceed(s, k, reply, outputLen), c)
  {
    SucceedCounts(s, k, reply, outputLen, c);
  }

  lemma SucceedOwn(cfg: Config, s: State, k: nat, reply: string, outputLen: nat)
    requires Partition(cfg, s) && InOrder(cfg, s) && Enabled(cfg, s, Succeed(k, reply, outputLen))
    requires ConvOk(cfg, s, s.running[k].0)
    ensures ConvOk(cfg, Apply(cfg, s, Succeed(k, reply, outputLen)), s.running[k].0)
  {
    var c, t := s.running[k].0, s.running[k].1;
    assert t == Count(s.issued, c) - 1;
    CountMember(s.running, k);
    assert Places(s, c) == 1;
    CloseTalk(cfg.requests[c], s.convs[c], t, reply, outputLen);
    SucceedCounts(s, k, reply, outputLen, c);
    SucceedAnswers(cfg, s, k, reply, outputLen);
  }

  /** Conversation and counts agree again once the answer to turn `t` is recorded. */
  lemma SucceedAnswers(cfg: Config, s: State, k: nat, reply: string, outputLen: nat)
    requires k < |s.running| && s.running[k].0 < |s.convs| == |cfg.requests|
    requires s.running[k].1 < |s.convs[s.running[k].0].turns|
    requires var c, t, s' := s.running[k].0, s.running[k].1, ApplySucceed(s, k, reply, outputLen);
      && ConvOk(cfg, s, c) && t == Count(s.issued, c) - 1
      && Count(s.queue, c) == Count(s.waiting, c) == 0 && Count(s.running, c) == 1
      && c !in s.ended && c !in s.failed
      && Count(s'.running, c) == 0 && Count(s'.queue, c) == One(t + 1 < |s.convs[c].turns|)
      && Talk(cfg.requests[c], s'.convs[c], t + 1, false)
    ensures ConvOk(cfg, ApplySucceed(s, k, reply, outputLen), s.running[k].0)
  {
  }

  lemma FailConv(cfg: Config, s: State, k: nat, c: nat)
    requires Partition(cfg, s) && InOrder(cfg, s) && Enabled(cfg, s, Fail(k))
    requires c < |cfg.requests| && ConvOk(cfg, s, c)
    ensures ConvOk(cfg, Apply(cfg, s, Fail(k)), c)
  {
    CountRemove(s.running, k, c);
    assert Places(s, c) == 1;
  }

  lemma ConvsOkPreserved(cfg: Config, s: State, a: Action)
    requires Partition(cfg, s) && InOrder(cfg, s) && ConvsOk(cfg, s) && Enabled(cfg, s, a)
    ensures var s' := Apply(cfg, s, a); |s'.convs| == |cfg.requests| && ConvsOk(cfg, s')
  {
    var s' := Apply(cfg, s, a);
    forall c: nat | c < |cfg.requests| ensures ConvOk(cfg, s', c) {
      assert ConvOk(cfg, s, c);
      match a
      case Yield => YieldConv(cfg, s, c);
      case GiveUp =>
      case Start(k) => StartConv(cfg, s, k, c);
      case Succeed(k, reply, outputLen) => SucceedConv(cfg, s, k, reply, outputLen, c);
      case Fail(k) => FailConv(cfg, s, k, c);
    }
  }

  // ---------------------------------------------------------------- every state of every run

  ghost predicate Inv(cfg: Config, s: State) {
    && Partition(cfg, s) && InOrder(cfg, s) && ConvsOk(cfg, s)
    && (cfg.limit > 0 ==> |s.running| <= cfg.limit)
  }

  lemma InitInv(cfg: Config)
    ensures Inv(cfg, Init(cfg))
  {
    forall c: nat
      ensures Places(Init(cfg), c) == One(c < |cfg.requests|) && Count(Init(cfg).queue, c) == One(c < |cfg.requests|)
    {
      CountIndexed(Init(cfg).queue, c);
    }
  }

  lemma InvPreserved(cfg: Config, s: State, a: Action)
    requires Inv(cfg, s) && Enabled(cfg, s, a)
    ensures Inv(cfg, Apply(cfg, s, a))
  {
    PartitionPreserved(cfg, s, a);
    InOrderPreserved(cfg, s, a);
    ConvsOkPreserved(cfg, s, a);
  }

  lemma {:induction false} RunInv(cfg: Config, tr: seq<State>, acts: seq<Action>, i: nat)
    requires IsRun(cfg, tr, acts) && i < |tr|
    ensures Inv(cfg, tr[i])
  {
    if i == 0 {
      InitInv(cfg);
    } else {
      RunInv(cfg, tr, acts, i - 1);
      InvPreserved(cfg, tr[i - 1], acts[i - 1]);
    }
  }
}
