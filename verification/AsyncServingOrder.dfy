/** In which order the asyncio benchmark yields requests: first-in-first-out over all conversations, so a
    conversation that goes on does so behind all others that are waiting. */
module AsyncServingOrder {
  import opened Collections
  import opened AsyncServing

  /** The request a step yields, if any: the one it hands to a task. */
  function NewYielded(s: State, s': State, a: Action): seq<(nat, nat)> {
    if a.Yield? && |s'.waiting| == |s.waiting| + 1 then [Last(s'.waiting)] else []
  }

  /** What an answer puts into the queue: the conversation with its next turn, if there is one. */
  function NewPut(cfg: Config, s: State, a: Action): seq<(nat, nat)> {
    match a
    case Succeed(k, _, _) =>
      if k < |s.running| && s.running[k].0 < |cfg.requests| && s.running[k].1 + 1 < |cfg.requests[s.running[k].0]|
      then [(s.running[k].0, s.running[k].1 + 1)] else []
    case _ => []
  }

  /** The requests yielded during the first `i` steps. */
  ghost function Yielded(tr: seq<State>, acts: seq<Action>, i: nat): seq<(nat, nat)>
    requires i <= |acts| && |tr| == |acts| + 1
  {
    if i == 0 then [] else Yielded(tr, acts, i - 1) + NewYielded(tr[i - 1], tr[i], acts[i - 1])
  }

  /** What has been put into the queue by answers during the first `i` steps. */
  ghost function Puts(cfg: Config, tr: seq<State>, acts: seq<Action>, i: nat): seq<(nat, nat)>
    requires i <= |acts| && |tr| == |acts| + 1
  {
    if i == 0 then [] else Puts(cfg, tr, acts, i - 1) + NewPut(cfg, tr[i - 1], acts[i - 1])
  }

  /** Every conversation at its first turn, from conversation 0 on. */
  ghost predicate Openers(cfg: Config, q: seq<(nat, nat)>) {
    |q| == |cfg.requests| && forall c :: 0 <= c < |q| ==> q[c] == (c, 0)
  }

  lemma QueueStep(cfg: Config, s: State, a: Action, s': State)
    requires |s.convs| == |cfg.requests| && Enabled(cfg, s, a) && s' == Apply(cfg, s, a)
    requires forall c :: 0 <= c < |s.convs| ==> |s.convs[c].turns| == |cfg.requests[c]|
    ensures NewYielded(s, s', a) + s'.queue == s.queue + NewPut(cfg, s, a)
    ensures s'.issued == s.issued + NewYielded(s, s', a)
  {
    if a.Yield? {
      assert s.queue == [s.queue[0]] + s.queue[1..];
    }
  }

  lemma TurnsStay(cfg: Config, s: State)
    requires Inv(cfg, s)
    ensures |s.convs| == |cfg.requests| && forall c :: 0 <= c < |s.convs| ==> |s.convs[c].turns| == |cfg.requests[c]|
  {
    forall c | 0 <= c < |s.convs| ensures |s.convs[c].turns| == |cfg.requests[c]| { assert ConvOk(cfg, s, c); }
  }

  lemma QueueStepOfRun(cfg: Config, tr: seq<State>, acts: seq<Action>, i: nat)
    requires IsRun(cfg, tr, acts) && 0 < i < |tr|
    ensures NewYielded(tr[i - 1], tr[i], acts[i - 1]) + tr[i].queue
      == tr[i - 1].queue + NewPut(cfg, tr[i - 1], acts[i - 1])
    ensures tr[i].issued == tr[i - 1].issued + NewYielded(tr[i - 1], tr[i], acts[i - 1])
  {
    RunInv(cfg, tr, acts, i - 1);
    TurnsStay(cfg, tr[i - 1]);
    QueueStep(cfg, tr[i - 1], acts[i - 1], tr[i]);
  }

  lemma {:induction false} YieldedIsIssued(cfg: Config, tr: seq<State>, acts: seq<Action>, i: nat)
    requires IsRun(cfg, tr, acts) && i < |tr|
    ensures tr[i].issued == Yielded(tr, acts, i)
  {
    if i > 0 {
      YieldedIsIssued(cfg, tr, acts, i - 1);
      QueueStepOfRun(cfg, tr, acts, i);
    }
  }

  lemma {:induction false} YieldedFromQueue(cfg: Config, tr: seq<State>, acts: seq<Action>, i: nat)
    requires IsRun(cfg, tr, acts) && i < |tr|
    ensures Yielded(tr, acts, i) + tr[i].queue == tr[0].queue + Puts(cfg, tr, acts, i)
  {
    if i == 0 {
      Unchanged(tr[0].queue);
    } else {
      YieldedFromQueue(cfg, tr, acts, i - 1);
      QueueStepOfRun(cfg, tr, acts, i);
      QueueMoves(Yielded(tr, acts, i - 1), NewYielded(tr[i - 1], tr[i], acts[i - 1]), tr[i].queue, tr[i - 1].queue,
                 NewPut(cfg, tr[i - 1], acts[i - 1]), tr[0].queue, Puts(cfg, tr, acts, i - 1));
    }
  }

  /** In every run the requests yielded so far, followed by the queue, are all conversations at their first
      turn, from conversation 0 on, and then what the answers have put back, in the order of the answers. */
  lemma YieldedInOrder(cfg: Config, tr: seq<State>, acts: seq<Action>, i: nat) returns (first: seq<(nat, nat)>)
    requires IsRun(cfg, tr, acts) && i < |tr|
    ensures Openers(cfg, first)
    ensures Yielded(tr, acts, i) + tr[i].queue == first + Puts(cfg, tr, acts, i)
    ensures tr[i].issued == Yielded(tr, acts, i)
  {
    first := tr[0].queue;
    YieldedFromQueue(cfg, tr, acts, i);
    YieldedIsIssued(cfg, tr, acts, i);
  }
}
