/** What holds in every run of the asyncio benchmark: conservation of conversations, the order of
    turns, the length of a run, and where a failure-free run ends. */
module AsyncServingRuns {
  import opened Collections
  import opened AsyncServing

  // ---------------------------------------------------------------- conservation

  lemma NoDuplicates(cfg: Config, s: State)
    requires Partition(cfg, s)
    ensures |Tags(s.queue)| == |s.queue| && |Tags(s.waiting)| == |s.waiting| && |Tags(s.running)| == |s.running|
  {
    assert forall c: nat :: Places(s, c) <= 1;
    assert forall c: nat {:trigger Count(s.queue, c)} :: Count(s.queue, c) <= Places(s, c);
    assert forall c: nat {:trigger Count(s.waiting, c)} :: Count(s.waiting, c) <= Places(s, c);
    assert forall c: nat {:trigger Count(s.running, c)} :: Count(s.running, c) <= Places(s, c);
    TagsSize(s.queue);
    TagsSize(s.waiting);
    TagsSize(s.running);
  }

  lemma FiveDisjoint<T>(a: set<T>, b: set<T>, c: set<T>, d: set<T>, e: set<T>)
    requires a !! b && a !! c && a !! d && a !! e && b !! c && b !! d && b !! e && c !! d && c !! e && d !! e
    ensures |a + b + c + d + e| == |a| + |b| + |c| + |d| + |e|
  {
  }

  /** Queued, waiting, running, ended and failed conversations always make up the whole set. */
  lemma Conservation(cfg: Config, s: State)
    requires Partition(cfg, s)
    ensures |s.queue| + |s.waiting| + |s.running| + |s.ended| + |s.failed| == |cfg.requests|
  {
    NoDuplicates(cfg, s);
    var a, b, c := Tags(s.queue), Tags(s.waiting), Tags(s.running);
    forall x: nat
      ensures x in a ==> x !in b && x !in c && x !in s.ended && x !in s.failed
      ensures x in b ==> x !in c && x !in s.ended && x !in s.failed
      ensures x in c ==> x !in s.ended && x !in s.failed
      ensures x in s.ended ==> x !in s.failed
      ensures x < |cfg.requests| <==> x in a || x in b || x in c || x in s.ended || x in s.failed
    {
      assert Places(s, x) == One(x < |cfg.requests|);
    }
    FiveDisjoint(a, b, c, s.ended, s.failed);
    SameElements(a, b, c, s.ended, s.failed, Range(|cfg.requests|));
  }

  lemma SameElements(a: set<nat>, b: set<nat>, c: set<nat>, d: set<nat>, e: set<nat>, all: set<nat>)
    requires forall x: nat :: x in all <==> x in a || x in b || x in c || x in d || x in e
    ensures a + b + c + d + e == all
  {
  }

  /** Whenever a task is about to put its conversation back, the bounded queue has room for it, so
      the `put` never blocks; and the concurrency limit is kept. */
  lemma PutNeverBlocks(cfg: Config, tr: seq<State>, acts: seq<Action>, i: nat)
    requires IsRun(cfg, tr, acts) && i < |tr|
    ensures |tr[i].queue| + |tr[i].waiting| + |tr[i].running| + |tr[i].ended| + |tr[i].failed| == |cfg.requests|
    ensures tr[i].running != [] ==> |tr[i].queue| < |cfg.requests|
    ensures cfg.limit > 0 ==> |tr[i].running| <= cfg.limit
  {
    RunInv(cfg, tr, acts, i);
    Conservation(cfg, tr[i]);
  }

  // ---------------------------------------------------------------- turns

  /** In every run the turns issued for a conversation are 0, 1, 2 and so on, each once and in order. */
  lemma TurnsInOrder(cfg: Config, tr: seq<State>, acts: seq<Action>, i: nat, c: nat)
    requires IsRun(cfg, tr, acts) && i < |tr| && c < |cfg.requests|
    ensures TurnsOf(tr[i].issued, c) == UpTo(Count(tr[i].issued, c))
    ensures Count(tr[i].issued, c) <= AtLeastOne(|cfg.requests[c]|)
    ensures |tr[i].convs| == |cfg.requests|
    ensures c !in tr[i].failed ==>
      Talk(cfg.requests[c], tr[i].convs[c], Answered(tr[i], c), Count(tr[i].running, c) == 1)
  {
    RunInv(cfg, tr, acts, i);
    assert ConvOk(cfg, tr[i], c);
  }

  function Counts(q: seq<(nat, nat)>, n: nat): (r: seq<nat>)
    ensures |r| == n
  {
    seq(n, c requires 0 <= c < n => Count(q, c))
  }

  lemma {:induction false} SumCounts(q: seq<(nat, nat)>, n: nat)
    requires forall k :: 0 <= k < |q| ==> q[k].0 < n
    ensures Sum(Counts(q, n)) == |q|
  {
    if q == [] {
      SumOfZeros(Counts(q, n));
    } else {
      var p, c := q[..|q| - 1], q[|q| - 1].0;
      SumCounts(p, n);
      assert Counts(q, n) == Counts(p, n)[c := Counts(p, n)[c] + 1];
      SumUpdate(Counts(p, n), c, Counts(p, n)[c] + 1);
    }
  }

  function Lengths(requests: seq<seq<Turn>>): (r: seq<nat>)
    ensures |r| == |requests|
  {
    seq(|requests|, c requires 0 <= c < |requests| => |requests[c]|)
  }

  lemma {:induction false} SumEqual(xs: seq<nat>, ys: seq<nat>)
    requires |xs| == |ys| && (forall i :: 0 <= i < |xs| ==> xs[i] <= ys[i])
    ensures Sum(xs) <= Sum(ys)
    ensures Sum(xs) == Sum(ys) ==> xs == ys
  {
    if xs != [] {
      var n := |xs| - 1;
      SumEqual(xs[..n], ys[..n]);
      assert xs == xs[..n] + [xs[n]] && ys == ys[..n] + [ys[n]];
    }
  }

  /** The number of requests announced is the number of turns, and no conversation is empty. */
  ghost predicate Consistent(cfg: Config) {
    && cfg.numActual == Sum(Lengths(cfg.requests))
    && forall c :: 0 <= c < |cfg.requests| ==> cfg.requests[c] != []
  }

  lemma IssuedWithinTurns(cfg: Config, s: State)
    requires Inv(cfg, s) && Consistent(cfg)
    ensures s.budget == 0 ==> forall c: nat :: c < |cfg.requests| ==> Count(s.issued, c) == |cfg.requests[c]|
    ensures (forall c: nat :: c < |cfg.requests| ==> Count(s.issued, c) == |cfg.requests[c]|) ==> s.budget == 0
  {
    var n := |cfg.requests|;
    SumCounts(s.issued, n);
    var xs, ys := Counts(s.issued, n), Lengths(cfg.requests);
    forall c: nat | c < n ensures xs[c] <= ys[c] { assert ConvOk(cfg, s, c); }
    SumEqual(xs, ys);
    if s.budget == 0 {
      forall c: nat | c < n ensures Count(s.issued, c) == |cfg.requests[c]| { assert xs[c] == ys[c]; }
    }
    if forall c: nat :: c < n ==> Count(s.issued, c) == |cfg.requests[c]| {
      assert xs == ys;
    }
  }

  /** A generator that has used up its budget has yielded every turn of every conversation exactly
      once, in order, for exactly as many yields as announced; and it can only end like that or by
      giving up. */
  lemma EveryTurnYieldedOnce(cfg: Config, tr: seq<State>, acts: seq<Action>, i: nat)
    requires IsRun(cfg, tr, acts) && i < |tr| && Consistent(cfg)
    ensures |tr[i].issued| <= cfg.numActual
    ensures |tr[i].issued| == cfg.numActual
      <==> forall c: nat :: c < |cfg.requests| ==> TurnsOf(tr[i].issued, c) == UpTo(|cfg.requests[c]|)
  {
    var s := tr[i];
    RunInv(cfg, tr, acts, i);
    IssuedWithinTurns(cfg, s);
    forall c: nat | c < |cfg.requests|
      ensures TurnsOf(s.issued, c) == UpTo(|cfg.requests[c]|) <==> Count(s.issued, c) == |cfg.requests[c]|
    {
      TurnsInOrder(cfg, tr, acts, i, c);
    }
  }

  // ---------------------------------------------------------------- length of a run, and its end

  /** Yields, starts and finishes so far, and the generator's giving up. */
  function Effort(s: State): int {
    3 * |s.issued| - 2 * |s.waiting| - |s.running| + One(s.timedOut)
  }

  lemma EffortStep(cfg: Config, s: State, a: Action)
    requires Enabled(cfg, s, a)
    ensures Effort(Apply(cfg, s, a)) >= Effort(s) + 1
  {
  }

  /** No run, with or without failures, has more than three steps per announced request and one for
      giving up. */
  lemma {:induction false} RunLength(cfg: Config, tr: seq<State>, acts: seq<Action>, i: nat)
    requires IsRun(cfg, tr, acts) && i < |tr|
    ensures i <= Effort(tr[i]) <= 3 * cfg.numActual + 1
  {
    RunInv(cfg, tr, acts, i);
    if i > 0 {
      RunLength(cfg, tr, acts, i - 1);
      EffortStep(cfg, tr[i - 1], acts[i - 1]);
    }
  }

  lemma NothingMoving(cfg: Config, s: State)
    requires Inv(cfg, s) && Consistent(cfg) && s.failed == {}
    requires s.queue == s.waiting == s.running == []
    ensures s.budget == 0
    ensures forall c: nat :: c < |cfg.requests| ==> c in s.ended
  {
    forall c: nat | c < |cfg.requests| ensures c in s.ended && Count(s.issued, c) == |cfg.requests[c]| {
      assert Places(s, c) == 1;
      assert ConvOk(cfg, s, c);
    }
    IssuedWithinTurns(cfg, s);
  }

  /** No deadlock: while a failure-free run has turns left, a yield, a start or a finish is possible. */
  lemma StepIsPossible(cfg: Config, tr: seq<State>, acts: seq<Action>, i: nat) returns (a: Action)
    requires IsRun(cfg, tr, acts) && i < |tr| && Consistent(cfg)
    requires tr[i].failed == {} && !tr[i].timedOut
    requires !(tr[i].queue == tr[i].waiting == tr[i].running == [])
    ensures Enabled(cfg, tr[i], a) && !a.GiveUp? && !a.Fail?
  {
    var s := tr[i];
    RunInv(cfg, tr, acts, i);
    if s.running != [] {
      a := Succeed(0, "", 0);
      RunningHasTurn(cfg, s, 0);
    } else if s.waiting != [] {
      a := Start(0);
      CountMember(s.waiting, 0);
      assert Places(s, s.waiting[0].0) == One(s.waiting[0].0 < |s.convs|);
    } else {
      a := Yield;
      BudgetLeft(cfg, s);
    }
  }

  lemma RunningHasTurn(cfg: Config, s: State, k: nat)
    requires Inv(cfg, s) && k < |s.running|
    ensures s.running[k].0 < |s.convs| && s.running[k].1 < |s.convs[s.running[k].0].turns|
  {
    var c := s.running[k].0;
    CountMember(s.running, k);
    assert Places(s, c) == One(c < |s.convs|);
    assert ConvOk(cfg, s, c);
    assert s.running[k].1 == Count(s.issued, c) - 1;
  }

  /** The lookups in the steps never fail: a started request has its turn, and a waiting one its
      conversation. */
  lemma NoLookupErrors(cfg: Config, tr: seq<State>, acts: seq<Action>, i: nat, k: nat, reply: string, outputLen: nat)
    requires IsRun(cfg, tr, acts) && i < |tr|
    ensures k < |tr[i].running| ==> Enabled(cfg, tr[i], Succeed(k, reply, outputLen))
    ensures k < |tr[i].waiting| && (cfg.limit == 0 || |tr[i].running| < cfg.limit) ==> Enabled(cfg, tr[i], Start(k))
  {
    var s := tr[i];
    RunInv(cfg, tr, acts, i);
    if k < |s.running| { RunningHasTurn(cfg, s, k); }
    if k < |s.waiting| {
      CountMember(s.waiting, k);
      assert Places(s, s.waiting[k].0) == One(s.waiting[k].0 < |s.convs|);
    }
  }

  lemma BudgetLeft(cfg: Config, s: State)
    requires Inv(cfg, s) && Consistent(cfg) && s.queue != []
    ensures s.budget > 0
  {
    var c := s.queue[0].0;
    CountMember(s.queue, 0);
    assert Places(s, c) == One(c < |cfg.requests|);
    assert ConvOk(cfg, s, c);
    IssuedWithinTurns(cfg, s);
  }

  /** A failure-free run that cannot go on has yielded exactly the announced number of requests and
      taken every conversation to its end, with one answer to each of its turns. */
  lemma FailureFreeEnd(cfg: Config, tr: seq<State>, acts: seq<Action>, i: nat)
    requires IsRun(cfg, tr, acts) && i < |tr| && Consistent(cfg)
    requires tr[i].failed == {} && !tr[i].timedOut && forall a :: !Enabled(cfg, tr[i], a)
    ensures |tr[i].issued| == cfg.numActual && |tr[i].convs| == |cfg.requests|
    ensures forall c: nat :: c < |cfg.requests| ==>
      && TurnsOf(tr[i].issued, c) == UpTo(|cfg.requests[c]|)
      && Talk(cfg.requests[c], tr[i].convs[c], |cfg.requests[c]|, false)
  {
    var s := tr[i];
    RunInv(cfg, tr, acts, i);
    if !(s.queue == s.waiting == s.running == []) {
      var a := StepIsPossible(cfg, tr, acts, i);
    }
    NothingMoving(cfg, s);
    EveryTurnYieldedOnce(cfg, tr, acts, i);
    forall c: nat | c < |cfg.requests| ensures Talk(cfg.requests[c], s.convs[c], |cfg.requests[c]|, false) {
      assert ConvOk(cfg, s, c);
    }
  }

  // ---------------------------------------------------------------- shared prefixes

  /** Each turn becomes a conversation of its own. */
  function Flatten(requests: seq<seq<Turn>>): seq<seq<Turn>> {
    if requests == [] then []
    else
      var n := |requests| - 1;
      var last := requests[n];
      Flatten(requests[..n]) + seq(|last|, k requires 0 <= k < |last| => [last[k]])
  }

  function Concatenated(requests: seq<seq<Turn>>): seq<Turn> {
    if requests == [] then []
    else Concatenated(requests[..|requests| - 1]) + requests[|requests| - 1]
  }

  method FlattenRequests(requests: seq<seq<Turn>>) returns (r: seq<seq<Turn>>)
    ensures r == Flatten(requests)
  {
    r := [];
    for i := 0 to |requests|
      invariant r == Flatten(requests[..i])
    {
      assert requests[..i + 1][..i] == requests[..i];
      var last := requests[i];
      ghost var r0 := r;
      for k := 0 to |last|
        invariant r == r0 + seq(k, j requires 0 <= j < k => [last[j]])
      {
        r := r + [[last[k]]];
      }
    }
    assert requests[..|requests|] == requests;
  }

  lemma {:induction false} LengthsConcat(a: seq<seq<Turn>>, b: seq<seq<Turn>>)
    ensures Sum(Lengths(a + b)) == Sum(Lengths(a)) + Sum(Lengths(b))
    decreases |b|
  {
    if b == [] {
      assert a + b == a;
    } else {
      var n := |b| - 1;
      LengthsConcat(a, b[..n]);
      assert Lengths(a + b)[..|a| + n] == Lengths(a + b[..n]);
      assert Lengths(b)[..n] == Lengths(b[..n]);
    }
  }

  lemma {:induction false} SumOfOnes(xs: seq<nat>)
    requires forall k :: 0 <= k < |xs| ==> xs[k] == 1
    ensures Sum(xs) == |xs|
  {
    if xs != [] { SumOfOnes(xs[..|xs| - 1]); }
  }

  /** Flattening keeps the number of turns, so what is announced for the original conversations is
      consistent with the flattened ones, even when some of the original ones were empty. */
  lemma {:induction false} FlattenConsistent(requests: seq<seq<Turn>>, limit: nat)
    ensures Consistent(Config(Flatten(requests), Sum(Lengths(requests)), limit))
    ensures |Flatten(requests)| == Sum(Lengths(requests))
    ensures forall c :: 0 <= c < |Flatten(requests)| ==> |Flatten(requests)[c]| == 1
    decreases |requests|
  {
    if requests != [] {
      var n := |requests| - 1;
      var last := requests[n];
      var singles := seq(|last|, k requires 0 <= k < |last| => [last[k]]);
      FlattenConsistent(requests[..n], limit);
      LengthsConcat(Flatten(requests[..n]), singles);
      SumOfOnes(Lengths(singles));
      assert Lengths(requests)[..n] == Lengths(requests[..n]);
    }
  }

  /** Flattening changes neither the turns nor their order. */
  lemma {:induction false} FlattenKeepsTurns(requests: seq<seq<Turn>>)
    ensures Concatenated(Flatten(requests)) == Concatenated(requests)
  {
    if requests != [] {
      var n := |requests| - 1;
      FlattenKeepsTurns(requests[..n]);
      ConcatenatedSingles(Flatten(requests[..n]), requests[n]);
    }
  }

  lemma {:induction false} ConcatenatedSingles(a: seq<seq<Turn>>, last: seq<Turn>)
    ensures Concatenated(a + seq(|last|, k requires 0 <= k < |last| => [last[k]])) == Concatenated(a) + last
    decreases |last|
  {
    var singles := seq(|last|, k requires 0 <= k < |last| => [last[k]]);
    if last == [] {
      assert a + singles == a;
    } else {
      var n := |last| - 1;
      var init := seq(n, k requires 0 <= k < n => [last[..n][k]]);
      ConcatenatedSingles(a, last[..n]);
      assert (a + singles)[..|a| + n] == a + init;
      assert last == last[..n] + [last[n]];
    }
  }
}
