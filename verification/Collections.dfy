/** Facts about finite ranges, queues of tagged entries and sums that several modules share. */
module Collections {

  function One(b: bool): nat {
    if b then 1 else 0
  }

  /** The numbers below `n`. */
  function Range(n: nat): (r: set<nat>)
    ensures |r| == n && forall k: nat :: k in r <==> k < n
  {
    if n == 0 then {} else Range(n - 1) + {n - 1}
  }

  ghost predicate Distinct<T>(w: seq<T>) {
    forall a, b :: 0 <= a < b < |w| ==> w[a] != w[b]
  }

  function Last<T>(w: seq<T>): T
    requires w != []
  {
    w[|w| - 1]
  }

  lemma SubsetSize<T>(a: set<T>, b: set<T>)
    requires a <= b
    ensures |a| <= |b|
  {
    if a != {} {
      var x :| x in a;
      SubsetSize(a - {x}, b - {x});
    }
  }

  /** `list.pop(k)`, as far as the list is concerned. */
  function Remove<T>(q: seq<T>, k: nat): seq<T>
    requires k < |q|
  {
    q[..k] + q[k + 1..]
  }

  lemma Unchanged<T>(q: seq<T>)
    ensures [] + q == q + [] == q
  {
  }

  /** What has left a queue, followed by the queue, is what has entered it: at first, and since. */
  lemma QueueMoves<T>(gone: seq<T>, out: seq<T>, after: seq<T>, before: seq<T>, added: seq<T>,
                      first: seq<T>, since: seq<T>)
    requires out + after == before + added && gone + before == first + since
    ensures (gone + out) + after == first + (since + added)
  {
    assert (gone + out) + after == gone + (out + after);
    assert gone + (before + added) == (gone + before) + added;
    assert (first + since) + added == first + (since + added);
  }

  // ---------------------------------------------------------------- queues of tagged entries

  /** How many entries of a queue carry the tag `c`. */
  function Count<T>(q: seq<(nat, T)>, c: nat): nat {
    if q == [] then 0 else Count(q[..|q| - 1], c) + if q[|q| - 1].0 == c then 1 else 0
  }

  lemma CountSnoc<T>(q: seq<(nat, T)>, e: (nat, T), c: nat)
    ensures Count(q + [e], c) == Count(q, c) + if e.0 == c then 1 else 0
  {
    assert (q + [e])[..|q|] == q;
  }

  lemma {:induction false} CountRemove<T>(q: seq<(nat, T)>, k: nat, c: nat)
    requires k < |q|
    ensures Count(q, c) == Count(Remove(q, k), c) + if q[k].0 == c then 1 else 0
  {
    var n := |q| - 1;
    if k == n {
      assert Remove(q, k) == q[..n];
    } else {
      CountRemove(q[..n], k, c);
      assert Remove(q, k) == Remove(q[..n], k) + [q[n]];
      CountSnoc(Remove(q[..n], k), q[n], c);
    }
  }

  lemma CountTail<T>(q: seq<(nat, T)>, c: nat)
    requires q != []
    ensures Count(q, c) == Count(q[1..], c) + if q[0].0 == c then 1 else 0
  {
    CountRemove(q, 0, c);
    assert Remove(q, 0) == q[1..];
  }

  lemma CountMember<T>(q: seq<(nat, T)>, k: nat)
    requires k < |q|
    ensures Count(q, q[k].0) >= 1
  {
    CountRemove(q, k, q[k].0);
  }

  /** A queue that holds every tag below its length once, in order. */
  lemma {:induction false} CountIndexed<T>(q: seq<(nat, T)>, c: nat)
    requires forall k :: 0 <= k < |q| ==> q[k].0 == k
    ensures Count(q, c) == One(c < |q|)
  {
    if q != [] { CountIndexed(q[..|q| - 1], c); }
  }

  /** The tags of a queue. */
  function Tags<T>(q: seq<(nat, T)>): (r: set<nat>)
    ensures |r| <= |q|
    ensures forall c :: c in r <==> Count(q, c) >= 1
  {
    if q == [] then {} else Tags(q[..|q| - 1]) + {q[|q| - 1].0}
  }

  /** A queue in which no tag comes twice has as many tags as entries. */
  lemma {:induction false} TagsSize<T>(q: seq<(nat, T)>)
    requires forall c: nat :: Count(q, c) <= 1
    ensures |Tags(q)| == |q|
  {
    if q != [] {
      var p, d := q[..|q| - 1], q[|q| - 1].0;
      forall c: nat ensures Count(p, c) <= 1 { assert Count(q, c) <= 1; }
      TagsSize(p);
      assert Count(q, d) <= 1;
      assert d !in Tags(p);
    }
  }

  // ---------------------------------------------------------------- sums

  function Sum(xs: seq<nat>): nat {
    if xs == [] then 0 else Sum(xs[..|xs| - 1]) + xs[|xs| - 1]
  }

  lemma {:induction false} SumUpdate(xs: seq<nat>, i: nat, v: nat)
    requires i < |xs|
    ensures Sum(xs[i := v]) == Sum(xs) - xs[i] + v
  {
    var n := |xs| - 1;
    if i == n {
      assert xs[i := v][..n] == xs[..n];
    } else {
      SumUpdate(xs[..n], i, v);
      assert xs[i := v][..n] == xs[..n][i := v];
    }
  }

  lemma {:induction false} SumOfZeros(xs: seq<nat>)
    requires forall k :: 0 <= k < |xs| ==> xs[k] == 0
    ensures Sum(xs) == 0
  {
    if xs != [] { SumOfZeros(xs[..|xs| - 1]); }
  }

  /** Equal bounds on all entries bound the sum, and the sum meets the bound only if all entries do. */
  lemma {:induction false} SumBelow(xs: seq<nat>, bound: nat)
    requires forall i :: 0 <= i < |xs| ==> xs[i] <= bound
    ensures Sum(xs) <= |xs| * bound
    ensures Sum(xs) == |xs| * bound <==> forall i :: 0 <= i < |xs| ==> xs[i] == bound
  {
    if xs != [] {
      var n := |xs| - 1;
      SumBelow(xs[..n], bound);
      assert |xs| * bound == n * bound + bound;
      assert forall i :: 0 <= i < n ==> xs[..n][i] == xs[i];
    }
  }

  lemma {:induction false} SumMonotone(xs: seq<nat>, ys: seq<nat>)
    requires |xs| == |ys| && forall i :: 0 <= i < |xs| ==> xs[i] <= ys[i]
    ensures Sum(xs) <= Sum(ys)
  {
    if xs != [] { SumMonotone(xs[..|xs| - 1], ys[..|ys| - 1]); }
  }

  /** One more at every marked position. */
  function Marked(xs: seq<nat>, marks: set<nat>): (r: seq<nat>)
    ensures |r| == |xs|
  {
    seq(|xs|, i requires 0 <= i < |xs| => xs[i] + One(i in marks))
  }

  lemma WithoutTop(n: nat, marks: set<nat>)
    ensures |marks| == |marks - {n}| + One(n in marks)
  {
    assert n in marks ==> marks == marks - {n} + {n};
    assert n !in marks ==> marks == marks - {n};
  }

  lemma {:induction false} SumMarkedBelow(xs: seq<nat>, ys: seq<nat>, marks: set<nat>)
    requires |ys| == |xs| && forall m :: m in marks ==> m < |xs|
    requires forall i :: 0 <= i < |xs| ==> ys[i] == xs[i] + One(i in marks)
    ensures Sum(ys) == Sum(xs) + |marks|
  {
    if xs == [] {
      assert marks == {};
    } else {
      var n := |xs| - 1;
      WithoutTop(n, marks);
      SumMarkedBelow(xs[..n], ys[..n], marks - {n});
    }
  }

  lemma SumMarkedBy(xs: seq<nat>, ys: seq<nat>, marks: set<nat>)
    requires marks <= Range(|xs|) && |ys| == |xs|
    requires forall i :: 0 <= i < |xs| ==> ys[i] == xs[i] + One(i in marks)
    ensures Sum(ys) == Sum(xs) + |marks|
  {
    SumMarkedBelow(xs, ys, marks);
  }

  lemma SumMarked(xs: seq<nat>, marks: set<nat>)
    requires marks <= Range(|xs|)
    ensures Sum(Marked(xs, marks)) == Sum(xs) + |marks|
  {
    SumMarkedBy(xs, Marked(xs, marks), marks);
  }
}
