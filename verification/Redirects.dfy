/** `generate_lines`: a document in which some lines redirect to other lines, with the redirect
    chains resolved in place, lines on or behind a cycle set apart, and the other lines grouped by
    the number of hops. */
module Redirects {
  import opened Collections
  import opened Text

  /** For every line the line it redirects to, if any. */
  type Table = seq<Option<nat>>

  ghost predicate WellFormed(t: Table) {
    forall i :: 0 <= i < |t| && t[i].Some? ==> t[i].value < |t|
  }

  // ---------------------------------------------------------------- walks

  /** A walk along redirects that visits no line twice. */
  ghost predicate IsWalk(t: Table, w: seq<nat>) {
    && w != [] && Distinct(w)
    && (forall k :: 0 <= k < |w| ==> w[k] < |t|)
    && forall k :: 0 <= k < |w| - 1 ==> t[w[k]] == Some(w[k + 1])
  }

  function Elements<T(==, !new)>(w: seq<T>): (r: set<T>)
    ensures forall x :: x in r <==> x in w
  {
    set x | x in w
  }

  lemma {:induction false} DistinctSize<T(!new)>(w: seq<T>)
    requires Distinct(w)
    ensures |Elements(w)| == |w|
  {
    if w != [] {
      var v := w[..|w| - 1];
      DistinctSize(v);
      assert Last(w) !in v;
      assert Elements(w) == Elements(v) + {Last(w)};
    }
  }

  /** Pigeonhole: a walk is no longer than the table. */
  lemma WalkLength(t: Table, w: seq<nat>)
    requires IsWalk(t, w)
    ensures |w| <= |t|
  {
    DistinctSize(w);
    SubsetSize(Elements(w), Range(|t|));
  }

  /** The walk cannot go on: its last line is no redirect, or leads back into the walk. */
  predicate Complete(t: Table, w: seq<nat>)
    requires w != [] && Last(w) < |t|
  {
    t[Last(w)].None? || t[Last(w)].value in w
  }

  function Extend(t: Table, w: seq<nat>): (r: seq<nat>)
    requires WellFormed(t) && IsWalk(t, w)
    ensures IsWalk(t, r) && Complete(t, r) && w <= r
    decreases |t| - |w|
  {
    WalkLength(t, w);
    if Complete(t, w) then w
    else
      var w' := w + [t[Last(w)].value];
      WalkLength(t, w');
      Extend(t, w')
  }

  lemma ExtendStep(t: Table, w: seq<nat>)
    requires WellFormed(t) && IsWalk(t, w) && !Complete(t, w)
    ensures var w' := w + [t[Last(w)].value];
      IsWalk(t, w') && |w'| <= |t| && Elements(w') == Elements(w) + {Last(w')} && Extend(t, w') == Extend(t, w)
  {
    WalkLength(t, w + [t[Last(w)].value]);
  }

  function WalkFrom(t: Table, i: nat): (w: seq<nat>)
    requires WellFormed(t) && i < |t|
    ensures IsWalk(t, w) && Complete(t, w) && w[0] == i
  {
    Extend(t, [i])
  }

  predicate InRing(t: Table, i: nat)
    requires WellFormed(t) && i < |t|
  {
    t[Last(WalkFrom(t, i))].Some?
  }

  /** The line whose value line `i` receives: the end of its chain or, behind a cycle, the line
      where the walk enters the cycle. */
  function Destination(t: Table, i: nat): (d: nat)
    requires WellFormed(t) && i < |t|
    ensures d in WalkFrom(t, i) && d < |t|
  {
    var e := Last(WalkFrom(t, i));
    if t[e].None? then e else t[e].value
  }

  lemma {:induction false} WalksAgree(t: Table, v: seq<nat>, w: seq<nat>, k: nat)
    requires IsWalk(t, v) && IsWalk(t, w) && v[0] == w[0] && k < |v| && k < |w|
    ensures v[k] == w[k]
  {
    if k > 0 {
      WalksAgree(t, v, w, k - 1);
    }
  }

  lemma ProperPrefixIncomplete(t: Table, w: seq<nat>, v: seq<nat>)
    requires IsWalk(t, w) && IsWalk(t, v) && w < v
    ensures !Complete(t, w)
  {
    assert t[v[|w| - 1]] == Some(v[|w|]);
    assert v[|w|] !in v[..|w|];
  }

  /** A complete walk is determined by where it starts. */
  lemma CompleteWalkUnique(t: Table, i: nat, w: seq<nat>)
    requires WellFormed(t) && i < |t|
    requires IsWalk(t, w) && Complete(t, w) && w[0] == i
    ensures w == WalkFrom(t, i)
  {
    var v := WalkFrom(t, i);
    forall k | 0 <= k < |v| && k < |w| ensures v[k] == w[k] { WalksAgree(t, v, w, k); }
    if w < v {
      ProperPrefixIncomplete(t, w, v);
    } else if v < w {
      ProperPrefixIncomplete(t, v, w);
    }
  }

  lemma CycleIsWalk(t: Table, w: seq<nat>, j: nat)
    requires IsWalk(t, w) && j < |w|
    ensures IsWalk(t, w[j..])
  {
    var cycle := w[j..];
    forall k | 0 <= k < |cycle| ensures cycle[k] == w[j + k] {}
    forall a, b | 0 <= a < b < |cycle| ensures cycle[a] != cycle[b] {
      assert w[j + a] != w[j + b];
    }
    forall k | 0 <= k < |cycle| - 1 ensures t[cycle[k]] == Some(cycle[k + 1]) {
      assert t[w[j + k]] == Some(w[j + k + 1]);
    }
  }

  /** The destination of a destination is itself: terminal lines stay, and a line on a cycle walks
      around the cycle back to itself. */
  lemma DestinationStays(t: Table, i: nat)
    requires WellFormed(t) && i < |t|
    ensures Destination(t, Destination(t, i)) == Destination(t, i)
  {
    var w, d := WalkFrom(t, i), Destination(t, i);
    if t[Last(w)].None? {
      CompleteWalkUnique(t, d, [d]);
    } else {
      var j :| 0 <= j < |w| && w[j] == d;
      var cycle := w[j..];
      CycleIsWalk(t, w, j);
      assert cycle[0] == d && Last(cycle) == Last(w);
      CompleteWalkUnique(t, d, cycle);
    }
  }

  // ---------------------------------------------------------------- following redirects one by one

  /** The line reached after up to `k` redirects; a line that is no redirect is not left. */
  function Follow(t: Table, i: nat, k: nat): (r: nat)
    requires WellFormed(t) && i < |t|
    ensures r < |t|
  {
    if k == 0 then i
    else
      var c := Follow(t, i, k - 1);
      if t[c].Some? then t[c].value else c
  }

  ghost predicate Resolves(t: Table, i: nat)
    requires WellFormed(t) && i < |t|
  {
    exists k: nat :: t[Follow(t, i, k)].None?
  }

  lemma {:induction false} FollowWalk(t: Table, i: nat, w: seq<nat>, k: nat)
    requires WellFormed(t) && i < |t| && IsWalk(t, w) && w[0] == i && k < |w|
    ensures Follow(t, i, k) == w[k]
  {
    if k > 0 {
      FollowWalk(t, i, w, k - 1);
    }
  }

  lemma {:induction false} RingIsClosed(t: Table, i: nat, k: nat)
    requires WellFormed(t) && i < |t| && InRing(t, i)
    ensures Follow(t, i, k) in WalkFrom(t, i) && t[Follow(t, i, k)].Some?
  {
    var w := WalkFrom(t, i);
    if k == 0 {
      FollowWalk(t, i, w, 0);
      assert w[0] in w;
    } else {
      RingIsClosed(t, i, k - 1);
      var c := Follow(t, i, k - 1);
      var j :| 0 <= j < |w| && w[j] == c;
      if j < |w| - 1 {
        assert t[w[j]] == Some(w[j + 1]);
      }
    }
    var c := Follow(t, i, k);
    var j :| 0 <= j < |w| && w[j] == c;
    if j < |w| - 1 {
      assert t[w[j]] == Some(w[j + 1]);
    }
  }

  /** A line is set apart as a ring exactly when following its redirects never ends. */
  lemma RingExactlyWhenUnresolved(t: Table, i: nat)
    requires WellFormed(t) && i < |t|
    ensures InRing(t, i) <==> !Resolves(t, i)
  {
    var w := WalkFrom(t, i);
    if InRing(t, i) {
      forall k: nat ensures t[Follow(t, i, k)].Some? { RingIsClosed(t, i, k); }
    } else {
      FollowWalk(t, i, w, |w| - 1);
      assert t[Follow(t, i, |w| - 1)].None?;
    }
  }

  lemma {:induction false} FollowFurther(t: Table, i: nat, a: nat, b: nat)
    requires WellFormed(t) && i < |t|
    ensures Follow(t, i, a + b) == Follow(t, Follow(t, i, a), b)
  {
    if b > 0 {
      FollowFurther(t, i, a, b - 1);
    }
  }

  /** Following redirects from the line leads back to it. */
  ghost predicate OnCycle(t: Table, c: nat)
    requires WellFormed(t) && c < |t|
  {
    exists k: nat :: k > 0 && Follow(t, c, k) == c
  }

  lemma {:induction false} CycleRepeats(t: Table, c: nat, k: nat, n: nat)
    requires WellFormed(t) && c < |t| && Follow(t, c, k) == c
    ensures Follow(t, c, n * k) == c
  {
    if n == 0 {
      assert n * k == 0;
    } else {
      CycleRepeats(t, c, k, n - 1);
      assert n * k == (n - 1) * k + k;
      FollowFurther(t, c, (n - 1) * k, k);
    }
  }

  /** Following redirects from a line of the walk behind its entry into the cycle stays there. */
  lemma {:induction false} CycleIsClosed(t: Table, w: seq<nat>, j: nat, c: nat, k: nat)
    requires WellFormed(t) && IsWalk(t, w) && j < |w| && t[Last(w)] == Some(w[j])
    requires c in w[j..]
    ensures c < |t| && Follow(t, c, k) in w[j..]
  {
    if k > 0 {
      CycleIsClosed(t, w, j, c, k - 1);
      var m :| 0 <= m < |w[j..]| && w[j..][m] == Follow(t, c, k - 1);
      if j + m < |w| - 1 {
        assert t[w[j + m]] == Some(w[j + m + 1]);
        assert w[j..][m + 1] == w[j + m + 1];
      } else {
        assert w[j..][0] == w[j];
      }
    }
  }

  lemma EntryOnCycle(t: Table, w: seq<nat>, j: nat)
    requires WellFormed(t) && IsWalk(t, w) && j < |w| && t[Last(w)] == Some(w[j])
    ensures OnCycle(t, w[j])
  {
    var cycle := w[j..];
    var n := |cycle| - 1;
    CycleIsWalk(t, w, j);
    FollowWalk(t, w[j], cycle, n);
    assert Follow(t, w[j], n + 1) == w[j];
  }

  lemma BeforeEntryOffCycle(t: Table, w: seq<nat>, j: nat, k: nat)
    requires WellFormed(t) && IsWalk(t, w) && k < j < |w| && t[Last(w)] == Some(w[j])
    ensures !OnCycle(t, w[k])
  {
    if OnCycle(t, w[k]) {
      var p: nat :| p > 0 && Follow(t, w[k], p) == w[k];
      var n := j - k;
      CycleRepeats(t, w[k], p, n);
      AtLeastTimes(n, p);
      CycleIsWalk(t, w, k);
      FollowWalk(t, w[k], w[k..], n);
      FollowFurther(t, w[k], n, n * p - n);
      assert w[j..][0] == w[j];
      CycleIsClosed(t, w, j, w[j], n * p - n);
    }
  }

  lemma AtLeastTimes(n: nat, p: nat)
    requires p > 0
    ensures n <= n * p
  {
    assert n * (p - 1) >= 0;
  }

  /** A line that never resolves receives its value from the first line on a cycle that one comes to. */
  lemma RingDestination(t: Table, i: nat) returns (j: nat)
    requires WellFormed(t) && i < |t| && InRing(t, i)
    ensures Follow(t, i, j) == Destination(t, i) && OnCycle(t, Destination(t, i))
    ensures forall k: nat :: k < j ==> !OnCycle(t, Follow(t, i, k))
  {
    var w, d := WalkFrom(t, i), Destination(t, i);
    assert t[Last(w)] == Some(d);
    j :| 0 <= j < |w| && w[j] == d;
    FollowWalk(t, i, w, j);
    EntryOnCycle(t, w, j);
    forall k: nat | k < j ensures !OnCycle(t, Follow(t, i, k)) {
      FollowWalk(t, i, w, k);
      BeforeEntryOffCycle(t, w, j, k);
    }
  }

  /** `p` leads from line `i` over redirects to a line that is no redirect. */
  predicate IsPath(t: Table, i: nat, p: seq<nat>)
    decreases |p|
  {
    i < |t| &&
    if p == [] then t[i].None? else t[i] == Some(p[0]) && IsPath(t, p[0], p[1..])
  }

  lemma {:induction false} PathUnique(t: Table, i: nat, p: seq<nat>, q: seq<nat>)
    requires IsPath(t, i, p) && IsPath(t, i, q)
    ensures p == q
    decreases |p|
  {
    if p != [] {
      PathUnique(t, p[0], p[1..], q[1..]);
      assert p == [p[0]] + p[1..] && q == [q[0]] + q[1..];
    }
  }

  lemma {:induction false} WalkIsPath(t: Table, w: seq<nat>)
    requires IsWalk(t, w) && t[Last(w)].None?
    ensures IsPath(t, w[0], w[1..])
  {
    if |w| > 1 {
      assert t[w[0]] == Some(w[1]);
      assert forall k :: 0 <= k < |w[1..]| - 1 ==> t[w[1..][k]] == Some(w[1..][k + 1]);
      WalkIsPath(t, w[1..]);
    }
  }

  /** The recorded link of a line that resolves is its one path to a plain line; it never meets a
      line twice and is shorter than the table. */
  lemma LinkIsThePath(t: Table, i: nat)
    requires WellFormed(t) && i < |t| && !InRing(t, i)
    ensures var p := WalkFrom(t, i)[1..];
      && IsPath(t, i, p) && Distinct([i] + p) && |p| < |t|
      && (forall q :: IsPath(t, i, q) ==> q == p)
      && Destination(t, i) == Last([i] + p) && t[Destination(t, i)].None?
  {
    var w := WalkFrom(t, i);
    var p := w[1..];
    WalkIsPath(t, w);
    WalkLength(t, w);
    assert w == [i] + p;
    forall q | IsPath(t, i, q) ensures q == p { PathUnique(t, i, p, q); }
  }

  // ---------------------------------------------------------------- the loops

  /** The inner loop has come from line `i` along the walk `w` to line `cur`. */
  ghost predicate Following(t: Table, i: nat, w: seq<nat>, tmpLink: seq<nat>, cur: nat, visited: set<nat>)
    requires WellFormed(t) && i < |t|
  {
    && IsWalk(t, w) && Extend(t, w) == WalkFrom(t, i)
    && tmpLink == w[1..] && cur == Last(w)
    && visited + {cur} == Elements(w) && |visited| == |w| - 1
  }

  lemma FollowOn(t: Table, i: nat, w: seq<nat>, tmpLink: seq<nat>, cur: nat, visited: set<nat>)
    requires WellFormed(t) && i < |t| && Following(t, i, w, tmpLink, cur, visited)
    requires t[cur].Some? && t[cur].value !in visited + {cur}
    ensures var next := t[cur].value; Following(t, i, w + [next], tmpLink + [next], next, visited + {cur})
  {
    var next := t[cur].value;
    assert |visited + {cur}| == |w| by { DistinctSize(w); }
    assert (w + [next])[1..] == w[1..] + [next];
    ExtendStep(t, w);
  }

  lemma FollowEnds(t: Table, i: nat, w: seq<nat>, tmpLink: seq<nat>, cur: nat, visited: set<nat>)
    requires WellFormed(t) && i < |t| && Following(t, i, w, tmpLink, cur, visited)
    requires t[cur].None? || t[cur].value in visited + {cur}
    ensures w == WalkFrom(t, i)
    ensures |visited + {cur}| <= |t|
  {
    WalkLength(t, w);
    DistinctSize(w);
  }

  /** The inner loop: follow redirects from line `i` until a plain line or a visited one. */
  method FollowLink(t: Table, i: nat) returns (link: Option<seq<nat>>, cur: nat, visited: set<nat>)
    requires WellFormed(t) && i < |t|
    ensures link.None? <==> InRing(t, i)
    ensures link.Some? ==> link.value == WalkFrom(t, i)[1..]
    ensures cur == Destination(t, i)
    ensures |visited| <= |t|
  {
    var tmpLink := [];
    cur := i;
    visited := {};
    ghost var w := [i];
    while t[cur].Some?
      invariant cur < |t| && |visited| < |t|
      invariant Following(t, i, w, tmpLink, cur, visited)
      decreases |t| - |visited|
    {
      var next := t[cur].value;
      if next in visited + {cur} {
        FollowEnds(t, i, w, tmpLink, cur, visited);
      } else {
        FollowOn(t, i, w, tmpLink, cur, visited);
        WalkLength(t, w + [next]);
        w := w + [next];
      }
      visited := visited + {cur};
      tmpLink := tmpLink + [next];
      cur := next;
      if cur in visited {
        link := None;
        return;
      }
    }
    FollowEnds(t, i, w, tmpLink, cur, visited);
    link := Some(tmpLink);
  }

  function LinkOf(t: Table, i: nat): Option<seq<nat>>
    requires WellFormed(t) && i < |t|
  {
    if InRing(t, i) then None else Some(WalkFrom(t, i)[1..])
  }

  /** The outer loop: record links and rings, and overwrite each redirecting line's value in place.
      In the end every line holds the original value of its destination. */
  method BuildLinks(t: Table, values: array<string>)
    returns (links: seq<Option<seq<nat>>>, rings: set<nat>)
    requires WellFormed(t) && values.Length == |t|
    modifies values
    ensures |links| == |t| && forall i :: 0 <= i < |t| ==> links[i] == LinkOf(t, i)
    ensures forall i :: i in rings <==> 0 <= i < |t| && InRing(t, i)
    ensures forall i :: 0 <= i < |t| ==> values[i] == old(values[Destination(t, i)])
  {
    links := seq(|t|, _ => Some([]));
    rings := {};
    for i := 0 to |t|
      invariant |links| == |t|
      invariant forall k :: 0 <= k < i ==> links[k] == LinkOf(t, k)
      invariant forall k :: i <= k < |t| ==> links[k] == Some([])
      invariant forall k :: k in rings <==> 0 <= k < i && InRing(t, k)
      invariant forall k :: 0 <= k < i ==> values[k] == old(values[Destination(t, k)])
      invariant forall k :: i <= k < |t| ==> values[k] == old(values[k])
    {
      DestinationStays(t, i);
      if t[i].None? {
        CompleteWalkUnique(t, i, [i]);
        assert [i][1..] == [];
        continue;
      }
      var link, cur, _ := FollowLink(t, i);
      if link.None? {
        rings := rings + {i};
      }
      values[i] := values[cur];
      links := links[i := link];
    }
  }

  // ---------------------------------------------------------------- any order of overwriting

  /** The values after the lines of `order` have been overwritten one after the other, each by what its
      destination holds at that moment. */
  function Overwritten(t: Table, raw: seq<string>, order: seq<nat>): (r: seq<string>)
    requires WellFormed(t) && |raw| == |t| && forall k :: 0 <= k < |order| ==> order[k] < |t|
    ensures |r| == |t|
  {
    if order == [] then raw
    else
      var n := |order| - 1;
      var before := Overwritten(t, raw, order[..n]);
      before[order[n] := before[Destination(t, order[n])]]
  }

  /** Whatever the order, and however often a line is visited, an overwritten line ends up with the
      original value of its destination. */
  lemma {:induction false} OrderDoesNotMatter(t: Table, raw: seq<string>, order: seq<nat>, i: nat)
    requires WellFormed(t) && |raw| == |t| && i < |t| && forall k :: 0 <= k < |order| ==> order[k] < |t|
    ensures Overwritten(t, raw, order)[i] == if i in order then raw[Destination(t, i)] else raw[i]
    decreases |order|
  {
    if order != [] {
      var n := |order| - 1;
      assert order == order[..n] + [order[n]];
      OrderDoesNotMatter(t, raw, order[..n], i);
      if i == order[n] {
        OrderDoesNotMatter(t, raw, order[..n], Destination(t, i));
        DestinationStays(t, i);
      }
    }
  }

  // ---------------------------------------------------------------- line names

  /** The first occurrences, in order. */
  function Firsts(draws: seq<string>): (r: seq<string>)
    ensures Distinct(r) && |r| <= |draws|
    ensures forall x :: x in r <==> x in draws
  {
    if draws == [] then []
    else
      var n := |draws| - 1;
      var p := Firsts(draws[..n]);
      assert forall x :: x in draws <==> x in draws[..n] || x == draws[n];
      if draws[n] in p then p else p + [draws[n]]
  }

  lemma {:induction false} FirstsPrefix(draws: seq<string>, k: nat)
    requires k <= |draws|
    ensures Firsts(draws[..k]) <= Firsts(draws)
    decreases |draws|
  {
    if k < |draws| {
      var n := |draws| - 1;
      FirstsPrefix(draws[..n], k);
      assert draws[..n][..k] == draws[..k];
    } else {
      assert draws[..k] == draws;
    }
  }

  lemma FirstsNext(draws: seq<string>, pos: nat)
    requires pos < |draws|
    ensures Firsts(draws[..pos + 1])
      == Firsts(draws[..pos]) + if draws[pos] in Firsts(draws[..pos]) then [] else [draws[pos]]
  {
    assert draws[..pos + 1][..pos] == draws[..pos];
  }

  /** A name that comes up for the first time stands behind as many names as had come up before. */
  lemma FirstsInOrder(draws: seq<string>, pos: nat)
    requires pos < |draws| && draws[pos] !in draws[..pos]
    ensures var k := |Elements(draws[..pos])|; k < |Firsts(draws)| && Firsts(draws)[k] == draws[pos]
  {
    var before := Firsts(draws[..pos]);
    DistinctSize(before);
    assert Elements(before) == Elements(draws[..pos]);
    FirstsNext(draws, pos);
    FirstsPrefix(draws, pos + 1);
  }

  /** Drawing until a name comes up that has not been used; None when the draws run out. */
  method DrawOne(draws: seq<string>, indices: seq<string>, visited: set<string>, start: nat)
    returns (name: Option<string>, pos: nat)
    requires start <= |draws| && indices == Firsts(draws[..start])
    requires forall x :: x in visited <==> x in indices
    ensures start <= pos <= |draws|
    ensures name.Some? ==> name.value !in visited && Firsts(draws[..pos]) == indices + [name.value]
    ensures name.None? ==> Firsts(draws) == indices
  {
    name, pos := None, start;
    while name.None? || name.value in visited
      invariant start <= pos <= |draws|
      invariant Firsts(draws[..pos])
        == indices + if name.None? || name.value in visited then [] else [name.value]
      decreases |draws| - pos
    {
      if pos == |draws| {
        assert draws[..pos] == draws;
        return None, pos;
      }
      FirstsNext(draws, pos);
      name := Some(draws[pos]);
      pos := pos + 1;
    }
  }

  /** Drawing names until `n` different ones have come up; None when the draws run out first. */
  method DrawIndices(draws: seq<string>, n: nat) returns (r: Option<seq<string>>)
    ensures r.Some? <==> |Firsts(draws)| >= n
    ensures r.Some? ==> r.value == Firsts(draws)[..n] && Distinct(r.value)
  {
    var indices: seq<string> := [];
    var visited: set<string> := {};
    var pos := 0;
    for i := 0 to n
      invariant pos <= |draws| && |indices| == i
      invariant indices == Firsts(draws[..pos])
      invariant forall x :: x in visited <==> x in indices
    {
      var lineIndex;
      lineIndex, pos := DrawOne(draws, indices, visited, pos);
      if lineIndex.None? {
        return None;
      }
      visited := visited + {lineIndex.value};
      indices := indices + [lineIndex.value];
    }
    FirstsPrefix(draws, pos);
    r := Some(indices);
  }

  // ---------------------------------------------------------------- the document

  datatype Line =
    | ValueLine(index: string, value: string)
    | RedirectLine(index: string, target: string)

  /** Redirects chosen one after the other; a later choice for the same line wins. */
  function TableOf(n: nat, choices: seq<(nat, nat)>): (t: Table)
    requires forall c :: c in choices ==> c.0 < n && c.1 < n
    ensures |t| == n && WellFormed(t)
  {
    if choices == [] then seq(n, _ => None)
    else
      var k := |choices| - 1;
      assert choices[k] in choices;
      TableOf(n, choices[..k])[choices[k].0 := Some(choices[k].1)]
  }

  ghost predicate NoChoice(choices: seq<(nat, nat)>, i: nat) {
    forall k :: 0 <= k < |choices| ==> choices[k].0 != i
  }

  /** Choice `k` is the last one for line `i`, and it is for target `d`. */
  ghost predicate ChosenAt(choices: seq<(nat, nat)>, i: nat, d: nat, k: nat) {
    k < |choices| && choices[k] == (i, d) && NoChoice(choices[k + 1..], i)
  }

  /** Line `i` was last chosen to redirect to line `d`. */
  ghost predicate LastChoice(choices: seq<(nat, nat)>, i: nat, d: nat) {
    exists k: nat :: ChosenAt(choices, i, d, k)
  }

  lemma NoChoiceSnoc(choices: seq<(nat, nat)>, c: (nat, nat), i: nat)
    ensures NoChoice(choices + [c], i) <==> NoChoice(choices, i) && c.0 != i
  {
    var all := choices + [c];
    assert all[|choices|] == c;
    assert forall k :: 0 <= k < |choices| ==> all[k] == choices[k];
  }

  lemma ChosenAtSnoc(choices: seq<(nat, nat)>, c: (nat, nat), i: nat, d: nat, k: nat)
    ensures ChosenAt(choices + [c], i, d, k)
      <==> if k == |choices| then c == (i, d) else ChosenAt(choices, i, d, k) && c.0 != i
  {
    var all := choices + [c];
    if k == |choices| {
      assert all[k + 1..] == [];
    } else if k < |choices| {
      assert all[k + 1..] == choices[k + 1..] + [c];
      NoChoiceSnoc(choices[k + 1..], c, i);
    }
  }

  lemma LastChoiceSnoc(choices: seq<(nat, nat)>, c: (nat, nat), i: nat, d: nat)
    ensures LastChoice(choices + [c], i, d) <==> if c.0 == i then c.1 == d else LastChoice(choices, i, d)
  {
    forall k: nat
      ensures ChosenAt(choices + [c], i, d, k)
        <==> if k == |choices| then c == (i, d) else ChosenAt(choices, i, d, k) && c.0 != i
    {
      ChosenAtSnoc(choices, c, i, d, k);
    }
    assert ChosenAt(choices + [c], i, d, |choices|) <==> c == (i, d);
  }

  /** The table redirects a line to the target chosen for it last, and only chosen lines. */
  lemma {:induction false} TableExactly(n: nat, choices: seq<(nat, nat)>, i: nat, d: nat)
    requires (forall c :: c in choices ==> c.0 < n && c.1 < n) && i < n
    ensures TableOf(n, choices)[i] == Some(d) <==> LastChoice(choices, i, d)
    ensures TableOf(n, choices)[i].None? <==> NoChoice(choices, i)
    decreases |choices|
  {
    if choices != [] {
      var k := |choices| - 1;
      assert choices[k] in choices;
      assert choices == choices[..k] + [choices[k]];
      TableExactly(n, choices[..k], i, d);
      NoChoiceSnoc(choices[..k], choices[k], i);
      LastChoiceSnoc(choices[..k], choices[k], i, d);
    }
  }

  /** Each line names the line it was last chosen to redirect to, and shows its own value exactly if it was
      never chosen. */
  ghost predicate Document(lines: seq<Line>, indices: seq<string>, raw: seq<string>, choices: seq<(nat, nat)>) {
    && |lines| == |indices| == |raw|
    && (forall i, d :: 0 <= i < |indices| && 0 <= d < |indices| ==>
         (lines[i] == RedirectLine(indices[i], indices[d]) <==> LastChoice(choices, i, d)))
    && (forall i :: 0 <= i < |indices| ==> (lines[i] == ValueLine(indices[i], raw[i]) <==> NoChoice(choices, i)))
  }

  lemma DocumentFollows(lines: seq<Line>, indices: seq<string>, raw: seq<string>, choices: seq<(nat, nat)>)
    requires |lines| == |indices| == |raw| && Distinct(indices)
    requires forall c :: c in choices ==> c.0 < |indices| && c.1 < |indices|
    requires var t := TableOf(|indices|, choices);
      forall i :: 0 <= i < |indices| ==> lines[i] == LineOf(indices, raw, t, i)
    ensures Document(lines, indices, raw, choices)
  {
    forall i, d | 0 <= i < |indices| && 0 <= d < |indices|
      ensures lines[i] == RedirectLine(indices[i], indices[d]) <==> LastChoice(choices, i, d)
    {
      LineExactly(indices, raw, choices, i, d);
    }
    forall i | 0 <= i < |indices| ensures lines[i] == ValueLine(indices[i], raw[i]) <==> NoChoice(choices, i) {
      LineExactly(indices, raw, choices, i, i);
    }
  }

  lemma LineExactly(indices: seq<string>, raw: seq<string>, choices: seq<(nat, nat)>, i: nat, d: nat)
    requires |indices| == |raw| && Distinct(indices) && i < |indices| && d < |indices|
    requires forall c :: c in choices ==> c.0 < |indices| && c.1 < |indices|
    ensures var line := LineOf(indices, raw, TableOf(|indices|, choices), i);
      && (line == RedirectLine(indices[i], indices[d]) <==> LastChoice(choices, i, d))
      && (line == ValueLine(indices[i], raw[i]) <==> NoChoice(choices, i))
  {
    TableExactly(|indices|, choices, i, d);
  }

  function LineOf(indices: seq<string>, raw: seq<string>, t: Table, i: nat): Line
    requires i < |t| == |indices| == |raw| && WellFormed(t)
  {
    if t[i].None? then ValueLine(indices[i], raw[i]) else RedirectLine(indices[i], indices[t[i].value])
  }

  method AddRedirects(lines: array<Line>, redirects: array<Option<nat>>,
                      indices: seq<string>, raw: seq<string>, choices: seq<(nat, nat)>)
    requires lines.Length == redirects.Length == |indices| == |raw|
    requires forall c :: c in choices ==> c.0 < |indices| && c.1 < |indices|
    requires forall i :: 0 <= i < |indices| ==> lines[i] == ValueLine(indices[i], raw[i]) && redirects[i].None?
    modifies lines, redirects
    ensures redirects[..] == TableOf(|indices|, choices)
    ensures forall i :: 0 <= i < |indices| ==> lines[i] == LineOf(indices, raw, redirects[..], i)
    ensures Distinct(indices) ==> Document(lines[..], indices, raw, choices)
  {
    ghost var n := |indices|;
    assert redirects[..] == TableOf(n, choices[..0]);
    for k := 0 to |choices|
      invariant redirects[..] == TableOf(n, choices[..k])
      invariant forall i :: 0 <= i < n ==> lines[i] == LineOf(indices, raw, redirects[..], i)
    {
      assert choices[k] in choices;
      assert choices[..k + 1][..k] == choices[..k];
      var i, target := choices[k].0, choices[k].1;
      ghost var before := redirects[..];
      lines[i] := RedirectLine(indices[i], indices[target]);
      redirects[i] := Some(target);
      assert redirects[..] == before[i := Some(target)];
    }
    assert choices[..|choices|] == choices;
    if Distinct(indices) {
      DocumentFollows(lines[..], indices, raw, choices);
    }
  }

  // ---------------------------------------------------------------- hop groups

  /** The lines whose link has `hops - 1` entries, in ascending order. */
  function HopLines(links: seq<Option<seq<nat>>>, hops: nat): (r: seq<nat>)
    ensures forall i :: i in r <==> 0 <= i < |links| && links[i].Some? && |links[i].value| + 1 == hops
    ensures forall a, b :: 0 <= a < b < |r| ==> r[a] < r[b]
  {
    if links == [] then []
    else
      var n := |links| - 1;
      var p := HopLines(links[..n], hops);
      assert forall a :: 0 <= a < |p| ==> p[a] in p;
      if links[n].Some? && |links[n].value| + 1 == hops then p + [n] else p
  }

  lemma HopLinesNext(links: seq<Option<seq<nat>>>, i: nat, h: nat)
    requires i < |links|
    ensures HopLines(links[..i + 1], h)
      == HopLines(links[..i], h) + if links[i].Some? && |links[i].value| + 1 == h then [i] else []
  {
    assert links[..i + 1][..i] == links[..i];
  }

  /** Exactly the non-empty groups of the first `i` lines. */
  ghost predicate Grouped(groups: map<nat, seq<nat>>, links: seq<Option<seq<nat>>>, i: nat)
    requires i <= |links|
  {
    forall h :: GroupedAt(groups, links, i, h)
  }

  ghost predicate GroupedAt(groups: map<nat, seq<nat>>, links: seq<Option<seq<nat>>>, i: nat, h: nat)
    requires i <= |links|
  {
    && (h in groups <==> HopLines(links[..i], h) != [])
    && (h in groups ==> groups[h] == HopLines(links[..i], h))
  }

  lemma GroupedNext(groups: map<nat, seq<nat>>, links: seq<Option<seq<nat>>>, i: nat)
    requires i < |links| && Grouped(groups, links, i)
    ensures links[i].None? ==> Grouped(groups, links, i + 1)
    ensures links[i].Some? ==>
      var h := |links[i].value| + 1;
      Grouped(groups[h := (if h in groups then groups[h] else []) + [i]], links, i + 1)
  {
    var j := i + 1;
    if links[i].None? {
      forall g: nat ensures GroupedAt(groups, links, j, g) {
        assert GroupedAt(groups, links, i, g);
        HopLinesNext(links, i, g);
      }
    } else {
      var h := |links[i].value| + 1;
      var more := groups[h := (if h in groups then groups[h] else []) + [i]];
      forall g: nat ensures GroupedAt(more, links, j, g) {
        assert GroupedAt(groups, links, i, g);
        HopLinesNext(links, i, g);
      }
    }
  }

  method GroupByHops(links: seq<Option<seq<nat>>>, rings: set<nat>) returns (groups: map<nat, seq<nat>>)
    requires forall i :: 0 <= i < |links| ==> (i in rings <==> links[i].None?)
    ensures forall h :: h in groups <==> HopLines(links, h) != []
    ensures forall h :: h in groups ==> groups[h] == HopLines(links, h)
  {
    groups := map[];
    for i := 0 to |links|
      invariant Grouped(groups, links, i)
    {
      GroupedNext(groups, links, i);
      if i !in rings {
        var h := |links[i].value| + 1;
        groups := groups[h := (if h in groups then groups[h] else []) + [i]];
      }
    }
    assert links[..|links|] == links;
    forall h: nat ensures h in groups <==> HopLines(links, h) != []
      ensures h in groups ==> groups[h] == HopLines(links, h)
    {
      assert GroupedAt(groups, links, |links|, h);
    }
  }

  /** The groups hold exactly the lines that resolve, each in the one group of its path length + 1. */
  lemma HopGroupsPartition(t: Table, links: seq<Option<seq<nat>>>, i: nat, hops: nat)
    requires WellFormed(t) && |links| == |t| && forall k :: 0 <= k < |t| ==> links[k] == LinkOf(t, k)
    requires i < |t|
    ensures i in HopLines(links, hops)
      <==> Resolves(t, i) && exists p :: IsPath(t, i, p) && |p| + 1 == hops
    ensures i in HopLines(links, hops) ==> 1 <= hops <= |t|
    ensures Resolves(t, i) ==> i in HopLines(links, |WalkFrom(t, i)|)
  {
    RingExactlyWhenUnresolved(t, i);
    if !InRing(t, i) {
      LinkIsThePath(t, i);
      assert IsPath(t, i, links[i].value);
    }
  }

  // ---------------------------------------------------------------- few-shot examples

  ghost predicate IsLargest(m: nat, xs: seq<nat>) {
    m in xs && forall x :: x in xs ==> x <= m
  }

  function Largest(xs: seq<nat>): (m: nat)
    requires xs != []
    ensures IsLargest(m, xs)
  {
    if |xs| == 1 then xs[0]
    else
      var m := Largest(xs[1..]);
      assert xs == [xs[0]] + xs[1..];
      if xs[0] <= m then m else xs[0]
  }

  /** For every line the last line one has to read to resolve it. */
  function Reaches(links: seq<Option<seq<nat>>>): (keys: seq<nat>)
    ensures |keys| == |links|
    ensures forall c :: 0 <= c < |links| && links[c].Some? ==> IsLargest(keys[c], [c] + links[c].value)
  {
    seq(|links|, c requires 0 <= c < |links| => if links[c].Some? then Largest([c] + links[c].value) else c)
  }

  function Key(keys: seq<nat>, c: nat): nat {
    if c < |keys| then keys[c] else c
  }

  /** Line `a` comes before line `b`: by key, and by number where the keys are equal. */
  predicate Before(keys: seq<nat>, a: nat, b: nat) {
    Key(keys, a) < Key(keys, b) || (Key(keys, a) == Key(keys, b) && a < b)
  }

  ghost predicate Ordered(keys: seq<nat>, order: seq<nat>) {
    forall i, j :: 0 <= i < j < |order| ==> Before(keys, order[i], order[j])
  }

  /** `c` behind all entries with no larger key. */
  function InsertByKey(keys: seq<nat>, order: seq<nat>, c: nat): (r: seq<nat>)
    ensures |r| == |order| + 1 && forall x :: x in r <==> x in order || x == c
  {
    if order == [] then [c]
    else
      var n := |order| - 1;
      assert order == order[..n] + [order[n]];
      if Key(keys, order[n]) <= Key(keys, c) then order + [c] else InsertByKey(keys, order[..n], c) + [order[n]]
  }

  lemma {:induction false} InsertPermutes(keys: seq<nat>, order: seq<nat>, c: nat)
    ensures multiset(InsertByKey(keys, order, c)) == multiset(order + [c])
  {
    if order != [] {
      var n := |order| - 1;
      InsertPermutes(keys, order[..n], c);
      assert order == order[..n] + [order[n]];
    }
  }

  lemma {:induction false} InsertOrdered(keys: seq<nat>, order: seq<nat>, c: nat)
    requires Ordered(keys, order) && forall k :: 0 <= k < |order| ==> order[k] < c
    ensures Ordered(keys, InsertByKey(keys, order, c))
  {
    if order != [] {
      var n := |order| - 1;
      if Key(keys, order[n]) > Key(keys, c) {
        var r := InsertByKey(keys, order[..n], c);
        InsertOrdered(keys, order[..n], c);
        forall k | 0 <= k < |r| ensures Before(keys, r[k], order[n]) {
          assert r[k] in order[..n] || r[k] == c;
        }
      }
    }
  }

  /** The stable sort by a key. */
  function SortedByKey(keys: seq<nat>, cs: seq<nat>): (r: seq<nat>)
    ensures |r| == |cs| && forall x :: x in r <==> x in cs
  {
    if cs == [] then []
    else
      var n := |cs| - 1;
      assert cs == cs[..n] + [cs[n]];
      InsertByKey(keys, SortedByKey(keys, cs[..n]), cs[n])
  }

  /** Candidates that come in ascending order are sorted by key, then by number. */
  lemma {:induction false} CandidateOrder(keys: seq<nat>, cs: seq<nat>)
    requires forall i, j :: 0 <= i < j < |cs| ==> cs[i] < cs[j]
    ensures Ordered(keys, SortedByKey(keys, cs))
    ensures multiset(SortedByKey(keys, cs)) == multiset(cs)
  {
    if cs != [] {
      var n := |cs| - 1;
      var r := SortedByKey(keys, cs[..n]);
      CandidateOrder(keys, cs[..n]);
      forall k | 0 <= k < |r| ensures r[k] < cs[n] {
        assert r[k] in cs[..n];
      }
      InsertOrdered(keys, r, cs[n]);
      InsertPermutes(keys, r, cs[n]);
      assert cs == cs[..n] + [cs[n]];
    }
  }

  /** The three example lines; None where the source runs out of its lists. */
  function Examples(one: seq<nat>, two: seq<nat>): (r: Option<seq<nat>>)
    ensures r.None? <==> |one| < 6 || |two| == 1 || (two == [] && |one| < 11)
    ensures r.Some? ==> |r.value| == 3 && forall i :: i in r.value ==> i in one || i in two
  {
    if |one| <= 5 then None
    else if two != [] then if |two| < 2 then None else Some([one[5], two[0], two[1]])
    else if |one| <= 10 then None else Some([one[5], one[1], one[10]])
  }

  // ---------------------------------------------------------------- the whole object

  /** `examples` are the names and values put into the few-shot suffix. */
  datatype LineObject = LineObject(indices: seq<string>, lines: seq<Line>, values: seq<string>,
                                   links: seq<Option<seq<nat>>>, groups: map<nat, seq<nat>>, rings: set<nat>,
                                   examples: seq<(string, string)>)

  /** A group that is present, possibly empty, holds the lines of that many hops; none is missing. */
  ghost predicate GroupsHold(groups: map<nat, seq<nat>>, links: seq<Option<seq<nat>>>) {
    && (forall h :: HopLines(links, h) != [] ==> h in groups)
    && (forall h :: h in groups ==> groups[h] == HopLines(links, h))
  }

  ghost predicate Generated(obj: LineObject, raw: seq<string>, t: Table) {
    && WellFormed(t) && Distinct(obj.indices)
    && |obj.indices| == |raw| == |t| == |obj.lines| == |obj.values| == |obj.links|
    && (forall i :: 0 <= i < |t| ==> obj.lines[i] == LineOf(obj.indices, raw, t, i))
    && (forall i :: 0 <= i < |t| ==> obj.values[i] == raw[Destination(t, i)])
    && (forall i :: 0 <= i < |t| ==> obj.links[i] == LinkOf(t, i))
    && (forall i :: i in obj.rings <==> 0 <= i < |t| && InRing(t, i))
    && GroupsHold(obj.groups, obj.links)
  }

  /** The examples are the lines `ls`, named and resolved. */
  ghost predicate Shows(obj: LineObject, raw: seq<string>, t: Table, ls: seq<nat>) {
    && Generated(obj, raw, t) && |obj.examples| == |ls|
    && forall k :: 0 <= k < |ls| ==>
         ls[k] < |t| && !InRing(t, ls[k]) && obj.examples[k] == (obj.indices[ls[k]], raw[Destination(t, ls[k])])
  }

  /** Looking a group up adds it, empty, if it is not there. */
  method LookUp(groups: map<nat, seq<nat>>, links: seq<Option<seq<nat>>>, h: nat)
    returns (after: map<nat, seq<nat>>, group: seq<nat>)
    requires GroupsHold(groups, links)
    ensures group == HopLines(links, h) && h in after && after.Keys == groups.Keys + {h}
    ensures GroupsHold(after, links)
  {
    after := if h in groups then groups else groups[h := []];
    group := after[h];
  }

  /** The candidates with `hops` hops, in the order the examples are taken from. */
  ghost function CandidatesIn(links: seq<Option<seq<nat>>>, hops: nat): seq<nat> {
    SortedByKey(Reaches(links), HopLines(links, hops))
  }

  ghost function Picked(links: seq<Option<seq<nat>>>): Option<seq<nat>> {
    Examples(CandidatesIn(links, 1), CandidatesIn(links, 2))
  }

  /** How many lines of a group come before line `x` in the order of the keys. */
  ghost function Rank(keys: seq<nat>, group: seq<nat>, x: nat): nat {
    |set y | y in group && Before(keys, y, x)|
  }

  lemma RankInOrder(keys: seq<nat>, group: seq<nat>, order: seq<nat>, k: nat)
    requires Ordered(keys, order) && k < |order| && forall x :: x in order <==> x in group
    ensures Rank(keys, group, order[k]) == k
  {
    var first := order[..k];
    assert Distinct(first);
    DistinctSize(first);
    forall y ensures y in first <==> y in group && Before(keys, y, order[k]) {
      if y in group {
        var m :| 0 <= m < |order| && order[m] == y;
        assert m < k ==> first[m] == y;
        assert m > k ==> Before(keys, order[k], order[m]);
      }
    }
    assert (set y | y in group && Before(keys, y, order[k])) == Elements(first);
  }

  lemma CandidateRank(links: seq<Option<seq<nat>>>, hops: nat, k: nat)
    requires k < |CandidatesIn(links, hops)|
    ensures Rank(Reaches(links), HopLines(links, hops), CandidatesIn(links, hops)[k]) == k
  {
    CandidateOrder(Reaches(links), HopLines(links, hops));
    RankInOrder(Reaches(links), HopLines(links, hops), CandidatesIn(links, hops), k);
  }

  /** The examples by rank in their groups, ordered by the last line one has to read: one-hop line 5, then
      two-hop lines 0 and 1, or one-hop lines 1 and 10 if there are no two-hop lines. */
  lemma PickedRanks(links: seq<Option<seq<nat>>>, ls: seq<nat>)
    requires Picked(links) == Some(ls)
    ensures var keys, one, two := Reaches(links), HopLines(links, 1), HopLines(links, 2);
      && |ls| == 3 && ls[0] in one && Rank(keys, one, ls[0]) == 5
      && (if two != [] then ls[1] in two && ls[2] in two && Rank(keys, two, ls[1]) == 0 && Rank(keys, two, ls[2]) == 1
          else ls[1] in one && ls[2] in one && Rank(keys, one, ls[1]) == 1 && Rank(keys, one, ls[2]) == 10)
  {
    CandidateRank(links, 1, 5);
    if HopLines(links, 2) != [] {
      CandidateRank(links, 2, 0);
      CandidateRank(links, 2, 1);
    } else {
      CandidateRank(links, 1, 1);
      CandidateRank(links, 1, 10);
    }
  }

  method PickExamples(links: seq<Option<seq<nat>>>, groups: map<nat, seq<nat>>)
    returns (after: map<nat, seq<nat>>, picked: Option<seq<nat>>)
    requires GroupsHold(groups, links)
    ensures after.Keys == groups.Keys + {1, 2}
    ensures GroupsHold(after, links)
    ensures picked == Picked(links)
  {
    var one, two;
    after, one := LookUp(groups, links, 1);
    one := SortedByKey(Reaches(links), one);
    after, two := LookUp(after, links, 2);
    two := SortedByKey(Reaches(links), two);
    picked := Examples(one, two);
  }

  lemma PickedResolve(t: Table, links: seq<Option<seq<nat>>>, i: nat)
    requires WellFormed(t) && |links| == |t| && forall k :: 0 <= k < |t| ==> links[k] == LinkOf(t, k)
    requires i in CandidatesIn(links, 1) || i in CandidatesIn(links, 2)
    ensures i < |t| && !InRing(t, i)
  {
    assert i in HopLines(links, 1) || i in HopLines(links, 2);
  }

  /** The links of a table. */
  ghost function LinksOf(t: Table): (r: seq<Option<seq<nat>>>)
    requires WellFormed(t)
    ensures |r| == |t| && forall k :: 0 <= k < |t| ==> r[k] == LinkOf(t, k)
  {
    seq(|t|, k requires 0 <= k < |t| => LinkOf(t, k))
  }

  function Named(indices: seq<string>, values: seq<string>, ls: seq<nat>): (r: seq<(string, string)>)
    requires |indices| == |values| && forall k :: 0 <= k < |ls| ==> ls[k] < |indices|
    ensures |r| == |ls| && forall k :: 0 <= k < |ls| ==> r[k] == (indices[ls[k]], values[ls[k]])
  {
    seq(|ls|, k requires 0 <= k < |ls| => (indices[ls[k]], values[ls[k]]))
  }

  /** Everything but the examples; only non-empty groups are there yet. */
  method BuildObject(indices: seq<string>, raw: seq<string>, choices: seq<(nat, nat)>) returns (obj: LineObject)
    requires |indices| == |raw| && Distinct(indices)
    requires forall c :: c in choices ==> c.0 < |indices| && c.1 < |indices|
    ensures obj.indices == indices && Generated(obj, raw, TableOf(|indices|, choices))
    ensures obj.links == LinksOf(TableOf(|indices|, choices))
    ensures forall h :: h in obj.groups <==> HopLines(obj.links, h) != []
  {
    var n := |indices|;
    var lines := new Line[n](i requires 0 <= i < n => ValueLine(indices[i], raw[i]));
    var redirects := new Option<nat>[n](_ => None);
    var values := new string[n](i requires 0 <= i < n => raw[i]);
    AddRedirects(lines, redirects, indices, raw, choices);
    var t := redirects[..];
    var links, rings := BuildLinks(t, values);
    var groups := GroupByHops(links, rings);
    obj := LineObject(indices, lines[..], values[..], links, groups, rings, []);
  }

  lemma PickedShow(obj: LineObject, raw: seq<string>, t: Table, groups: map<nat, seq<nat>>, ls: seq<nat>)
    requires Generated(obj, raw, t)
    requires Picked(obj.links) == Some(ls)
    requires GroupsHold(groups, obj.links)
    ensures forall k :: 0 <= k < |ls| ==> ls[k] < |t| && !InRing(t, ls[k])
    ensures Shows(obj.(groups := groups, examples := Named(obj.indices, obj.values, ls)), raw, t, ls)
  {
    forall k | 0 <= k < |ls| ensures ls[k] < |t| && !InRing(t, ls[k]) {
      assert ls[k] in ls;
      PickedResolve(t, obj.links, ls[k]);
    }
  }

  /** The groups that have lines, and those of one and of two hops in any case. */
  ghost predicate GroupsLookedUp(groups: map<nat, seq<nat>>, links: seq<Option<seq<nat>>>) {
    forall h :: h in groups <==> h == 1 || h == 2 || HopLines(links, h) != []
  }

  /** What `generate_lines` returns for a table: None exactly where the example lists run out; the looked-up
      groups 1 and 2 are there even if they are empty. */
  ghost predicate Finished(r: Option<LineObject>, indices: seq<string>, raw: seq<string>, t: Table) {
    WellFormed(t) &&
    var links := LinksOf(t);
    var picked := Picked(links);
    match r
    case None => picked.None?
    case Some(obj) =>
      && picked.Some? && obj.indices == indices && Shows(obj, raw, t, picked.value)
      && GroupsLookedUp(obj.groups, links)
  }

  lemma LookedUp(before: map<nat, seq<nat>>, after: map<nat, seq<nat>>, links: seq<Option<seq<nat>>>)
    requires forall h :: h in before <==> HopLines(links, h) != []
    requires after.Keys == before.Keys + {1, 2}
    ensures GroupsLookedUp(after, links)
  {
  }

  method WithExamples(obj: LineObject, ghost raw: seq<string>, ghost t: Table) returns (r: Option<LineObject>)
    requires Generated(obj, raw, t) && obj.links == LinksOf(t)
    requires forall h :: h in obj.groups <==> HopLines(obj.links, h) != []
    ensures Finished(r, obj.indices, raw, t)
  {
    var groups, picked := PickExamples(obj.links, obj.groups);
    if picked.None? {
      return None;
    }
    PickedShow(obj, raw, t, groups, picked.value);
    LookedUp(obj.groups, groups, obj.links);
    r := Some(obj.(groups := groups, examples := Named(obj.indices, obj.values, picked.value)));
  }

  method GenerateLines(indices: seq<string>, raw: seq<string>, choices: seq<(nat, nat)>)
    returns (r: Option<LineObject>)
    requires |indices| == |raw| && Distinct(indices)
    requires forall c :: c in choices ==> c.0 < |indices| && c.1 < |indices|
    ensures Finished(r, indices, raw, TableOf(|indices|, choices))
    ensures r.Some? ==> Document(r.value.lines, indices, raw, choices)
  {
    var obj := BuildObject(indices, raw, choices);
    r := WithExamples(obj, raw, TableOf(|indices|, choices));
    if r.Some? {
      DocumentFollows(r.value.lines, indices, raw, choices);
    }
  }
}
