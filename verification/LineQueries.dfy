/** The query side of the line-retrieval benchmark: `eval_model` picks a line of a hop group, cuts
    the document behind a source line, and expects the line's resolved value as the answer. */
module LineQueries {
  import opened Collections
  import opened Text
  import opened Redirects

  // ---------------------------------------------------------------- choosing a query

  predicate Within(link: Option<seq<nat>>, src: int) {
    link.Some? && forall l :: l in link.value ==> l <= src
  }

  predicate Qualifies(links: seq<Option<seq<nat>>>, src: int, q: nat) {
    q < |links| && Within(links[q], src) && q < src
  }

  function Filtered(links: seq<Option<seq<nat>>>, group: seq<nat>, src: int): (r: seq<nat>)
    ensures forall q :: q in r <==> q in group && Qualifies(links, src, q)
  {
    if group == [] then []
    else
      var n := |group| - 1;
      assert forall q :: q in group <==> q in group[..n] || q == group[n];
      var p := Filtered(links, group[..n], src);
      if Qualifies(links, src, group[n]) then p + [group[n]] else p
  }

  /** How many of the first `k` entries of the group qualify. */
  function QualifyingBefore(links: seq<Option<seq<nat>>>, group: seq<nat>, src: int, k: nat): nat
    requires k <= |group|
  {
    if k == 0 then 0 else QualifyingBefore(links, group, src, k - 1) + One(Qualifies(links, src, group[k - 1]))
  }

  lemma FilteredNext(links: seq<Option<seq<nat>>>, group: seq<nat>, src: int, k: nat)
    requires k < |group|
    ensures Filtered(links, group[..k + 1], src)
      == Filtered(links, group[..k], src) + if Qualifies(links, src, group[k]) then [group[k]] else []
  {
    assert group[..k + 1][..k] == group[..k];
  }

  lemma {:induction false} FilteredSize(links: seq<Option<seq<nat>>>, group: seq<nat>, src: int, k: nat)
    requires k <= |group|
    ensures |Filtered(links, group[..k], src)| == QualifyingBefore(links, group, src, k)
  {
    if k > 0 {
      FilteredSize(links, group, src, k - 1);
      FilteredNext(links, group, src, k - 1);
    }
  }

  lemma {:induction false} FilteredPrefix(links: seq<Option<seq<nat>>>, group: seq<nat>, src: int, k: nat)
    requires k <= |group|
    ensures Filtered(links, group[..k], src) <= Filtered(links, group, src)
    decreases |group| - k
  {
    if k == |group| {
      assert group[..k] == group;
    } else {
      FilteredPrefix(links, group, src, k + 1);
      FilteredNext(links, group, src, k);
    }
  }

  /** The filter keeps order and repetitions: a qualifying entry stands behind exactly those before it that
      qualify. */
  lemma FilteredInOrder(links: seq<Option<seq<nat>>>, group: seq<nat>, src: int, k: nat)
    requires k < |group| && Qualifies(links, src, group[k])
    ensures var r := QualifyingBefore(links, group, src, k);
      r < |Filtered(links, group, src)| && Filtered(links, group, src)[r] == group[k]
    ensures |Filtered(links, group, src)| == QualifyingBefore(links, group, src, |group|)
  {
    FilteredSize(links, group, src, k);
    FilteredNext(links, group, src, k);
    FilteredPrefix(links, group, src, k + 1);
    FilteredSize(links, group, src, |group|);
    assert group[..|group|] == group;
  }

  lemma {:induction false} FilteredAscending(links: seq<Option<seq<nat>>>, group: seq<nat>, src: int)
    requires forall a, b :: 0 <= a < b < |group| ==> group[a] < group[b]
    ensures forall a, b :: 0 <= a < b < |Filtered(links, group, src)| ==>
      Filtered(links, group, src)[a] < Filtered(links, group, src)[b]
  {
    if group != [] {
      var n := |group| - 1;
      var p := Filtered(links, group[..n], src);
      FilteredAscending(links, group[..n], src);
      forall a | 0 <= a < |p| ensures p[a] < group[n] {
        assert p[a] in group[..n];
      }
    }
  }

  function Candidates(obj: LineObject, hops: nat, src: int): seq<nat> {
    if hops in obj.groups then Filtered(obj.links, obj.groups[hops], src) else []
  }

  /** The document up to and including the source line; a negative end counts from the back, as slices do. */
  function Body(lines: seq<Line>, src: int): (r: seq<Line>)
    ensures r <= lines
    ensures src >= 0 ==> |r| == if src < |lines| then src + 1 else |lines|
  {
    var end := if src + 1 >= 0 then src + 1 else |lines| + src + 1;
    if end > |lines| then lines else if end >= 0 then lines[..end] else []
  }

  datatype Query = Query(dst: nat, expected: string, name: string,
                         body0: seq<Line>, body1: seq<Line>, body2: seq<Line>, body3: seq<Line>)

  method QueryIndices(obj: LineObject, group: seq<nat>, src: int) returns (r: seq<nat>)
    ensures r == Filtered(obj.links, group, src)
  {
    r := [];
    for k := 0 to |group|
      invariant r == Filtered(obj.links, group[..k], src)
    {
      assert group[..k + 1][..k] == group[..k];
      if Qualifies(obj.links, src, group[k]) {
        r := r + [group[k]];
      }
    }
    assert group[..|group|] == group;
  }

  method Quarters<T>(body: seq<T>) returns (b0: seq<T>, b1: seq<T>, b2: seq<T>, b3: seq<T>)
    ensures b0 + b1 + b2 + b3 == body
    ensures |b0| == |b1| == |b2| <= |b3| < |b0| + 4
  {
    var part := |body| / 4;
    b0, b1, b2, b3 := body[..part], body[part..2 * part], body[2 * part..3 * part], body[3 * part..];
  }

  /** The entry a fraction of the way through the candidates, or the last one. */
  function Position(n: nat, percent: real): (k: nat)
    requires n > 0 && percent >= 0.0
    ensures k < n && k as real <= n as real * percent
    ensures k == n - 1 || n as real * percent < (k + 1) as real
  {
    var p := (n as real * percent).Floor;
    if p < n then p else n - 1
  }

  /** None is the lookup error the source runs into when no line of the group qualifies. */
  method SelectQuery(obj: LineObject, ghost raw: seq<string>, ghost t: Table, hops: nat, src: int, percent: real)
    returns (r: Option<Query>)
    requires Generated(obj, raw, t) && percent >= 0.0
    ensures r.None? <==> Candidates(obj, hops, src) == []
    ensures r.Some? ==>
      var c, q := Candidates(obj, hops, src), r.value;
      && (forall a, b :: 0 <= a < b < |c| ==> c[a] < c[b])
      && q.dst == c[Position(|c|, percent)] && q.dst < src
      && q.dst < |t| && q.expected == obj.values[q.dst] && q.name == obj.indices[q.dst]
      && q.body0 + q.body1 + q.body2 + q.body3 == Body(obj.lines, src)
      && |q.body0| == |q.body1| == |q.body2| <= |q.body3| < |q.body0| + 4
  {
    if hops !in obj.groups {
      return None;
    }
    var queryIndices := QueryIndices(obj, obj.groups[hops], src);
    if queryIndices == [] {
      return None;
    }
    FilteredAscending(obj.links, obj.groups[hops], src);
    var dst := queryIndices[Position(|queryIndices|, percent)];
    assert dst in queryIndices;
    var b0, b1, b2, b3 := Quarters(Body(obj.lines, src));
    r := Some(Query(dst, obj.values[dst], obj.indices[dst], b0, b1, b2, b3));
  }

  // ---------------------------------------------------------------- reading the answer off the document

  /** Reading `name` in `doc` through the lines at positions `ps`, one redirect after the other,
      arrives at the value `v`. */
  ghost predicate Reads(doc: seq<Line>, name: string, ps: seq<nat>, v: string)
    decreases |ps|
  {
    && ps != [] && ps[0] < |doc| && doc[ps[0]].index == name
    && match doc[ps[0]]
       case ValueLine(_, x) => |ps| == 1 && v == x
       case RedirectLine(_, target) => Reads(doc, target, ps[1..], v)
  }

  lemma {:induction false} PathReads(obj: LineObject, raw: seq<string>, t: Table, src: int, i: nat, p: seq<nat>)
    requires Generated(obj, raw, t) && IsPath(t, i, p)
    requires forall k :: k in [i] + p ==> k < |Body(obj.lines, src)|
    ensures Last([i] + p) < |raw|
    ensures Reads(Body(obj.lines, src), obj.indices[i], [i] + p, raw[Last([i] + p)])
    decreases |p|
  {
    var doc := Body(obj.lines, src);
    assert i in [i] + p;
    assert doc[i] == LineOf(obj.indices, raw, t, i);
    if p != [] {
      assert forall k :: k in [p[0]] + p[1..] ==> k in [i] + p;
      PathReads(obj, raw, t, src, p[0], p[1..]);
      assert [p[0]] + p[1..] == p && ([i] + p)[1..] == p;
      assert Last([i] + p) == Last(p);
    }
  }

  lemma {:induction false} ReadsIsPath(obj: LineObject, raw: seq<string>, t: Table, src: int, i: nat,
                                       ps: seq<nat>, v: string)
    requires Generated(obj, raw, t) && i < |t| && Reads(Body(obj.lines, src), obj.indices[i], ps, v)
    ensures ps[0] == i && IsPath(t, i, ps[1..])
    ensures Last(ps) < |raw| && v == raw[Last(ps)]
    ensures forall k :: k in ps ==> k < |Body(obj.lines, src)|
    decreases |ps|
  {
    var doc := Body(obj.lines, src);
    assert doc[ps[0]] == LineOf(obj.indices, raw, t, ps[0]);
    assert ps == [ps[0]] + ps[1..];
    if t[i].Some? {
      ReadsIsPath(obj, raw, t, src, t[i].value, ps[1..], v);
      assert Last(ps) == Last(ps[1..]);
    }
  }

  lemma {:induction false} PathInDocument(obj: LineObject, raw: seq<string>, t: Table, i: nat, p: seq<nat>)
    requires Generated(obj, raw, t) && IsPath(t, i, p)
    ensures forall k :: k in [i] + p ==> k < |obj.lines|
    decreases |p|
  {
    if p != [] {
      PathInDocument(obj, raw, t, p[0], p[1..]);
      assert p == [p[0]] + p[1..];
    }
  }

  lemma QualifiedReads(obj: LineObject, raw: seq<string>, t: Table, src: int, q: nat)
    requires Generated(obj, raw, t) && Qualifies(obj.links, src, q)
    ensures Reads(Body(obj.lines, src), obj.indices[q], [q] + obj.links[q].value, obj.values[q])
  {
    var p := obj.links[q].value;
    LinkIsThePath(t, q);
    PathInDocument(obj, raw, t, q, p);
    PathReads(obj, raw, t, src, q, p);
  }

  lemma ReadingIsTheLink(obj: LineObject, raw: seq<string>, t: Table, src: int, q: nat, ps: seq<nat>, v: string)
    requires Generated(obj, raw, t) && q < |t| && src >= 0 && Reads(Body(obj.lines, src), obj.indices[q], ps, v)
    ensures Within(obj.links[q], src) && ps == [q] + obj.links[q].value && v == obj.values[q]
  {
    ReadsIsPath(obj, raw, t, src, q, ps, v);
    ResolvesByPath(t, q, ps[1..]);
    RingExactlyWhenUnresolved(t, q);
    LinkIsThePath(t, q);
    assert ps == [q] + ps[1..];
    assert forall l :: l in ps[1..] ==> l in ps;
  }

  /** Every query that can be selected is answerable from the truncated document alone, over as many
      lines as its group says, and whatever way it is read there, the value found is the expected
      one, although `values` was overwritten in place. */
  lemma QueryHasOneAnswer(obj: LineObject, raw: seq<string>, t: Table, hops: nat, src: int, q: nat)
    requires Generated(obj, raw, t) && q in Candidates(obj, hops, src)
    ensures q < |t| && obj.links[q].Some? && |[q] + obj.links[q].value| == hops
    ensures Reads(Body(obj.lines, src), obj.indices[q], [q] + obj.links[q].value, obj.values[q])
    ensures forall ps, v :: Reads(Body(obj.lines, src), obj.indices[q], ps, v) ==>
                              ps == [q] + obj.links[q].value && v == obj.values[q]
  {
    QualifiedReads(obj, raw, t, src, q);
    forall ps, v | Reads(Body(obj.lines, src), obj.indices[q], ps, v)
      ensures ps == [q] + obj.links[q].value && v == obj.values[q]
    {
      ReadingIsTheLink(obj, raw, t, src, q, ps, v);
    }
  }

  ghost predicate Readable(doc: seq<Line>, name: string) {
    exists ps, v :: Reads(doc, name, ps, v)
  }

  /** The filter is exact: a line of the group passes it if and only if it stands before the source line and
      its name can be resolved inside the truncated document. */
  lemma FilterIsExact(obj: LineObject, raw: seq<string>, t: Table, group: seq<nat>, src: int, q: nat)
    requires Generated(obj, raw, t) && q < |t|
    ensures q in Filtered(obj.links, group, src)
      <==> q in group && q < src && Readable(Body(obj.lines, src), obj.indices[q])
  {
    if Qualifies(obj.links, src, q) {
      QualifiedReads(obj, raw, t, src, q);
    }
    if q < src && Readable(Body(obj.lines, src), obj.indices[q]) {
      var ps, v :| Reads(Body(obj.lines, src), obj.indices[q], ps, v);
      ReadingIsTheLink(obj, raw, t, src, q, ps, v);
    }
  }

  lemma {:induction false} ResolvesByPath(t: Table, i: nat, p: seq<nat>)
    requires WellFormed(t) && IsPath(t, i, p)
    ensures t[Follow(t, i, |p|)].None?
    decreases |p|
  {
    if p != [] {
      ResolvesByPath(t, p[0], p[1..]);
      FollowShift(t, i, |p| - 1);
    } else {
      assert Follow(t, i, 0) == i;
    }
  }

  lemma {:induction false} FollowShift(t: Table, i: nat, k: nat)
    requires WellFormed(t) && i < |t| && t[i].Some?
    ensures Follow(t, i, k + 1) == Follow(t, t[i].value, k)
  {
    if k == 0 {
      assert Follow(t, i, 0) == i;
    } else {
      FollowShift(t, i, k - 1);
    }
  }
}
