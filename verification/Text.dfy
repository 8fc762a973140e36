/** Python's `str.find`, `str.split` and `str.join` for a non-empty separator, written out over
    sequences of characters, with the laws the text-rewriting modules need. */
module Text {

  datatype Option<+T> = None | Some(value: T)

  /** `p` occurs in `s` starting at index `i`. */
  predicate At(s: string, p: string, i: nat) {
    i + |p| <= |s| && s[i..i + |p|] == p
  }

  predicate Contains(s: string, p: string) {
    exists i :: 0 <= i <= |s| && At(s, p, i)
  }

  lemma DropSlice(s: string, n: nat, a: nat, b: nat)
    requires a <= b && n + b <= |s|
    ensures s[n..][a..b] == s[n + a..n + b]
  {
  }

  /** Occurrences behind a dropped prefix. */
  lemma AtDrop(s: string, p: string, n: nat, i: nat)
    requires n <= i && n <= |s|
    ensures At(s, p, i) == At(s[n..], p, i - n)
  {
    if i + |p| <= |s| { DropSlice(s, n, i - n, i - n + |p|); }
  }

  /** The first occurrence of `sep` at or behind `i`. */
  function FindFrom(s: string, sep: string, i: nat): (r: Option<nat>)
    ensures r.Some? ==> i <= r.value && At(s, sep, r.value) && forall j :: i <= j < r.value ==> !At(s, sep, j)
    ensures r.None? ==> forall j :: i <= j <= |s| ==> !At(s, sep, j)
    decreases |s| - i
  {
    if i + |sep| > |s| then None
    else if s[i..i + |sep|] == sep then Some(i)
    else if i == |s| then None
    else FindFrom(s, sep, i + 1)
  }

  /** The first occurrence of `sep`. */
  function Find(s: string, sep: string): (r: Option<nat>)
    ensures r.Some? ==> At(s, sep, r.value) && forall j :: 0 <= j < r.value ==> !At(s, sep, j)
    ensures r.None? ==> !Contains(s, sep)
  {
    FindFrom(s, sep, 0)
  }

  /** `s.split(sep)`: cut at the leftmost occurrence and go on behind it. */
  function Split(s: string, sep: string): (pieces: seq<string>)
    requires sep != []
    ensures pieces != []
    decreases |s|
  {
    match Find(s, sep)
    case None => [s]
    case Some(k) => [s[..k]] + Split(s[k + |sep|..], sep)
  }

  /** `sep.join(pieces)`. */
  function Join(pieces: seq<string>, sep: string): string
    requires pieces != []
  {
    if |pieces| == 1 then pieces[0] else pieces[0] + sep + Join(pieces[1..], sep)
  }

  /** The first character of `sep` does not come back later in `sep`, so occurrences of `sep`
      never overlap each other. */
  predicate HeadUnique(sep: string) {
    sep != [] && forall i :: 0 < i < |sep| ==> sep[i] != sep[0]
  }

  /** No piece contains the separator. */
  ghost predicate Clean(pieces: seq<string>, sep: string) {
    forall i :: 0 <= i < |pieces| ==> !Contains(pieces[i], sep)
  }

  lemma JoinCons(p: string, pieces: seq<string>, sep: string)
    requires pieces != []
    ensures Join([p] + pieces, sep) == p + sep + Join(pieces, sep)
  {
    assert ([p] + pieces)[1..] == pieces;
  }

  lemma AtCut(s: string, sep: string, k: nat)
    requires At(s, sep, k)
    ensures s == s[..k] + sep + s[k + |sep|..]
  {
  }

  lemma {:induction false} JoinSplit(s: string, sep: string)
    requires sep != []
    ensures Join(Split(s, sep), sep) == s
    decreases |s|
  {
    var f := Find(s, sep);
    if f.Some? {
      var rest := s[f.value + |sep|..];
      JoinSplit(rest, sep);
      JoinCons(s[..f.value], Split(rest, sep), sep);
      AtCut(s, sep, f.value);
    }
  }

  lemma {:induction false} SplitClean(s: string, sep: string)
    requires sep != []
    ensures Clean(Split(s, sep), sep)
    decreases |s|
  {
    var f := Find(s, sep);
    if f.Some? {
      var k := f.value;
      SplitClean(s[k + |sep|..], sep);
      forall j | 0 <= j <= k && At(s[..k], sep, j) ensures false {
        assert s[..k][j..j + |sep|] == s[j..j + |sep|];
        assert At(s, sep, j);
      }
    }
  }

  lemma FindUnique(s: string, sep: string, k: nat)
    requires At(s, sep, k)
    requires forall j :: 0 <= j < k ==> !At(s, sep, j)
    ensures Find(s, sep) == Some(k)
  {
    assert Contains(s, sep);
  }

  /** Behind a prefix that does not contain the separator, the separator is found right there. */
  lemma FindAtJunction(p: string, sep: string, rest: string)
    requires HeadUnique(sep) && !Contains(p, sep)
    ensures Find(p + sep + rest, sep) == Some(|p|)
  {
    var s := p + sep + rest;
    assert At(s, sep, |p|);
    forall j | 0 <= j < |p| ensures !At(s, sep, j) {
      if j + |sep| <= |p| {
        assert s[j..j + |sep|] == p[j..j + |sep|];
        assert !At(p, sep, j);
      } else if j + |sep| <= |s| {
        assert s[j..j + |sep|][|p| - j] == sep[0] != sep[|p| - j];
      }
    }
    FindUnique(s, sep, |p|);
  }

  /** Splitting undoes joining for pieces that do not contain the separator. */
  lemma {:induction false} SplitJoin(pieces: seq<string>, sep: string)
    requires HeadUnique(sep) && pieces != [] && Clean(pieces, sep)
    ensures Split(Join(pieces, sep), sep) == pieces
  {
    var p := pieces[0];
    if |pieces| == 1 {
      if Find(p, sep).Some? { assert Contains(p, sep); }
    } else {
      var rest := Join(pieces[1..], sep);
      FindAtJunction(p, sep, rest);
      SplitJoin(pieces[1..], sep);
      assert (p + sep + rest)[..|p|] == p;
      assert (p + sep + rest)[|p| + |sep|..] == rest;
    }
  }

  lemma FindInPrefix(pre: string, sep: string, tail: string)
    requires Find(pre, sep).Some?
    ensures Find(pre + tail, sep) == Find(pre, sep)
  {
    var s, k := pre + tail, Find(pre, sep).value;
    forall j | 0 <= j <= k ensures At(s, sep, j) == At(pre, sep, j) {
      if j + |sep| <= |pre| { assert s[j..j + |sep|] == pre[j..j + |sep|]; }
    }
    FindUnique(s, sep, k);
  }

  lemma SplitCut(s: string, sep: string, p: string, rest: string)
    requires sep != [] && s == p + sep + rest && Find(s, sep) == Some(|p|)
    ensures Split(s, sep) == [p] + Split(rest, sep)
  {
    assert s[..|p|] == p && s[|p| + |sep|..] == rest;
  }

  lemma ConcatAssociative<T>(a: seq<T>, b: seq<T>, c: seq<T>)
    ensures a + (b + c) == a + b + c
  {
  }

  lemma Regroup(p: string, sep: string, pre': string, rest: string)
    ensures (p + sep + pre') + sep + rest == p + sep + (pre' + sep + rest)
    ensures (p + sep + pre') + sep + rest == (p + sep + pre') + (sep + rest)
  {
  }

  lemma SplitFirst(pre: string, sep: string, rest: string, p: string, pre': string)
    requires sep != [] && pre == p + sep + pre' && Find(pre, sep) == Some(|p|)
    ensures Split(pre, sep) == [p] + Split(pre', sep)
    ensures Split(pre + sep + rest, sep) == [p] + Split(pre' + sep + rest, sep)
  {
    SplitCut(pre, sep, p, pre');
    Regroup(p, sep, pre', rest);
    FindInPrefix(pre, sep, sep + rest);
    SplitCut(pre + sep + rest, sep, p, pre' + sep + rest);
  }

  /** A separator in the text is always a cut: what stands before and behind it is split on its own. */
  lemma {:induction false} SplitAtSeparator(pre: string, sep: string, rest: string)
    requires HeadUnique(sep)
    ensures Split(pre + sep + rest, sep) == Split(pre, sep) + Split(rest, sep)
    decreases |pre|
  {
    var s := pre + sep + rest;
    var f := Find(pre, sep);
    if f.None? {
      FindAtJunction(pre, sep, rest);
      SplitCut(s, sep, pre, rest);
    } else {
      var p, pre' := pre[..f.value], pre[f.value + |sep|..];
      AtCut(pre, sep, f.value);
      SplitFirst(pre, sep, rest, p, pre');
      SplitAtSeparator(pre', sep, rest);
      ConcatAssociative([p], Split(pre', sep), Split(rest, sep));
    }
  }

  /** Nesting depth of braces: opening ones minus closing ones. */
  function Depth(s: string): int {
    if s == [] then 0
    else Depth(s[..|s| - 1]) + (match s[|s| - 1] case '{' => 1 case '}' => -1 case _ => 0)
  }

  /** Every closing brace has its opening brace before it, and none is left open. */
  ghost predicate Balanced(s: string) {
    Depth(s) == 0 && forall k :: 0 <= k <= |s| ==> Depth(s[..k]) >= 0
  }

  lemma {:induction false} DepthConcat(a: string, b: string)
    ensures Depth(a + b) == Depth(a) + Depth(b)
    decreases |b|
  {
    if b == [] {
      assert a + b == a;
    } else {
      DepthConcat(a, b[..|b| - 1]);
      assert (a + b)[..|a + b| - 1] == a + b[..|b| - 1];
    }
  }
}
