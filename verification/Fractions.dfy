/** `_fix_fracs`: puts braces around bare arguments of `\frac`, by splitting the text at `\frac`
    and rebuilding it piece by piece. */
module Fractions {
  import opened Text

  const FRAC: string := "\\frac"

  predicate OpensGroup(p: string) {
    p != [] && p[0] == '{'
  }

  /** What becomes of the text behind one `\frac`; None where the loop gives up. */
  function FixPiece(p: string): (r: Option<string>)
    ensures r.Some? <==> OpensGroup(p) || |p| >= 2
    ensures r.Some? ==> OpensGroup(r.value)
    ensures OpensGroup(p) ==> r == Some(p)
  {
    if |p| > 0 && p[0] == '{' then Some(p)
    else if |p| < 2 then None
    else if p[1] != '{' then Some("{" + [p[0]] + "}{" + [p[1]] + "}" + p[2..])
    else Some("{" + [p[0]] + "}" + p[1..])
  }

  /** Each piece starts with an opening brace or has at least two characters. */
  predicate Fixable(ps: seq<string>) {
    forall i :: 0 <= i < |ps| ==> OpensGroup(ps[i]) || |ps[i]| >= 2
  }

  function FixPieces(ps: seq<string>): (r: seq<string>)
    requires Fixable(ps)
  {
    seq(|ps|, i requires 0 <= i < |ps| => FixPiece(ps[i]).value)
  }

  /** The text is fixed as a whole or, when one `\frac` cannot be fixed, left alone. */
  function Fixed(s: string): string {
    var ps := Split(s, FRAC);
    if Fixable(ps[1..]) then Join([ps[0]] + FixPieces(ps[1..]), FRAC) else s
  }

  lemma {:induction false} JoinSnoc(ps: seq<string>, p: string, sep: string)
    requires ps != []
    ensures Join(ps + [p], sep) == Join(ps, sep) + sep + p
  {
    if |ps| == 1 {
      assert (ps + [p])[1..] == [p];
    } else {
      JoinSnoc(ps[1..], p, sep);
      assert (ps + [p])[1..] == ps[1..] + [p];
      ConcatAssociative(ps[0] + sep, Join(ps[1..], sep), sep + p);
      ConcatAssociative(Join(ps[1..], sep), sep, p);
      ConcatAssociative(Join(ps, sep), sep, p);
    }
  }

  /** The text rebuilt from the first `i` pieces. */
  ghost function FixedUpTo(ps: seq<string>, i: nat): string
    requires 1 <= i <= |ps| && Fixable(ps[1..i])
  {
    Join([ps[0]] + FixPieces(ps[1..i]), FRAC)
  }

  lemma FixedNext(ps: seq<string>, i: nat)
    requires 1 <= i < |ps| && Fixable(ps[1..i]) && FixPiece(ps[i]).Some?
    ensures Fixable(ps[1..i + 1]) && FixedUpTo(ps, i + 1) == FixedUpTo(ps, i) + FRAC + FixPiece(ps[i]).value
  {
    assert ps[1..i + 1] == ps[1..i] + [ps[i]];
    JoinSnoc([ps[0]] + FixPieces(ps[1..i]), FixPiece(ps[i]).value, FRAC);
    assert [ps[0]] + FixPieces(ps[1..i + 1]) == [ps[0]] + FixPieces(ps[1..i]) + [FixPiece(ps[i]).value];
  }

  method FixFracs(s: string) returns (r: string)
    ensures r == Fixed(s)
  {
    var substrs := Split(s, FRAC);
    var newStr := substrs[0];
    var i := 1;
    while i < |substrs|
      invariant 1 <= i <= |substrs|
      invariant Fixable(substrs[1..i]) && newStr == FixedUpTo(substrs, i)
    {
      var substr := substrs[i];
      newStr := newStr + FRAC;
      if |substr| > 0 && substr[0] == '{' {
        newStr := newStr + substr;
      } else {
        if |substr| < 2 {
          assert substrs[1..][i - 1] == substr;
          return s;
        }
        var a, b := substr[0], substr[1];
        if b != '{' {
          if |substr| > 2 {
            newStr := newStr + ("{" + [a] + "}{" + [b] + "}" + substr[2..]);
          } else {
            newStr := newStr + ("{" + [a] + "}{" + [b] + "}");
          }
        } else {
          if |substr| > 2 {
            newStr := newStr + ("{" + [a] + "}" + [b] + substr[2..]);
          } else {
            newStr := newStr + ("{" + [a] + "}" + [b]);
          }
        }
      }
      FixedNext(substrs, i);
      i := i + 1;
    }
    assert substrs[1..i] == substrs[1..];
    r := newStr;
  }

  // ---------------------------------------------------------------- idempotence

  lemma FracHeadUnique()
    ensures HeadUnique(FRAC)
  {
  }

  /** An occurrence of `\frac` contains no brace. */
  lemma FracHasNoBraces(s: string, i: nat, k: nat)
    requires At(s, FRAC, i) && i <= k < i + |FRAC|
    ensures s[k] != '{' && s[k] != '}'
  {
    assert s[i..i + |FRAC|][k - i] == s[k];
  }

  /** Brackets put around single characters do not create a new `\frac`. */
  lemma FixedPieceClean(p: string)
    requires !Contains(p, FRAC) && FixPiece(p).Some?
    ensures !Contains(FixPiece(p).value, FRAC)
  {
    var q := FixPiece(p).value;
    if q != p {
      var shift := if p[1] != '{' then 4 else 2;
      var start := if p[1] != '{' then 6 else 3;
      forall i | 0 <= i <= |q| ensures !At(q, FRAC, i) {
        if i >= start {
          if i + |FRAC| <= |q| {
            assert q[i..i + |FRAC|] == p[i - shift..i - shift + |FRAC|];
          }
          assert !At(p, FRAC, i - shift);
        } else if i + |FRAC| <= |q| {
          BraceBlocks(q, i, if i == 0 then 0 else if i <= 2 then 2 else if i == 3 then 3 else 5);
        }
      }
    }
  }

  lemma BraceBlocks(q: string, i: nat, k: nat)
    requires i <= k < i + |FRAC| <= |q| && (q[k] == '{' || q[k] == '}')
    ensures !At(q, FRAC, i)
  {
    if At(q, FRAC, i) { FracHasNoBraces(q, i, k); }
  }

  lemma FixPieceStable(p: string)
    requires FixPiece(p).Some?
    ensures FixPiece(FixPiece(p).value) == FixPiece(p)
  {
  }

  lemma SplitFixed(s: string)
    requires Fixable(Split(s, FRAC)[1..])
    ensures Split(Fixed(s), FRAC) == [Split(s, FRAC)[0]] + FixPieces(Split(s, FRAC)[1..])
  {
    var ps := Split(s, FRAC);
    var qs := [ps[0]] + FixPieces(ps[1..]);
    SplitClean(s, FRAC);
    forall i | 0 <= i < |qs| ensures !Contains(qs[i], FRAC) {
      if i > 0 {
        assert ps[1..][i - 1] == ps[i];
        FixedPieceClean(ps[i]);
      }
    }
    FracHeadUnique();
    SplitJoin(qs, FRAC);
  }

  lemma Idempotent(s: string)
    ensures Fixed(Fixed(s)) == Fixed(s)
  {
    var ps := Split(s, FRAC);
    if Fixable(ps[1..]) {
      var fs := FixPieces(ps[1..]);
      SplitFixed(s);
      var qs := Split(Fixed(s), FRAC);
      assert qs[1..] == fs;
      forall i | 0 <= i < |fs| ensures FixPiece(fs[i]) == Some(fs[i]) {
        FixPieceStable(ps[1..][i]);
      }
      assert FixPieces(fs) == fs;
    }
  }

  // ---------------------------------------------------------------- only braces are inserted

  predicate IsBrace(c: char) {
    c == '{' || c == '}'
  }

  /** `t` is `s` with braces put in; nothing is removed, changed or moved. */
  predicate BracesAdded(s: string, t: string)
    decreases |t|
  {
    if t == [] then s == []
    else (s != [] && s[0] == t[0] && BracesAdded(s[1..], t[1..])) || (IsBrace(t[0]) && BracesAdded(s, t[1..]))
  }

  lemma {:induction false} BracesAddedSame(s: string)
    ensures BracesAdded(s, s)
  {
    if s != [] {
      BracesAddedSame(s[1..]);
    }
  }

  lemma {:induction false} BracesAddedConcat(s: string, t: string, s': string, t': string)
    requires BracesAdded(s, t) && BracesAdded(s', t')
    ensures BracesAdded(s + s', t + t')
    decreases |t|
  {
    if t == [] {
      assert s + s' == s' && t + t' == t';
    } else {
      assert (t + t')[1..] == t[1..] + t';
      if s != [] && s[0] == t[0] && BracesAdded(s[1..], t[1..]) {
        BracesAddedConcat(s[1..], t[1..], s', t');
        assert (s + s')[1..] == s[1..] + s';
      } else {
        BracesAddedConcat(s, t[1..], s', t');
      }
    }
  }

  lemma BracesAddedGroup(c: char)
    ensures BracesAdded([c], "{" + [c] + "}")
  {
    assert ("{" + [c] + "}")[1..] == [c] + "}" && ([c] + "}")[1..] == "}" && [c][1..] == [];
    assert BracesAdded([], "}");
    assert BracesAdded([c], [c] + "}");
  }

  lemma {:induction false} BracesAddedJoin(ps: seq<string>, qs: seq<string>, sep: string)
    requires |ps| == |qs| > 0
    requires forall i :: 0 <= i < |ps| ==> BracesAdded(ps[i], qs[i])
    ensures BracesAdded(Join(ps, sep), Join(qs, sep))
  {
    if |ps| > 1 {
      BracesAddedJoin(ps[1..], qs[1..], sep);
      BracesAddedSame(sep);
      BracesAddedConcat(ps[0], qs[0], sep, sep);
      BracesAddedConcat(ps[0] + sep, qs[0] + sep, Join(ps[1..], sep), Join(qs[1..], sep));
    }
  }

  lemma BracesAddedPiece(p: string)
    requires FixPiece(p).Some?
    ensures BracesAdded(p, FixPiece(p).value)
  {
    BracesAddedSame(p);
    if !OpensGroup(p) {
      var a, b := [p[0]], [p[1]];
      BracesAddedGroup(p[0]);
      if p[1] != '{' {
        BracesAddedGroup(p[1]);
        BracesAddedSame(p[2..]);
        BracesAddedConcat(a, "{" + a + "}", b, "{" + b + "}");
        BracesAddedConcat(a + b, "{" + a + "}" + ("{" + b + "}"), p[2..], p[2..]);
        assert p == a + b + p[2..] && FixPiece(p).value == "{" + a + "}" + ("{" + b + "}") + p[2..];
      } else {
        BracesAddedSame(p[1..]);
        BracesAddedConcat(a, "{" + a + "}", p[1..], p[1..]);
        assert p == a + p[1..];
      }
    }
  }

  function Erase(s: string): string {
    if s == [] then [] else if IsBrace(s[0]) then Erase(s[1..]) else [s[0]] + Erase(s[1..])
  }

  lemma {:induction false} BracesAddedErase(s: string, t: string)
    requires BracesAdded(s, t)
    ensures Erase(s) == Erase(t)
    decreases |t|
  {
    if t != [] {
      if s != [] && s[0] == t[0] && BracesAdded(s[1..], t[1..]) {
        BracesAddedErase(s[1..], t[1..]);
      } else {
        BracesAddedErase(s, t[1..]);
      }
    }
  }

  /** The result is the input with braces put in, so without braces both are the same text. */
  lemma OnlyBracesInserted(s: string)
    ensures BracesAdded(s, Fixed(s))
    ensures Erase(Fixed(s)) == Erase(s)
  {
    var ps := Split(s, FRAC);
    if Fixable(ps[1..]) {
      var qs := [ps[0]] + FixPieces(ps[1..]);
      forall i | 0 <= i < |ps| ensures BracesAdded(ps[i], qs[i]) {
        if i > 0 {
          assert ps[1..][i - 1] == ps[i];
          BracesAddedPiece(ps[i]);
        } else {
          BracesAddedSame(ps[0]);
        }
      }
      BracesAddedJoin(ps, qs, FRAC);
      JoinSplit(s, FRAC);
    } else {
      BracesAddedSame(s);
    }
    BracesAddedErase(s, Fixed(s));
  }

  // ---------------------------------------------------------------- where the braces go

  lemma DepthOfGroup(c: char)
    ensures Depth("{" + [c] + "}") == Depth([c])
  {
    DepthConcat("{" + [c], "}");
    DepthConcat("{", [c]);
  }

  lemma FixedDepth(p: string)
    requires FixPiece(p).Some?
    ensures Depth(FixPiece(p).value) == Depth(p)
  {
    if !OpensGroup(p) {
      var a, b := "{" + [p[0]] + "}", "{" + [p[1]] + "}";
      assert p == [p[0]] + p[1..] && p[1..] == [p[1]] + p[2..];
      DepthConcat([p[0]], p[1..]);
      DepthOfGroup(p[0]);
      if p[1] != '{' {
        DepthOfGroup(p[1]);
        assert FixPiece(p).value == a + (b + p[2..]);
        DepthConcat([p[1]], p[2..]);
        DepthConcat(a, b + p[2..]);
        DepthConcat(b, p[2..]);
      } else {
        DepthConcat(a, p[1..]);
      }
    }
  }

  /** A bare first argument ends up alone in its own group, and a second group opens right behind: around
      the next character, or the one that is there. What follows is left as it is. */
  lemma BareArguments(p: string)
    requires FixPiece(p).Some? && p[0] != '{'
    ensures var q := FixPiece(p).value;
      |q| >= 4 && q[..4] == "{" + [p[0]] + "}{" && Depth(q) == Depth(p)
      && (if p[1] != '{' then |q| >= 6 && q[4..6] == [p[1]] + "}" && q[6..] == p[2..] else q[3..] == p[1..])
  {
    FixedDepth(p);
  }

  predicate AllBraced(t: string) {
    forall i :: 0 <= i <= |t| && At(t, FRAC, i) ==> i + |FRAC| < |t| && t[i + |FRAC|] == '{'
  }

  lemma FirstPieceOpens(t: string)
    ensures OpensGroup(Split(t, FRAC)[0]) <==> OpensGroup(t)
  {
    var f := Find(t, FRAC);
    if f.Some? {
      AtCut(t, FRAC, f.value);
    }
  }

  lemma OccurrencesBehind(t: string, k: nat)
    requires Find(t, FRAC) == Some(k)
    ensures AllBraced(t) <==> OpensGroup(t[k + |FRAC|..]) && AllBraced(t[k + |FRAC|..])
  {
    var n := k + |FRAC|;
    var rest := t[n..];
    forall i | n <= i <= |t| ensures At(t, FRAC, i) == At(rest, FRAC, i - n) { AtDrop(t, FRAC, n, i); }
    forall i | k < i < n ensures !At(t, FRAC, i) {
      if i + |FRAC| <= |t| {
        assert t[k..n][i - k] == t[i] == t[i..i + |FRAC|][0];
      }
    }
    if OpensGroup(rest) && AllBraced(rest) {
      forall i | 0 <= i <= |t| && At(t, FRAC, i) ensures i + |FRAC| < |t| && t[i + |FRAC|] == '{' {
        if i > k {
          assert At(rest, FRAC, i - n);
        }
      }
    }
    if AllBraced(t) {
      forall i | 0 <= i <= |rest| && At(rest, FRAC, i)
        ensures i + |FRAC| < |rest| && rest[i + |FRAC|] == '{' {
        assert At(t, FRAC, i + n);
      }
    }
  }

  lemma {:induction false} BracedPieces(t: string)
    ensures AllBraced(t) <==> forall i :: 1 <= i < |Split(t, FRAC)| ==> OpensGroup(Split(t, FRAC)[i])
    decreases |t|
  {
    var f := Find(t, FRAC);
    if f.Some? {
      var rest := t[f.value + |FRAC|..];
      OccurrencesBehind(t, f.value);
      FirstPieceOpens(rest);
      BracedPieces(rest);
      var ps, qs := Split(t, FRAC), Split(rest, FRAC);
      assert forall i :: 1 <= i < |ps| ==> ps[i] == qs[i - 1];
      assert forall i :: 0 <= i < |qs| ==> qs[i] == ps[i + 1];
    }
  }

  lemma FixedPiecesOpen(ps: seq<string>)
    requires Fixable(ps)
    ensures forall i :: 0 <= i < |ps| ==> OpensGroup(FixPieces(ps)[i])
  {
    forall i | 0 <= i < |ps| ensures OpensGroup(FixPieces(ps)[i]) {
      assert OpensGroup(FixPiece(ps[i]).value);
    }
  }

  lemma FixableIsBraced(s: string)
    requires Fixable(Split(s, FRAC)[1..])
    ensures AllBraced(Fixed(s))
  {
    SplitFixed(s);
    FixedPiecesOpen(Split(s, FRAC)[1..]);
    BracedPieces(Fixed(s));
  }

  lemma BracedIsFixable(s: string)
    requires AllBraced(s)
    ensures Fixable(Split(s, FRAC)[1..])
  {
    BracedPieces(s);
    var ps := Split(s, FRAC);
    assert forall i :: 0 <= i < |ps[1..]| ==> ps[1..][i] == ps[i + 1];
  }

  /** The result has every `\frac` followed by an opening brace exactly when what stands behind each
      `\frac` of the input, up to the next one, starts with an opening brace or has at least two
      characters; otherwise nothing is changed at all. */
  lemma BracedExactlyWhenFixable(s: string)
    ensures AllBraced(Fixed(s)) <==> Fixable(Split(s, FRAC)[1..])
    ensures !AllBraced(Fixed(s)) ==> Fixed(s) == s
  {
    if Fixable(Split(s, FRAC)[1..]) {
      FixableIsBraced(s);
    } else if AllBraced(s) {
      BracedIsFixable(s);
    }
  }
}
