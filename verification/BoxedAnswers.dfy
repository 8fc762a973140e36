/** `extract_boxed_answers`: the contents of every `boxed{...}` in a text, found by splitting at
    `boxed{` and counting braces in each piece. */
module BoxedAnswers {
  import opened Text

  const BOXED: string := "boxed{"

  /** The brace at `k` closes the group that was open where `piece` begins. */
  ghost predicate ClosesAt(piece: string, k: nat) {
    k < |piece| && piece[k] == '}' && Balanced(piece[..k])
  }

  /** The scan of one piece from `i` on, with `n` groups open. */
  function CloseFrom(piece: string, i: nat, n: nat): (r: Option<nat>)
    requires i <= |piece|
    ensures r.Some? ==> i <= r.value < |piece| && piece[r.value] == '}'
    decreases |piece| - i
  {
    if i == |piece| then None
    else if piece[i] == '{' then CloseFrom(piece, i + 1, n + 1)
    else if piece[i] == '}' then if n == 0 then Some(i) else CloseFrom(piece, i + 1, n - 1)
    else CloseFrom(piece, i + 1, n)
  }

  /** A percent sign behind the closing brace makes the source keep the brace. */
  function AnswerAt(piece: string, k: nat): string
    requires k < |piece|
  {
    if k + 1 < |piece| && piece[k + 1] == '%' then piece[..k + 1] else piece[..k]
  }

  function PieceAnswer(piece: string): seq<string> {
    match CloseFrom(piece, 0, 0)
    case None => []
    case Some(k) => [AnswerAt(piece, k)]
  }

  function Answers(pieces: seq<string>): seq<string> {
    if pieces == [] then [] else Answers(pieces[..|pieces| - 1]) + PieceAnswer(pieces[|pieces| - 1])
  }

  function Extracted(text: string): seq<string> {
    Answers(Split(text, BOXED)[1..])
  }

  method ExtractBoxedAnswers(text: string) returns (answers: seq<string>)
    ensures answers == Extracted(text)
  {
    var pieces := Split(text, BOXED)[1..];
    answers := [];
    for p := 0 to |pieces|
      invariant answers == Answers(pieces[..p])
    {
      var piece := pieces[p];
      assert pieces[..p + 1][..p] == pieces[..p];
      var n, i := 0, 0;
      while i < |piece|
        invariant 0 <= i <= |piece|
        invariant n >= 0
        invariant CloseFrom(piece, i, n) == CloseFrom(piece, 0, 0)
      {
        if piece[i] == '{' {
          n := n + 1;
        } else if piece[i] == '}' {
          if n - 1 < 0 {
            break;
          }
          n := n - 1;
        }
        i := i + 1;
      }
      if i < |piece| {
        if i + 1 < |piece| && piece[i + 1] == '%' {
          answers := answers + [piece[..i + 1]];
        } else {
          answers := answers + [piece[..i]];
        }
      }
    }
    assert pieces[..|pieces|] == pieces;
  }

  // ---------------------------------------------------------------- the scan finds the closing brace

  lemma DepthStep(piece: string, i: nat)
    requires i < |piece|
    ensures Depth(piece[..i + 1]) == Depth(piece[..i]) + (match piece[i] case '{' => 1 case '}' => -1 case _ => 0)
  {
    assert piece[..i + 1][..i] == piece[..i];
  }

  lemma {:induction false} CloseFromSound(piece: string, i: nat, n: nat)
    requires i <= |piece| && n == Depth(piece[..i])
    requires forall j :: 0 <= j <= i ==> Depth(piece[..j]) >= 0
    ensures var r := CloseFrom(piece, i, n); r.Some? ==> i <= r.value && ClosesAt(piece, r.value)
    decreases |piece| - i
  {
    if i < |piece| {
      DepthStep(piece, i);
      if piece[i] == '}' && n == 0 {
        assert forall j :: 0 <= j <= i ==> piece[..i][..j] == piece[..j];
      } else {
        CloseFromSound(piece, i + 1,
          if piece[i] == '{' then n + 1 else if piece[i] == '}' then n - 1 else n);
      }
    }
  }

  lemma {:induction false} CloseFromComplete(piece: string, i: nat, n: nat, k: nat)
    requires i <= k && ClosesAt(piece, k) && n == Depth(piece[..i])
    ensures CloseFrom(piece, i, n) == Some(k)
    decreases |piece| - i
  {
    DepthStep(piece, i);
    if i < k {
      assert piece[..k][..i + 1] == piece[..i + 1];
      CloseFromComplete(piece, i + 1,
        if piece[i] == '{' then n + 1 else if piece[i] == '}' then n - 1 else n, k);
    } else {
      assert piece[..k][..k] == piece[..k];
    }
  }

  lemma {:induction false} AnswersConcat(a: seq<string>, b: seq<string>)
    ensures Answers(a + b) == Answers(a) + Answers(b)
    decreases |b|
  {
    if b == [] {
      assert a + b == a;
    } else {
      AnswersConcat(a, b[..|b| - 1]);
      assert (a + b)[..|a + b| - 1] == a + b[..|b| - 1];
      ConcatAssociative(Answers(a), Answers(b[..|b| - 1]), PieceAnswer(b[|b| - 1]));
    }
  }

  lemma AnswersSingle(p: string)
    ensures Answers([p]) == PieceAnswer(p)
  {
    assert [p][..0] == [];
  }

  lemma AnswersAround(ps: seq<string>, p: string, qs: seq<string>)
    requires ps != []
    ensures Answers((ps + ([p] + qs))[1..]) == Answers(ps[1..]) + PieceAnswer(p) + Answers(qs)
  {
    AnswersConcat([p], qs);
    AnswersSingle(p);
    AnswersConcat(ps[1..], [p] + qs);
    TailOfConcat(ps, [p] + qs);
    ConcatAssociative(Answers(ps[1..]), PieceAnswer(p), Answers(qs));
  }

  lemma TailOfConcat<T>(a: seq<T>, b: seq<T>)
    requires a != []
    ensures (a + b)[1..] == a[1..] + b
  {
  }

  // ---------------------------------------------------------------- a boxed group in its text

  /** What the source reports for the group `s`, given the text behind its closing brace. */
  function Reported(s: string, post: string): string {
    if post != [] && post[0] == '%' then s + "}" else s
  }

  /** No `boxed{` begins in `s}` when `s` has none of its own. */
  lemma NoneBeginsBefore(s: string, post: string, i: nat)
    requires !Contains(s, BOXED) && i <= |s|
    ensures !At(s + "}" + post, BOXED, i)
  {
    var t := s + "}" + post;
    if i + |BOXED| <= |s| {
      assert t[i..i + |BOXED|] == s[i..i + |BOXED|];
      assert !At(s, BOXED, i);
    } else if i + |BOXED| <= |t| {
      assert t[i..i + |BOXED|][|s| - i] == '}';
      assert '}' !in BOXED;
    }
  }

  lemma FindShift(u: string, post: string)
    requires forall i :: 0 <= i < |u| ==> !At(u + post, BOXED, i)
    ensures Find(u + post, BOXED) ==
      match Find(post, BOXED) case None => None case Some(k) => Some(|u| + k)
  {
    var t := u + post;
    assert t[|u|..] == post;
    forall i | |u| <= i <= |t| ensures At(t, BOXED, i) == At(post, BOXED, i - |u|) { AtDrop(t, BOXED, |u|, i); }
    var f := Find(post, BOXED);
    if f.Some? {
      FindUnique(t, BOXED, |u| + f.value);
    } else {
      forall i | |u| <= i <= |t| ensures !At(t, BOXED, i) { assert !At(post, BOXED, i - |u|); }
    }
  }

  lemma SplitBehind(u: string, post: string)
    requires forall i :: 0 <= i < |u| ==> !At(u + post, BOXED, i)
    ensures Split(u + post, BOXED) == [u + Split(post, BOXED)[0]] + Split(post, BOXED)[1..]
  {
    FindShift(u, post);
    var f := Find(post, BOXED);
    if f.Some? {
      AtCut(post, BOXED, f.value);
      var p, rest := post[..f.value], post[f.value + |BOXED|..];
      ConcatAssociative(u, p + BOXED, rest);
      ConcatAssociative(u, p, BOXED);
      SplitCut(u + post, BOXED, u + p, rest);
      SplitCut(post, BOXED, p, rest);
    }
  }

  lemma FirstCharacter(post: string)
    ensures var p := Split(post, BOXED)[0];
      (p != [] && p[0] == '%') <==> (post != [] && post[0] == '%')
  {
    var f := Find(post, BOXED);
    if f.Some? { AtCut(post, BOXED, f.value); }
  }

  lemma BoxedPiece(s: string, post: string, q: string)
    requires Balanced(s)
    requires (q != [] && q[0] == '%') <==> (post != [] && post[0] == '%')
    ensures PieceAnswer(s + "}" + q) == [Reported(s, post)]
  {
    var piece := s + "}" + q;
    assert piece[..|s|] == s && piece[..|s| + 1] == s + "}" && piece[|s| + 1..] == q;
    assert ClosesAt(piece, |s|);
    assert piece[..0] == [];
    CloseFromComplete(piece, 0, 0, |s|);
  }

  /** A balanced group that holds no further `boxed{` is reported exactly once, between the answers
      of the text before it and the answers of the text behind it. */
  lemma BoxedGroupIsReported(pre: string, s: string, post: string)
    requires Balanced(s) && !Contains(s, BOXED)
    ensures Extracted(pre + BOXED + (s + "}" + post)) == Extracted(pre) + [Reported(s, post)] + Extracted(post)
  {
    var u := s + "}";
    SplitAtSeparator(pre, BOXED, u + post);
    forall i | 0 <= i < |u| ensures !At(u + post, BOXED, i) { NoneBeginsBefore(s, post, i); }
    SplitBehind(u, post);
    FirstCharacter(post);
    var ps, qs := Split(pre, BOXED), Split(post, BOXED);
    BoxedPiece(s, post, qs[0]);
    AnswersAround(ps, u + qs[0], qs[1..]);
  }

  // ---------------------------------------------------------------- every answer comes from a boxed group

  ghost predicate BoxedIn(text: string, pre: string, s: string, post: string) {
    text == pre + BOXED + (s + "}" + post) && Balanced(s) && !Contains(s, BOXED)
  }

  lemma {:induction false} JoinAround(ps: seq<string>, j: nat) returns (tail: string)
    requires 1 <= j < |ps|
    ensures Join(ps, BOXED) == Join(ps[..j], BOXED) + BOXED + (ps[j] + tail)
    ensures tail == [] || tail[0] == 'b'
    decreases j
  {
    if j == 1 {
      assert ps[..1] == [ps[0]];
      if |ps| == 2 {
        tail := [];
        assert ps[1..] == [ps[1]];
        assert ps[1] + tail == ps[1];
      } else {
        tail := BOXED + Join(ps[2..], BOXED);
        assert ps[1..][1..] == ps[2..] && ps[1..][0] == ps[1];
        ConcatAssociative(ps[1], BOXED, Join(ps[2..], BOXED));
      }
    } else {
      tail := JoinAround(ps[1..], j - 1);
      assert ps[1..][..j - 1] == ps[..j][1..];
      ConcatAssociative(ps[0] + BOXED, Join(ps[..j][1..], BOXED) + BOXED, ps[j] + tail);
      ConcatAssociative(ps[0] + BOXED, Join(ps[..j][1..], BOXED), BOXED);
    }
  }

  lemma SubstringClean(p: string, k: nat)
    requires k <= |p| && !Contains(p, BOXED)
    ensures !Contains(p[..k], BOXED)
  {
    forall i | 0 <= i <= k && At(p[..k], BOXED, i) ensures false {
      assert p[..k][i..i + |BOXED|] == p[i..i + |BOXED|];
      assert At(p, BOXED, i);
    }
  }

  lemma {:induction false} AnswerHasPiece(ps: seq<string>, a: string) returns (j: nat)
    requires a in Answers(ps)
    ensures j < |ps| && PieceAnswer(ps[j]) == [a]
  {
    var n := |ps| - 1;
    if a in Answers(ps[..n]) {
      j := AnswerHasPiece(ps[..n], a);
    } else {
      j := n;
    }
  }

  lemma PieceAnswerParts(p: string, a: string, tail: string) returns (k: nat)
    requires PieceAnswer(p) == [a] && (tail == [] || tail[0] == 'b')
    ensures ClosesAt(p, k) && p + tail == p[..k] + "}" + (p[k + 1..] + tail)
    ensures a == Reported(p[..k], p[k + 1..] + tail)
  {
    k := CloseFrom(p, 0, 0).value;
    CloseFromSound(p, 0, 0);
    assert p == p[..k] + "}" + p[k + 1..];
    ConcatAssociative(p[..k] + "}", p[k + 1..], tail);
    assert p[..k + 1] == p[..k] + "}";
  }

  lemma AnswerIsBoxed(text: string, a: string) returns (pre: string, s: string, post: string)
    requires a in Extracted(text)
    ensures BoxedIn(text, pre, s, post) && a == Reported(s, post)
  {
    var ps := Split(text, BOXED);
    var j := AnswerHasPiece(ps[1..], a);
    var tail := JoinAround(ps, j + 1);
    var p := ps[j + 1];
    var k := PieceAnswerParts(p, a, tail);
    JoinSplit(text, BOXED);
    SplitClean(text, BOXED);
    SubstringClean(p, k);
    pre, s, post := Join(ps[..j + 1], BOXED), p[..k], p[k + 1..] + tail;
  }

  /** An answer is reported if and only if it is the content of a balanced boxed group, with the
      closing brace kept when a percent sign follows. */
  lemma ReportedExactlyWhenBoxed(text: string, a: string)
    ensures a in Extracted(text) <==>
      exists pre, s, post :: BoxedIn(text, pre, s, post) && a == Reported(s, post)
  {
    if a in Extracted(text) {
      var pre, s, post := AnswerIsBoxed(text, a);
    }
    if exists pre, s, post :: BoxedIn(text, pre, s, post) && a == Reported(s, post) {
      var pre, s, post :| BoxedIn(text, pre, s, post) && a == Reported(s, post);
      BoxedGroupIsReported(pre, s, post);
    }
  }
}
