/** `trim_overlap` and `stream_and_merge`: streamed chunks are merged by dropping from each chunk
    the longest prefix that the text already ends with. */
module OverlapMerge {

  /** The text ends with the first `i` characters of the chunk. */
  predicate Overlaps(existing: string, chunk: string, i: nat) {
    i <= |existing| && i <= |chunk| && existing[|existing| - i..] == chunk[..i]
  }

  predicate EndsWith(s: string, suffix: string) {
    |suffix| <= |s| && s[|s| - |suffix|..] == suffix
  }

  /** The largest overlap of at most `limit` characters. */
  function Overlap(existing: string, chunk: string, limit: nat): (i: nat)
    requires limit <= |existing| && limit <= |chunk|
    ensures i <= limit && Overlaps(existing, chunk, i)
    ensures forall j :: i < j <= limit ==> !Overlaps(existing, chunk, j)
  {
    if limit == 0 || Overlaps(existing, chunk, limit) then limit else Overlap(existing, chunk, limit - 1)
  }

  function Trim(existing: string, chunk: string): string {
    chunk[Overlap(existing, chunk, if |existing| <= |chunk| then |existing| else |chunk|)..]
  }

  lemma OverlapBelow(existing: string, chunk: string, i: nat)
    requires 0 < i <= |existing| && i <= |chunk|
    ensures EndsWith(existing, chunk[..i]) <==> Overlaps(existing, chunk, i)
    ensures Overlap(existing, chunk, i)
      == if EndsWith(existing, chunk[..i]) then i else Overlap(existing, chunk, i - 1)
  {
  }

  method TrimOverlap(existing: string, chunk: string) returns (r: string)
    ensures r == Trim(existing, chunk)
  {
    var maxOverlap := 0;
    var maxPossible := if |existing| <= |chunk| then |existing| else |chunk|;
    var i := maxPossible;
    while i > 0
      invariant 0 <= i <= maxPossible && maxOverlap == 0
      invariant Overlap(existing, chunk, maxPossible) == Overlap(existing, chunk, i)
    {
      OverlapBelow(existing, chunk, i);
      if EndsWith(existing, chunk[..i]) {
        maxOverlap := i;
        break;
      }
      i := i - 1;
    }
    r := chunk[maxOverlap..];
  }

  function MergeChunk(existing: string, chunk: string): string {
    existing + Trim(existing, chunk)
  }

  /** `t` starts with the text and ends with the chunk. */
  ghost predicate Covers(t: string, existing: string, chunk: string) {
    existing <= t && EndsWith(t, chunk)
  }

  lemma MergeCovers(existing: string, chunk: string)
    ensures Covers(MergeChunk(existing, chunk), existing, chunk)
  {
    var i := Overlap(existing, chunk, if |existing| <= |chunk| then |existing| else |chunk|);
    var t := MergeChunk(existing, chunk);
    assert t[|t| - |chunk|..] == existing[|existing| - i..] + chunk[i..];
    assert chunk == chunk[..i] + chunk[i..];
  }

  /** A covering text that is shorter than both put together shows an overlap of that size. */
  lemma CoveringOverlap(t: string, existing: string, chunk: string)
    requires Covers(t, existing, chunk) && |t| <= |existing| + |chunk|
    ensures Overlaps(existing, chunk, |existing| + |chunk| - |t|)
    ensures t == existing + chunk[|existing| + |chunk| - |t|..]
  {
    var i := |existing| + |chunk| - |t|;
    var from := |t| - |chunk|;
    assert forall k :: 0 <= k < i ==> existing[from + k] == t[from + k] == t[from..][k] == chunk[k];
    assert existing[|existing| - i..] == chunk[..i];
    assert t == existing + t[|existing|..];
    assert t[|existing|..] == t[from..][i..];
  }

  /** Merging gives the one shortest text that starts with the old text and ends with the chunk. */
  lemma MergeIsShortest(existing: string, chunk: string, t: string)
    requires Covers(t, existing, chunk)
    ensures |MergeChunk(existing, chunk)| <= |t|
    ensures |MergeChunk(existing, chunk)| == |t| ==> MergeChunk(existing, chunk) == t
  {
    if |t| <= |existing| + |chunk| {
      CoveringOverlap(t, existing, chunk);
    }
  }

  /** No non-empty end of the text begins the chunk. */
  ghost predicate Separate(existing: string, chunk: string) {
    forall i :: 0 < i <= |existing| && i <= |chunk| ==> !Overlaps(existing, chunk, i)
  }

  /** Nothing is dropped exactly when text and chunk do not overlap. */
  lemma KeptWhole(existing: string, chunk: string)
    ensures MergeChunk(existing, chunk) == existing + chunk <==> Separate(existing, chunk)
  {
    var limit := if |existing| <= |chunk| then |existing| else |chunk|;
    var i := Overlap(existing, chunk, limit);
    if i == 0 {
      assert chunk[0..] == chunk;
    } else {
      assert |MergeChunk(existing, chunk)| < |existing + chunk|;
    }
  }

  // ---------------------------------------------------------------- a whole stream

  function Merged(chunks: seq<string>): string {
    if chunks == [] then "" else MergeChunk(Merged(chunks[..|chunks| - 1]), chunks[|chunks| - 1])
  }

  method StreamAndMerge(chunks: seq<string>) returns (finalText: string)
    ensures finalText == Merged(chunks)
  {
    finalText := "";
    for k := 0 to |chunks|
      invariant finalText == Merged(chunks[..k])
    {
      var cleaned := TrimOverlap(finalText, chunks[k]);
      assert chunks[..k + 1][..k] == chunks[..k];
      finalText := finalText + cleaned;
    }
    assert chunks[..|chunks|] == chunks;
  }

  /** What has been merged stays, and each chunk ends the text at the moment it has been merged. */
  lemma {:induction false} MergedKeepsEveryChunk(chunks: seq<string>, k: nat)
    requires k < |chunks|
    ensures EndsWith(Merged(chunks[..k + 1]), chunks[k])
    ensures Merged(chunks[..k + 1]) <= Merged(chunks)
    decreases |chunks|
  {
    var n := |chunks| - 1;
    if k == n {
      assert chunks[..k + 1] == chunks;
      MergeCovers(Merged(chunks[..n]), chunks[n]);
    } else {
      MergedKeepsEveryChunk(chunks[..n], k);
      assert chunks[..n][..k + 1] == chunks[..k + 1];
    }
  }

  /** A stream in which every chunk extends the one before merges to its last chunk. */
  lemma {:induction false} GrowingStreamMergesToLast(chunks: seq<string>)
    requires chunks != []
    requires forall i :: 0 <= i < |chunks| - 1 ==> chunks[i] <= chunks[i + 1]
    ensures Merged(chunks) == chunks[|chunks| - 1]
  {
    var n := |chunks| - 1;
    var last := chunks[n];
    if n == 0 {
      assert chunks[..0] == [];
      MergeCovers("", last);
      MergeIsShortest("", last, last);
    } else {
      GrowingStreamMergesToLast(chunks[..n]);
      assert chunks[..n][n - 1] == chunks[n - 1];
      MergeCovers(chunks[n - 1], last);
      assert chunks[n - 1] <= last;
      MergeIsShortest(chunks[n - 1], last, last);
    }
  }

  function Concat(chunks: seq<string>): string {
    if chunks == [] then "" else Concat(chunks[..|chunks| - 1]) + chunks[|chunks| - 1]
  }

  lemma {:induction false} MergedNoLonger(chunks: seq<string>)
    ensures |Merged(chunks)| <= |Concat(chunks)|
  {
    if chunks != [] {
      MergedNoLonger(chunks[..|chunks| - 1]);
    }
  }

  lemma LastKept(merged: string, whole: string, chunk: string)
    requires |merged| <= |whole|
    ensures MergeChunk(merged, chunk) == whole + chunk <==> merged == whole && Separate(whole, chunk)
  {
    var t := MergeChunk(merged, chunk);
    KeptWhole(merged, chunk);
    if t == whole + chunk {
      assert t[..|merged|] == merged && (whole + chunk)[..|whole|] == whole;
    }
  }

  /** Chunk `k` does not overlap the chunks before it, put together. */
  ghost predicate SeparateAt(chunks: seq<string>, k: nat)
    requires k < |chunks|
  {
    Separate(Concat(chunks[..k]), chunks[k])
  }

  /** A stream is concatenated exactly when no chunk begins with a non-empty end of the chunks before it. */
  lemma {:induction false} ConcatenatedExactlyWhen(chunks: seq<string>)
    ensures Merged(chunks) == Concat(chunks) <==> forall k :: 0 <= k < |chunks| ==> SeparateAt(chunks, k)
  {
    if chunks != [] {
      var n := |chunks| - 1;
      ConcatenatedExactlyWhen(chunks[..n]);
      MergedNoLonger(chunks[..n]);
      LastKept(Merged(chunks[..n]), Concat(chunks[..n]), chunks[n]);
      forall k | 0 <= k < n ensures SeparateAt(chunks[..n], k) == SeparateAt(chunks, k) {
        assert chunks[..n][..k] == chunks[..k];
      }
      if Merged(chunks) == Concat(chunks) {
        forall k | 0 <= k < |chunks| ensures SeparateAt(chunks, k) {}
      }
      if forall k :: 0 <= k < |chunks| ==> SeparateAt(chunks, k) {
        assert SeparateAt(chunks, n);
        assert forall k :: 0 <= k < n ==> SeparateAt(chunks[..n], k);
      }
    }
  }

  /** A stream of separate pieces need not be concatenated: repeated text is swallowed. */
  lemma RepeatedPieceIsSwallowed()
    ensures Merged(["ha", "ha"]) == "ha"
  {
    assert ["ha", "ha"][..1] == ["ha"];
    GrowingStreamMergesToLast(["ha", "ha"]);
  }
}
