/** The per-chunk loops of bench_serving.py that turn arrival times into time-to-first-token and
    inter-token latencies. Clock readings are reals. */
module StreamLatency {
  import opened Collections

  function Total(xs: seq<real>): real {
    if xs == [] then 0.0 else Total(xs[..|xs| - 1]) + xs[|xs| - 1]
  }

  lemma TotalSnoc(xs: seq<real>, x: real)
    ensures Total(xs + [x]) == Total(xs) + x
  {
    assert (xs + [x])[..|xs|] == xs;
  }

  /** `[x] * n`. */
  function Repeat(x: real, n: int): (r: seq<real>)
    ensures |r| == if n > 0 then n else 0
    ensures forall i :: 0 <= i < |r| ==> r[i] == x
  {
    if n <= 0 then [] else Repeat(x, n - 1) + [x]
  }

  /** `n * x` by repeated addition. */
  function Times(n: nat, x: real): real {
    if n == 0 then 0.0 else Times(n - 1, x) + x
  }

  lemma TimesNext(n: nat, x: real)
    requires n > 0
    ensures n as real * x == (n - 1) as real * x + x
  {
    assert n as real == (n - 1) as real + 1.0;
  }

  lemma {:induction false} TimesIsProduct(n: nat, x: real)
    ensures Times(n, x) == n as real * x
  {
    if n > 0 {
      TimesIsProduct(n - 1, x);
      TimesNext(n, x);
    }
  }

  lemma {:induction false} TotalRepeat(xs: seq<real>, x: real, n: nat)
    ensures Total(xs + Repeat(x, n)) == Total(xs) + Times(n, x)
  {
    if n == 0 {
      assert xs + Repeat(x, n) == xs;
    } else {
      TotalRepeat(xs, x, n - 1);
      assert xs + Repeat(x, n) == (xs + Repeat(x, n - 1)) + [x];
      TotalSnoc(xs + Repeat(x, n - 1), x);
    }
  }

  lemma ShareTimes(span: real, n: nat)
    requires n > 0
    ensures Times(n, span / n as real) == span
  {
    TimesIsProduct(n, span / n as real);
    assert n as real * (span / n as real) == span;
  }

  /** A time span shared out evenly among `n` tokens adds up to the span. */
  lemma TotalShares(xs: seq<real>, span: real, n: nat)
    requires n > 0
    ensures Total(xs + Repeat(span / n as real, n)) == Total(xs) + span
  {
    var share := span / n as real;
    TotalRepeat(xs, share, n);
    ShareTimes(span, n);
  }

  // ---------------------------------------------------------------- async_request_trt_llm

  /** Timestamp `a` is taken for the first token, and each later one adds its distance from the one
      before it. */
  ghost predicate Spaced(st: real, timestamps: seq<real>, a: nat, ttft: real, itl: seq<real>) {
    && a < |timestamps| && |itl| == |timestamps| - 1 - a && ttft == timestamps[a] - st
    && (forall j :: 0 <= j < a ==> timestamps[j] == st) && (itl != [] ==> timestamps[a] != st)
    && forall j :: 0 <= j < |itl| ==> itl[j] == timestamps[a + 1 + j] - timestamps[a + j]
  }

  lemma FirstSpaced(st: real, done: seq<real>, a: nat, ttft: real, itl: seq<real>, x: real)
    requires done == [] || (Spaced(st, done, a, ttft, itl) && ttft == 0.0)
    ensures Spaced(st, done + [x], |done|, x - st, [])
    ensures done != [] ==> itl == []
  {
  }

  lemma NextSpaced(st: real, done: seq<real>, a: nat, ttft: real, itl: seq<real>, x: real)
    requires Spaced(st, done, a, ttft, itl) && ttft != 0.0
    ensures Spaced(st, done + [x], a, ttft, itl + [x - Last(done)])
  {
  }

  /** The variables of the loop after the timestamps `done`. */
  ghost predicate Accounted(st: real, done: seq<real>, a: nat, ttft: real, itl: seq<real>, mostRecent: real) {
    && mostRecent - st == ttft + Total(itl)
    && if done == [] then ttft == 0.0 && itl == [] && mostRecent == st
       else Spaced(st, done, a, ttft, itl) && mostRecent == Last(done)
  }

  lemma AccountedNext(st: real, done: seq<real>, a: nat, ttft: real, itl: seq<real>, mostRecent: real, x: real)
    requires Accounted(st, done, a, ttft, itl, mostRecent)
    ensures ttft == 0.0 ==> itl == [] && Accounted(st, done + [x], |done|, x - st, itl, x)
    ensures ttft != 0.0 ==> Accounted(st, done + [x], a, ttft, itl + [x - mostRecent], x)
  {
    if ttft == 0.0 {
      FirstSpaced(st, done, a, ttft, itl, x);
    } else {
      TotalSnoc(itl, x - mostRecent);
      NextSpaced(st, done, a, ttft, itl, x);
    }
  }

  /** Whatever the arrival times, the latency is the time to the first token plus all inter-token
      latencies, which are the distances of adjacent timestamps. The first token is taken at the first
      timestamp at which the clock has moved. */
  method TrtStream(st: real, timestamps: seq<real>)
    returns (ttft: real, itl: seq<real>, latency: real, ghost a: nat)
    ensures latency == ttft + Total(itl)
    ensures latency == if timestamps == [] then 0.0 else Last(timestamps) - st
    ensures timestamps == [] ==> ttft == 0.0 && itl == []
    ensures timestamps != [] ==> Spaced(st, timestamps, a, ttft, itl)
    ensures timestamps != [] && timestamps[0] != st ==> ttft == timestamps[0] - st && |itl| == |timestamps| - 1
  {
    ttft, itl, a := 0.0, [], 0;
    var mostRecent := st;
    for k := 0 to |timestamps|
      invariant Accounted(st, timestamps[..k], a, ttft, itl, mostRecent)
    {
      var timestamp := timestamps[k];
      AccountedNext(st, timestamps[..k], a, ttft, itl, mostRecent, timestamp);
      assert timestamps[..k + 1] == timestamps[..k] + [timestamp];
      if ttft == 0.0 {
        ttft := timestamp - st;
        a := k;
      } else {
        itl := itl + [timestamp - mostRecent];
      }
      mostRecent := timestamp;
    }
    assert timestamps[..|timestamps|] == timestamps;
    latency := mostRecent - st;
  }

  // ---------------------------------------------------------------- async_request_sglang_generate

  /** One parsed chunk: whether it carries text, the completion count, and two clock readings, the
      second of which is only used for the first token. */
  datatype Chunk = Chunk(hasText: bool, tokens: int, timestamp: real, later: real)

  function TextChunks(chunks: seq<Chunk>): (r: seq<Chunk>) {
    if chunks == [] then []
    else
      var n := |chunks| - 1;
      TextChunks(chunks[..n]) + if chunks[n].hasText then [chunks[n]] else []
  }

  ghost predicate NonDecreasing(f: seq<Chunk>) {
    forall i, j :: 0 <= i <= j < |f| ==> f[i].tokens <= f[j].tokens
  }

  /** The chunk taken for the first token: the first one at which the clock has moved, else the last. */
  ghost predicate IsAnchor(f: seq<Chunk>, st: real, a: nat) {
    && a < |f| && (forall j :: 0 <= j < a ==> f[j].later == st)
    && (f[a].later != st || a == |f| - 1)
  }

  /** The last chunk that brought tokens, counting from the anchor. */
  ghost predicate IsLastProgress(f: seq<Chunk>, a: nat, k: nat) {
    && a <= k < |f| && f[k].tokens == Last(f).tokens
    && forall j :: a <= j < k ==> f[j].tokens != f[k].tokens
  }

  /** Chunk `j` brings tokens, the last chunk before it that did, counting from the anchor, being `p`. */
  ghost predicate Brings(f: seq<Chunk>, a: nat, p: nat, j: nat) {
    && a <= p < j < |f| && f[p].tokens == f[j - 1].tokens < f[j].tokens
    && forall q :: a <= q < p ==> f[q].tokens != f[p].tokens
  }

  /** Entry `m` is an equal share of the time from chunk `p` to chunk `j`. */
  ghost predicate ShareAt(f: seq<Chunk>, itl: seq<real>, p: nat, j: nat, m: int)
    requires p < |f| && j < |f| && f[p].tokens < f[j].tokens
  {
    0 <= m < |itl| && itl[m] == (f[j].timestamp - f[p].timestamp) / (f[j].tokens - f[p].tokens) as real
  }

  /** The tokens chunk `j` brings share the time since chunk `p` equally. */
  ghost predicate Shared(f: seq<Chunk>, a: nat, itl: seq<real>, p: nat, j: nat)
    requires a < |f| && p < |f| && j < |f| && f[p].tokens < f[j].tokens
  {
    forall m :: f[p].tokens - f[a].tokens <= m < f[j].tokens - f[a].tokens ==> ShareAt(f, itl, p, j, m)
  }

  ghost predicate AllShared(f: seq<Chunk>, a: nat, itl: seq<real>) {
    forall p: nat, j: nat :: Brings(f, a, p, j) ==> Shared(f, a, itl, p, j)
  }

  lemma BringsBefore(f: seq<Chunk>, c: Chunk, a: nat, p: nat, j: nat)
    requires j < |f| && Brings(f + [c], a, p, j)
    ensures Brings(f, a, p, j)
  {
    var g := f + [c];
    assert forall i :: 0 <= i < |f| ==> g[i] == f[i];
  }

  lemma SharedStays(f: seq<Chunk>, c: Chunk, a: nat, itl: seq<real>, more: seq<real>, p: nat, j: nat)
    requires AllShared(f, a, itl) && j < |f| && Brings(f + [c], a, p, j)
    ensures Shared(f + [c], a, itl + more, p, j)
  {
    BringsBefore(f, c, a, p, j);
    var g := f + [c];
    assert Shared(f, a, itl, p, j);
    assert g[p] == f[p] && g[j] == f[j] && g[a] == f[a];
    forall m | g[p].tokens - g[a].tokens <= m < g[j].tokens - g[a].tokens ensures ShareAt(g, itl + more, p, j, m) {
      assert ShareAt(f, itl, p, j, m);
    }
  }

  /** The books of the loop after the text chunks `f`: anchor `a`, last progress `k`. */
  ghost predicate Account(st: real, f: seq<Chunk>, a: nat, k: nat, ttft: real, itl: seq<real>,
                          mostRecent: real, lastLen: int) {
    && IsAnchor(f, st, a) && ttft == f[a].later - st
    && (ttft == 0.0 ==> itl == [])
    && (NonDecreasing(f) ==>
      && IsLastProgress(f, a, k) && mostRecent == f[k].timestamp && lastLen == Last(f).tokens
      && Total(itl) == f[k].timestamp - f[a].timestamp
      && |itl| == Last(f).tokens - f[a].tokens && AllShared(f, a, itl))
  }

  lemma NonDecreasingInit(f: seq<Chunk>, c: Chunk)
    requires NonDecreasing(f + [c])
    ensures NonDecreasing(f) && forall j :: 0 <= j < |f| ==> f[j].tokens <= c.tokens
  {
    var g := f + [c];
    assert forall j :: 0 <= j < |f| ==> g[j] == f[j];
    assert g[|f|] == c;
  }

  lemma FirstToken(st: real, f: seq<Chunk>, a: nat, c: Chunk)
    requires f == [] || (IsAnchor(f, st, a) && f[a].later == st)
    ensures Account(st, f + [c], |f|, |f|, c.later - st, [], c.timestamp, c.tokens)
  {
    var g := f + [c];
    assert forall j :: 0 <= j < |f| ==> g[j] == f[j];
  }

  lemma NoProgress(st: real, f: seq<Chunk>, a: nat, k: nat, ttft: real, itl: seq<real>,
                   mostRecent: real, lastLen: int, c: Chunk)
    requires f != [] && Account(st, f, a, k, ttft, itl, mostRecent, lastLen) && ttft != 0.0 && c.tokens == lastLen
    ensures Account(st, f + [c], a, k, ttft, itl, mostRecent, lastLen)
  {
    var g := f + [c];
    assert forall j :: 0 <= j < |f| ==> g[j] == f[j];
    if NonDecreasing(g) {
      NonDecreasingInit(f, c);
      NothingBrought(f, c, a, itl);
    }
  }

  lemma NothingBrought(f: seq<Chunk>, c: Chunk, a: nat, itl: seq<real>)
    requires f != [] && AllShared(f, a, itl) && c.tokens == Last(f).tokens
    ensures AllShared(f + [c], a, itl)
  {
    assert itl + [] == itl;
    forall p: nat, j: nat | Brings(f + [c], a, p, j) ensures Shared(f + [c], a, itl, p, j) {
      if j < |f| { SharedStays(f, c, a, itl, [], p, j); }
    }
  }

  lemma TokensBrought(f: seq<Chunk>, a: nat, k: nat, itl: seq<real>, c: Chunk)
    requires f != [] && AllShared(f, a, itl) && IsLastProgress(f, a, k) && f[k].tokens < c.tokens
    requires |itl| == f[k].tokens - f[a].tokens
    ensures var n := c.tokens - f[k].tokens;
      AllShared(f + [c], a, itl + Repeat((c.timestamp - f[k].timestamp) / n as real, n))
  {
    var g, n := f + [c], c.tokens - f[k].tokens;
    var more := Repeat((c.timestamp - f[k].timestamp) / n as real, n);
    forall p: nat, j: nat | Brings(g, a, p, j) ensures Shared(g, a, itl + more, p, j) {
      if j < |f| {
        SharedStays(f, c, a, itl, more, p, j);
      } else {
        SameProgress(f, c, a, k, p);
      }
    }
  }

  lemma SameProgress(f: seq<Chunk>, c: Chunk, a: nat, k: nat, p: nat)
    requires f != [] && IsLastProgress(f, a, k) && Brings(f + [c], a, p, |f|)
    ensures p == k
  {
    var g := f + [c];
    assert forall i :: 0 <= i < |f| ==> g[i] == f[i];
    assert g[p].tokens == f[|f| - 1].tokens == g[k].tokens;
  }

  lemma Progress(st: real, f: seq<Chunk>, a: nat, k: nat, ttft: real, itl: seq<real>,
                 mostRecent: real, lastLen: int, c: Chunk)
    requires f != [] && Account(st, f, a, k, ttft, itl, mostRecent, lastLen) && ttft != 0.0 && c.tokens != lastLen
    ensures var n := c.tokens - lastLen;
      Account(st, f + [c], a, |f|, ttft, itl + Repeat((c.timestamp - mostRecent) / n as real, n), c.timestamp, c.tokens)
  {
    var g := f + [c];
    assert forall j :: 0 <= j < |f| ==> g[j] == f[j];
    assert IsAnchor(g, st, a);
    if NonDecreasing(g) {
      NonDecreasingInit(f, c);
      ProgressShared(f, a, k, itl, c);
    }
  }

  /** The latencies after a chunk with more tokens than any before. */
  lemma ProgressShared(f: seq<Chunk>, a: nat, k: nat, itl: seq<real>, c: Chunk)
    requires f != [] && IsLastProgress(f, a, k) && AllShared(f, a, itl)
    requires Total(itl) == f[k].timestamp - f[a].timestamp && |itl| == f[k].tokens - f[a].tokens
    requires c.tokens != f[k].tokens && forall j :: 0 <= j < |f| ==> f[j].tokens <= c.tokens
    requires NonDecreasing(f)
    ensures var g, n := f + [c], c.tokens - f[k].tokens;
      && n > 0 && IsLastProgress(g, a, |f|)
      && var all := itl + Repeat((c.timestamp - f[k].timestamp) / n as real, n);
        Total(all) == c.timestamp - f[a].timestamp && |all| == c.tokens - f[a].tokens && AllShared(g, a, all)
  {
    var g, n := f + [c], c.tokens - f[k].tokens;
    assert f[k].tokens <= c.tokens;
    NewestProgress(f, a, c);
    TokensBrought(f, a, k, itl, c);
    TotalShares(itl, c.timestamp - f[k].timestamp, n);
  }

  lemma NewestProgress(f: seq<Chunk>, a: nat, c: Chunk)
    requires a < |f| && f[|f| - 1].tokens != c.tokens && forall j :: 0 <= j < |f| ==> f[j].tokens <= c.tokens
    requires forall j :: 0 <= j < |f| ==> f[j].tokens <= f[|f| - 1].tokens
    ensures IsLastProgress(f + [c], a, |f|)
  {
    var g := f + [c];
    assert forall j :: 0 <= j < |f| ==> g[j] == f[j];
    assert Last(g) == c && g[|f|] == c;
  }

  /** The variables of the loop. */
  datatype Books = Books(ttft: real, itl: seq<real>, mostRecent: real, lastLen: int, outputLen: int)

  function Next(st: real, b: Books, c: Chunk): Books {
    if !c.hasText then b
    else if b.ttft == 0.0 then Books(c.later - st, b.itl, c.timestamp, c.tokens, c.tokens)
    else
      var n := c.tokens - b.lastLen;
      if n == 0 then b.(outputLen := c.tokens)
      else Books(b.ttft, b.itl + Repeat((c.timestamp - b.mostRecent) / n as real, n), c.timestamp, c.tokens, c.tokens)
  }

  function BooksAfter(st: real, requested: int, chunks: seq<Chunk>): Books {
    if chunks == [] then Books(0.0, [], st, 0, requested)
    else Next(st, BooksAfter(st, requested, chunks[..|chunks| - 1]), chunks[|chunks| - 1])
  }

  method SglangStream(st: real, requested: int, chunks: seq<Chunk>)
    returns (ttft: real, itl: seq<real>, mostRecent: real, lastLen: int, outputLen: int)
    ensures Books(ttft, itl, mostRecent, lastLen, outputLen) == BooksAfter(st, requested, chunks)
  {
    ttft, itl, mostRecent, lastLen, outputLen := 0.0, [], st, 0, requested;
    for i := 0 to |chunks|
      invariant Books(ttft, itl, mostRecent, lastLen, outputLen) == BooksAfter(st, requested, chunks[..i])
    {
      var chunk := chunks[i];
      assert chunks[..i + 1][..i] == chunks[..i];
      if chunk.hasText {
        var timestamp := chunk.timestamp;
        outputLen := chunk.tokens;
        if ttft == 0.0 {
          ttft := chunk.later - st;
        } else {
          var newTokens := outputLen - lastLen;
          if newTokens == 0 {
            continue;
          }
          var adjusted := (timestamp - mostRecent) / newTokens as real;
          itl := itl + Repeat(adjusted, newTokens);
        }
        mostRecent := timestamp;
        lastLen := outputLen;
      }
    }
    assert chunks[..|chunks|] == chunks;
  }

  /** What the loop leaves behind: the anchor's time to first token and the last count; and, if
      completion counts never go down, latencies that add up to the time from the first token to the
      last progress, one for every token after the anchor's. */
  lemma {:induction false} StreamAccount(st: real, requested: int, chunks: seq<Chunk>) returns (a: nat, k: nat)
    ensures var f, b := TextChunks(chunks), BooksAfter(st, requested, chunks);
      if f == [] then b == Books(0.0, [], st, 0, requested)
      else Account(st, f, a, k, b.ttft, b.itl, b.mostRecent, b.lastLen) && b.outputLen == Last(f).tokens
    decreases |chunks|
  {
    a, k := 0, 0;
    if chunks != [] {
      var n := |chunks| - 1;
      a, k := StreamAccount(st, requested, chunks[..n]);
      var f, b := TextChunks(chunks[..n]), BooksAfter(st, requested, chunks[..n]);
      a, k := AccountNext(st, f, b, chunks[n], requested, a, k);
    }
  }

  lemma AccountNext(st: real, f: seq<Chunk>, b: Books, c: Chunk, requested: int, a: nat, k: nat)
    returns (a': nat, k': nat)
    requires if f == [] then b == Books(0.0, [], st, 0, requested)
             else Account(st, f, a, k, b.ttft, b.itl, b.mostRecent, b.lastLen) && b.outputLen == Last(f).tokens
    ensures var f', b' := f + (if c.hasText then [c] else []), Next(st, b, c);
      if f' == [] then b' == Books(0.0, [], st, 0, requested)
      else Account(st, f', a', k', b'.ttft, b'.itl, b'.mostRecent, b'.lastLen) && b'.outputLen == Last(f').tokens
  {
    a', k' := a, k;
    if !c.hasText {
      assert f + [] == f;
    } else if b.ttft == 0.0 {
      FirstToken(st, f, a, c);
      a', k' := |f|, |f|;
    } else if c.tokens == b.lastLen {
      NoProgress(st, f, a, k, b.ttft, b.itl, b.mostRecent, b.lastLen, c);
    } else {
      Progress(st, f, a, k, b.ttft, b.itl, b.mostRecent, b.lastLen, c);
      k' := |f|;
    }
  }
}
