/** `find_closest_aspect_ratio` and the tiling arithmetic of `dynamic_preprocess`. Floating-point
    numbers are modelled as reals. */
module Tiling {
  import opened Arithmetic
  import opened Text

  /** Columns and rows. */
  type Ratio = r: (int, int) | r.0 >= 1 && r.1 >= 1 witness (1, 1)

  function Tiles(r: Ratio): int {
    r.0 * r.1
  }

  // ---------------------------------------------------------------- the candidates

  /** The comprehension over `n`, `i` and `j`. */
  ghost function TargetRatios(minNum: int, maxNum: int): set<(int, int)> {
    set n, i, j | minNum <= n <= maxNum && 1 <= i <= n && 1 <= j <= n && Listed(minNum, maxNum, n, i, j) :: (i, j)
  }

  predicate Listed(minNum: int, maxNum: int, n: int, i: int, j: int) {
    i <= n && j <= n && i * j <= maxNum && i * j >= minNum
  }

  lemma FactorBound(i: int, j: int)
    requires i >= 1 && j >= 1
    ensures i <= i * j && j <= i * j
  {
    assert (i - 1) * j >= 0 && i * (j - 1) >= 0;
  }

  /** The bounds on `i` and `j` lose nothing: all ratios with an admissible number of tiles are there. */
  lemma RatiosAreAll(minNum: int, maxNum: int, i: int, j: int)
    ensures (i, j) in TargetRatios(minNum, maxNum) <==> i >= 1 && j >= 1 && minNum <= i * j <= maxNum
  {
    if i >= 1 && j >= 1 && minNum <= i * j <= maxNum {
      FactorBound(i, j);
      assert Listed(minNum, maxNum, maxNum, i, j);
    }
  }

  // ---------------------------------------------------------------- the choice

  function Abs(x: real): real {
    if x < 0.0 then -x else x
  }

  function Diff(aspect: real, r: Ratio): real {
    Abs(aspect - r.0 as real / r.1 as real)
  }

  /** The image is large enough for half of the tiles' pixels. */
  predicate LargeEnough(area: int, imageSize: int, r: Ratio) {
    area as real > 0.5 * imageSize as real * imageSize as real * r.0 as real * r.1 as real
  }

  /** Position `k` has the smallest difference among `ratios`. */
  ghost predicate Minimal(aspect: real, ratios: seq<Ratio>, k: nat) {
    k < |ratios| && forall j :: 0 <= j < |ratios| ==> Diff(aspect, ratios[k]) <= Diff(aspect, ratios[j])
  }

  ghost predicate First(aspect: real, ratios: seq<Ratio>, k: nat) {
    Minimal(aspect, ratios, k) && forall j :: 0 <= j < k ==> !Minimal(aspect, ratios, j)
  }

  /** The loop keeps the first minimiser and replaces it by every later one that passes the area test. */
  ghost predicate Chosen(aspect: real, area: int, imageSize: int, ratios: seq<Ratio>, f: nat, k: nat) {
    && First(aspect, ratios, f) && Minimal(aspect, ratios, k) && f <= k
    && (k == f || LargeEnough(area, imageSize, ratios[k]))
    && forall j :: k < j < |ratios| && Minimal(aspect, ratios, j) ==> !LargeEnough(area, imageSize, ratios[j])
  }

  lemma SmallerDiff(aspect: real, area: int, imageSize: int, ratios: seq<Ratio>, f: nat, k: nat, r: Ratio)
    requires ratios == [] || Chosen(aspect, area, imageSize, ratios, f, k)
    requires ratios != [] ==> Diff(aspect, r) < Diff(aspect, ratios[k])
    ensures Chosen(aspect, area, imageSize, ratios + [r], |ratios|, |ratios|)
  {
    var all := ratios + [r];
    assert Minimal(aspect, all, |ratios|);
    assert forall j :: 0 <= j < |ratios| ==> all[j] == ratios[j];
  }

  lemma LargerDiff(aspect: real, area: int, imageSize: int, ratios: seq<Ratio>, f: nat, k: nat, r: Ratio)
    requires Chosen(aspect, area, imageSize, ratios, f, k)
    requires Diff(aspect, r) > Diff(aspect, ratios[k])
    ensures Chosen(aspect, area, imageSize, ratios + [r], f, k)
  {
    MinimalSnoc(aspect, ratios, k, r);
  }

  lemma SameDiff(aspect: real, area: int, imageSize: int, ratios: seq<Ratio>, f: nat, k: nat, r: Ratio)
    requires Chosen(aspect, area, imageSize, ratios, f, k)
    requires Diff(aspect, r) == Diff(aspect, ratios[k])
    ensures Chosen(aspect, area, imageSize, ratios + [r], f,
      if LargeEnough(area, imageSize, r) then |ratios| else k)
  {
    MinimalSnoc(aspect, ratios, k, r);
  }

  lemma MinimalSnoc(aspect: real, ratios: seq<Ratio>, k: nat, r: Ratio)
    requires Minimal(aspect, ratios, k) && Diff(aspect, r) >= Diff(aspect, ratios[k])
    ensures forall j :: 0 <= j < |ratios| ==> (Minimal(aspect, ratios + [r], j) <==> Minimal(aspect, ratios, j))
    ensures Minimal(aspect, ratios + [r], |ratios|) <==> Diff(aspect, r) == Diff(aspect, ratios[k])
  {
    var all := ratios + [r];
    assert forall j :: 0 <= j < |ratios| ==> all[j] == ratios[j];
    forall j | 0 <= j < |ratios| ensures Minimal(aspect, all, j) <==> Minimal(aspect, ratios, j) {
      if Minimal(aspect, all, j) {
        forall i | 0 <= i < |ratios| ensures Diff(aspect, ratios[j]) <= Diff(aspect, ratios[i]) {
          assert all[i] == ratios[i];
        }
      }
    }
  }

  /** The choice among the first `i` candidates. */
  ghost predicate ChosenUpTo(aspect: real, area: int, imageSize: int, ratios: seq<Ratio>, i: nat, f: nat, k: nat) {
    i <= |ratios| && Chosen(aspect, area, imageSize, ratios[..i], f, k)
  }

  lemma NextCandidate(aspect: real, area: int, imageSize: int, ratios: seq<Ratio>, i: nat, f: nat, k: nat)
    requires i < |ratios| && (i == 0 || ChosenUpTo(aspect, area, imageSize, ratios, i, f, k))
    ensures i == 0 || Diff(aspect, ratios[i]) < Diff(aspect, ratios[k]) ==>
      ChosenUpTo(aspect, area, imageSize, ratios, i + 1, i, i)
    ensures i > 0 && Diff(aspect, ratios[i]) > Diff(aspect, ratios[k]) ==>
      ChosenUpTo(aspect, area, imageSize, ratios, i + 1, f, k)
    ensures i > 0 && Diff(aspect, ratios[i]) == Diff(aspect, ratios[k]) ==>
      ChosenUpTo(aspect, area, imageSize, ratios, i + 1, f, if LargeEnough(area, imageSize, ratios[i]) then i else k)
  {
    var p, r := ratios[..i], ratios[i];
    assert ratios[..i + 1] == p + [r];
    if i == 0 || Diff(aspect, r) < Diff(aspect, ratios[k]) {
      SmallerDiff(aspect, area, imageSize, p, f, k, r);
    } else if Diff(aspect, r) > Diff(aspect, ratios[k]) {
      LargerDiff(aspect, area, imageSize, p, f, k, r);
    } else {
      SameDiff(aspect, area, imageSize, p, f, k, r);
    }
  }

  method FindClosestAspectRatio(aspect: real, ratios: seq<Ratio>, width: int, height: int, imageSize: int)
    returns (best: Ratio, ghost f: nat, ghost k: nat)
    ensures ratios == [] ==> best == (1, 1)
    ensures ratios != [] ==> Chosen(aspect, width * height, imageSize, ratios, f, k) && best == ratios[k]
  {
    var bestDiff: Option<real> := None;
    best := (1, 1);
    f, k := 0, 0;
    var area := width * height;
    for i := 0 to |ratios|
      invariant i == 0 ==> bestDiff == None && best == (1, 1)
      invariant i > 0 ==> ChosenUpTo(aspect, area, imageSize, ratios, i, f, k) && best == ratios[k]
      invariant i > 0 ==> bestDiff == Some(Diff(aspect, best))
    {
      var ratio := ratios[i];
      var diff := Diff(aspect, ratio);
      NextCandidate(aspect, area, imageSize, ratios, i, f, k);
      if bestDiff.None? || diff < bestDiff.value {
        bestDiff, best := Some(diff), ratio;
        f, k := i, i;
      } else if diff == bestDiff.value {
        if LargeEnough(area, imageSize, ratio) {
          best := ratio;
          k := i;
        }
      }
    }
    assert ratios[..|ratios|] == ratios;
  }

  ghost predicate SortedByTiles(ratios: seq<Ratio>) {
    forall i, j :: 0 <= i < j < |ratios| ==> Tiles(ratios[i]) <= Tiles(ratios[j])
  }

  lemma FewerTilesPass(area: int, imageSize: int, a: Ratio, b: Ratio)
    requires Tiles(a) <= Tiles(b) && LargeEnough(area, imageSize, b)
    ensures LargeEnough(area, imageSize, a)
  {
    var half := 0.5 * imageSize as real * imageSize as real;
    var ta, tb := Tiles(a) as real, Tiles(b) as real;
    assert half >= 0.0;
    assert half * ta <= half * tb;
    assert half * a.0 as real * a.1 as real == half * ta;
    assert half * b.0 as real * b.1 as real == half * tb;
  }

  /** On candidates sorted by tile count, the choice minimises the difference; among the minimisers it
      has the most tiles of those passing the area test, or is the first one if none passes. */
  lemma ChoiceIsBest(aspect: real, area: int, imageSize: int, ratios: seq<Ratio>, f: nat, k: nat)
    requires SortedByTiles(ratios) && Chosen(aspect, area, imageSize, ratios, f, k)
    ensures forall j :: 0 <= j < |ratios| ==> Diff(aspect, ratios[k]) <= Diff(aspect, ratios[j])
    ensures forall j: nat :: Minimal(aspect, ratios, j) && LargeEnough(area, imageSize, ratios[j]) ==>
      LargeEnough(area, imageSize, ratios[k]) && Tiles(ratios[j]) <= Tiles(ratios[k])
    ensures !LargeEnough(area, imageSize, ratios[k]) ==> k == f
  {
    forall j: nat | Minimal(aspect, ratios, j) && LargeEnough(area, imageSize, ratios[j])
      ensures LargeEnough(area, imageSize, ratios[k]) && Tiles(ratios[j]) <= Tiles(ratios[k])
    {
      PassingMinimiser(aspect, area, imageSize, ratios, f, k, j);
    }
  }

  lemma PassingMinimiser(aspect: real, area: int, imageSize: int, ratios: seq<Ratio>, f: nat, k: nat, j: nat)
    requires SortedByTiles(ratios) && Chosen(aspect, area, imageSize, ratios, f, k)
    requires Minimal(aspect, ratios, j) && LargeEnough(area, imageSize, ratios[j])
    ensures LargeEnough(area, imageSize, ratios[k]) && Tiles(ratios[j]) <= Tiles(ratios[k])
  {
    assert f <= j <= k;
    if k == f {
      FewerTilesPass(area, imageSize, ratios[k], ratios[j]);
    }
  }

  // ---------------------------------------------------------------- the crop boxes

  datatype Box = Box(left: int, top: int, right: int, bottom: int)

  predicate Inside(b: Box, x: int, y: int) {
    b.left <= x < b.right && b.top <= y < b.bottom
  }

  method CropBoxes(r: Ratio, imageSize: int) returns (boxes: seq<Box>)
    requires imageSize > 0
    ensures |boxes| == Tiles(r)
    ensures forall i :: 0 <= i < |boxes| ==> boxes[i] == BoxAt(r, imageSize, i)
  {
    var targetWidth := imageSize * r.0;
    var blocks := r.0 * r.1;
    FactorBound(r.0, r.1);
    DivMod(r.0, imageSize, 0);
    var columns := targetWidth / imageSize;
    boxes := [];
    for i := 0 to blocks
      invariant |boxes| == i
      invariant forall k :: 0 <= k < i ==> boxes[k] == BoxAt(r, imageSize, k)
    {
      boxes := boxes + [Box((i % columns) * imageSize, (i / columns) * imageSize,
                            (i % columns + 1) * imageSize, (i / columns + 1) * imageSize)];
    }
  }

  function BoxAt(r: Ratio, imageSize: int, i: nat): Box {
    var column, row := i % r.0, i / r.0;
    Box(column * imageSize, row * imageSize, (column + 1) * imageSize, (row + 1) * imageSize)
  }

  lemma NextCell(i: nat, columns: nat)
    requires columns > 0
    ensures if i % columns + 1 < columns then (i + 1) % columns == i % columns + 1 && (i + 1) / columns == i / columns
            else (i + 1) % columns == 0 && (i + 1) / columns == i / columns + 1
  {
    var column, row := i % columns, i / columns;
    assert i == row * columns + column;
    if column + 1 < columns {
      DivMod(row, columns, column + 1);
    } else {
      assert i + 1 == (row + 1) * columns;
      DivMod(row + 1, columns, 0);
    }
  }

  lemma LastColumn(column: nat, n: nat, columns: nat)
    requires n > 0 && column < columns
    ensures (column + 1) * n == column * n + n
    ensures (column + 1) * n == n * columns <==> column + 1 == columns
  {
    assert (column + 1) * n == column * n + n;
    if column + 1 < columns {
      ProductStep(n, column + 1, columns);
    }
  }

  /** The boxes go through the image row by row, from the left and from the top. */
  lemma BoxOrder(r: Ratio, imageSize: nat, i: nat)
    requires imageSize > 0
    ensures BoxAt(r, imageSize, 0) == Box(0, 0, imageSize, imageSize)
    ensures var b, next := BoxAt(r, imageSize, i), BoxAt(r, imageSize, i + 1);
      && b.right == b.left + imageSize && b.bottom == b.top + imageSize
      && (if b.right != imageSize * r.0 then next.left == b.right && next.top == b.top
          else next.left == 0 && next.top == b.bottom)
  {
    NextCell(i, r.0);
    LastColumn(i % r.0, imageSize, r.0);
    assert (i / r.0 + 1) * imageSize == i / r.0 * imageSize + imageSize;
  }

  /** The number of the box that holds a pixel. */
  function BoxOf(r: Ratio, imageSize: int, x: nat, y: nat): int
    requires imageSize > 0
  {
    (y / imageSize) * r.0 + x / imageSize
  }

  lemma QuotientBelow(x: nat, n: nat, bound: int)
    requires n > 0 && x < n * bound
    ensures 0 <= x / n < bound
  {
    var q := x / n;
    assert x == n * q + x % n;
    if bound - 1 < q {
      ProductStep(n, bound - 1, q);
    }
  }

  lemma InsideInterval(x: int, n: nat, q: int)
    requires n > 0
    ensures q * n <= x < (q + 1) * n <==> x / n == q
  {
    assert x == n * (x / n) + x % n;
    if q * n <= x < (q + 1) * n {
      assert (q + 1) * n == q * n + n;
      DivMod(q, n, x - q * n);
    }
    if x / n == q {
      assert (q + 1) * n == n * q + n;
    }
  }

  lemma BoxHolds(r: Ratio, imageSize: int, i: nat, x: nat, y: nat)
    requires imageSize > 0 && x < imageSize * r.0
    ensures Inside(BoxAt(r, imageSize, i), x, y) <==> i == BoxOf(r, imageSize, x, y)
  {
    InsideInterval(x, imageSize, i % r.0);
    InsideInterval(y, imageSize, i / r.0);
    QuotientBelow(x, imageSize, r.0);
    assert i == (i / r.0) * r.0 + i % r.0;
    DivMod(y / imageSize, r.0, x / imageSize);
  }

  /** The crop boxes partition the resized image: every pixel lies in exactly one of them. */
  lemma EveryPixelInOneBox(r: Ratio, imageSize: int, x: nat, y: nat)
    requires imageSize > 0 && x < imageSize * r.0 && y < imageSize * r.1
    ensures 0 <= BoxOf(r, imageSize, x, y) < Tiles(r)
    ensures forall i: nat :: Inside(BoxAt(r, imageSize, i), x, y) <==> i == BoxOf(r, imageSize, x, y)
  {
    QuotientBelow(x, imageSize, r.0);
    QuotientBelow(y, imageSize, r.1);
    ProductStep(r.0, y / imageSize, r.1);
    assert (y / imageSize) * r.0 >= 0;
    forall i: nat ensures Inside(BoxAt(r, imageSize, i), x, y) <==> i == BoxOf(r, imageSize, x, y) {
      BoxHolds(r, imageSize, i, x, y);
    }
  }

  /** No box sticks out of the resized image. */
  lemma BoxWithinImage(r: Ratio, imageSize: int, i: nat)
    requires imageSize > 0 && i < Tiles(r)
    ensures var b := BoxAt(r, imageSize, i);
      0 <= b.left < b.right <= imageSize * r.0 && 0 <= b.top < b.bottom <= imageSize * r.1
  {
    QuotientBelow(i, r.0, r.1);
    IntervalWithin(i % r.0, imageSize, r.0);
    IntervalWithin(i / r.0, imageSize, r.1);
  }

  lemma IntervalWithin(q: nat, n: nat, bound: int)
    requires n > 0 && q < bound
    ensures 0 <= q * n < (q + 1) * n <= n * bound
  {
    assert (q + 1) * n == q * n + n;
    ProductStep(n, q, bound);
  }

  // ---------------------------------------------------------------- both together

  /** All admissible ratios, sorted by tile count; ties may come in any order. */
  ghost predicate Listing(ratios: seq<Ratio>, minNum: int, maxNum: int) {
    SortedByTiles(ratios) && forall i, j :: (i, j) in ratios <==> (i, j) in TargetRatios(minNum, maxNum)
  }

  function AbsInt(x: int): int {
    if x < 0 then -x else x
  }

  /** By how much columns and rows miss the proportions of the image; zero if they meet them exactly. */
  function Gap(width: int, height: int, r: Ratio): int {
    AbsInt(width * r.1 - height * r.0)
  }

  lemma RealProduct(a: int, b: int)
    ensures (a * b) as real == a as real * b as real
  {
  }

  lemma ScaledDistance(a: real, h: real, i: real, j: real)
    requires j > 0.0
    ensures (a - i / j) * (h * j) == (a * h) * j - h * i
  {
    assert (i / j) * j == i;
    assert (i / j) * (h * j) == h * i;
    assert a * (h * j) == (a * h) * j;
  }

  lemma AbsTimes(x: real, y: real)
    requires y > 0.0
    ensures Abs(x) * y == Abs(x * y)
  {
    if x < 0.0 {
      assert x * y < 0.0;
    } else {
      assert x * y >= 0.0;
    }
  }

  predicate Times(x: real, h: int, j: int, g: int) {
    x * (h as real * j as real) == g as real
  }

  lemma DiffIsGap(aspect: real, width: int, height: int, r: Ratio)
    requires height > 0 && aspect * height as real == width as real
    ensures Times(Diff(aspect, r), height, r.1, Gap(width, height, r))
  {
    var h, i, j := height as real, r.0 as real, r.1 as real;
    ScaledDistance(aspect, h, i, j);
    assert h * j > 0.0;
    AbsTimes(aspect - i / j, h * j);
    RealProduct(width, r.1);
    RealProduct(height, r.0);
  }

  lemma Scaled(x: real, y: real, k: real)
    requires k > 0.0
    ensures x <= y <==> x * k <= y * k
  {
    if x <= y { assert (y - x) * k >= 0.0; } else { assert (x - y) * k > 0.0; }
  }

  lemma Rescaled(x: real, y: real, h: real, jb: real, jr: real)
    requires h > 0.0 && jb > 0.0 && jr > 0.0
    ensures x <= y <==> (x * (h * jb)) * jr <= (y * (h * jr)) * jb
  {
    var k := (h * jb) * jr;
    assert h * jb > 0.0;
    assert k > 0.0;
    Scaled(x, y, k);
    assert x * k == (x * (h * jb)) * jr;
    assert y * k == (y * (h * jr)) * jb;
  }

  lemma GapOrder(x: real, y: real, h: int, b: int, r: int, gb: int, gr: int)
    requires h > 0 && b > 0 && r > 0 && Times(x, h, b, gb) && Times(y, h, r, gr)
    ensures x <= y <==> gb * r <= gr * b
  {
    Rescaled(x, y, h as real, b as real, r as real);
    RealProduct(gb, r);
    RealProduct(gr, b);
  }

  /** The order of the differences in integers. */
  lemma CloserInIntegers(aspect: real, width: int, height: int, b: Ratio, r: Ratio)
    requires height > 0 && aspect * height as real == width as real
    ensures Diff(aspect, b) <= Diff(aspect, r) <==> Gap(width, height, b) * r.1 <= Gap(width, height, r) * b.1
  {
    DiffIsGap(aspect, width, height, b);
    DiffIsGap(aspect, width, height, r);
    GapOrder(Diff(aspect, b), Diff(aspect, r), height, b.1, r.1, Gap(width, height, b), Gap(width, height, r));
  }

  /** The area test in integers: the image has more than half of the tiles' pixels. */
  lemma LargeInIntegers(area: int, imageSize: int, r: Ratio)
    ensures LargeEnough(area, imageSize, r) <==> 2 * area > imageSize * imageSize * Tiles(r)
  {
    var half := 0.5 * imageSize as real * imageSize as real;
    RealProduct(r.0, r.1);
    assert half * r.0 as real * r.1 as real == half * Tiles(r) as real;
    RealProduct(imageSize, imageSize);
    RealProduct(imageSize * imageSize, Tiles(r));
    assert 2.0 * (half * Tiles(r) as real) == (imageSize * imageSize * Tiles(r)) as real;
  }

  /** `b` is at least as close as `r`. If both are equally close, and `r` passes the area test, then so does `b`,
      with no fewer tiles; if `b` does not pass, it has no more tiles. */
  ghost predicate NoBetter(width: int, height: int, imageSize: int, r: Ratio, b: Ratio) {
    && Gap(width, height, b) * r.1 <= Gap(width, height, r) * b.1
    && (Gap(width, height, b) * r.1 == Gap(width, height, r) * b.1 ==>
          && (2 * (width * height) > imageSize * imageSize * Tiles(r) ==>
               2 * (width * height) > imageSize * imageSize * Tiles(b) && Tiles(r) <= Tiles(b))
          && (2 * (width * height) <= imageSize * imageSize * Tiles(b) ==> Tiles(b) <= Tiles(r)))
  }

  lemma ChosenBeats(width: int, height: int, imageSize: int, ratios: seq<Ratio>, f: nat, k: nat, c: nat)
    requires height > 0 && SortedByTiles(ratios) && c < |ratios|
    requires Chosen(width as real / height as real, width * height, imageSize, ratios, f, k)
    ensures NoBetter(width, height, imageSize, ratios[c], ratios[k])
  {
    var aspect := width as real / height as real;
    ChoiceIsBest(aspect, width * height, imageSize, ratios, f, k);
    assert aspect * height as real == width as real;
    CloserInIntegers(aspect, width, height, ratios[k], ratios[c]);
    CloserInIntegers(aspect, width, height, ratios[c], ratios[k]);
    LargeInIntegers(width * height, imageSize, ratios[c]);
    LargeInIntegers(width * height, imageSize, ratios[k]);
    if Diff(aspect, ratios[k]) == Diff(aspect, ratios[c]) {
      assert Minimal(aspect, ratios, c);
    }
  }

  lemma NoLargerThanMultiple(a: nat, n: nat)
    requires n >= 1
    ensures a <= a * n
  {
    assert a * (n - 1) >= 0;
  }

  /** A ratio that no admissible one beats meets the proportions exactly whenever an admissible one does. */
  lemma ExactRatioChosen(width: int, height: int, imageSize: int, r: Ratio, b: Ratio)
    requires NoBetter(width, height, imageSize, r, b) && width * r.1 == height * r.0
    ensures width * b.1 == height * b.0
  {
    assert Gap(width, height, r) * b.1 == 0;
    NoLargerThanMultiple(Gap(width, height, b), r.1);
  }

  /** The boxes to crop from the resized image, and whether a thumbnail is added. The number of boxes
      respects the limits whenever they admit any ratio at all. */
  method DynamicPreprocess(width: int, height: int, minNum: int, maxNum: int, imageSize: int,
                           useThumbnail: bool, ratios: seq<Ratio>)
    returns (ratio: Ratio, boxes: seq<Box>, thumbnail: bool)
    requires height > 0 && imageSize > 0 && Listing(ratios, minNum, maxNum)
    ensures |boxes| == Tiles(ratio) && forall i :: 0 <= i < |boxes| ==> boxes[i] == BoxAt(ratio, imageSize, i)
    ensures thumbnail <==> useThumbnail && |boxes| != 1
    ensures maxNum >= 1 && minNum <= maxNum ==> minNum <= |boxes| <= maxNum
    ensures maxNum < 1 || minNum > maxNum ==> |boxes| == 1
    ensures forall i, j :: (i, j) in TargetRatios(minNum, maxNum) ==>
      i >= 1 && j >= 1 && NoBetter(width, height, imageSize, (i, j), ratio)
  {
    var aspect := width as real / height as real;
    ghost var f, k;
    ratio, f, k := FindClosestAspectRatio(aspect, ratios, width, height, imageSize);
    boxes := CropBoxes(ratio, imageSize);
    thumbnail := useThumbnail && |boxes| != 1;
    forall i, j | (i, j) in TargetRatios(minNum, maxNum)
      ensures i >= 1 && j >= 1 && NoBetter(width, height, imageSize, (i, j), ratio)
    {
      RatiosAreAll(minNum, maxNum, i, j);
      var c :| 0 <= c < |ratios| && ratios[c] == (i, j);
      ChosenBeats(width, height, imageSize, ratios, f, k, c);
    }
    RatioAdmissible(ratios, minNum, maxNum, ratio);
  }

  lemma RatioAdmissible(ratios: seq<Ratio>, minNum: int, maxNum: int, r: Ratio)
    requires Listing(ratios, minNum, maxNum) && if ratios == [] then r == (1, 1) else r in ratios
    ensures maxNum >= 1 && minNum <= maxNum ==> minNum <= Tiles(r) <= maxNum
    ensures maxNum < 1 || minNum > maxNum ==> Tiles(r) == 1
  {
    RatiosAreAll(minNum, maxNum, maxNum, 1);
    RatiosAreAll(minNum, maxNum, r.0, r.1);
    assert (maxNum, 1) in TargetRatios(minNum, maxNum) ==> ratios != [];
    FactorBound(r.0, r.1);
    assert ratios != [] ==> (r.0, r.1) in ratios;
  }
}
