/** `common_filter_chat`: pick conversations whose turns have acceptable lengths, going round the
    dataset as often as it takes to get the requested number. */
module FilterChat {
  import opened Arithmetic
  import opened Text

  /** `fixedOutput` replaces the tokenized length of every completion. */
  datatype Limits = Limits(minPrompt: Option<int>, minOutput: Option<int>,
                           maxPrompt: Option<int>, maxOutput: Option<int>, fixedOutput: Option<int>)

  datatype Entry = Entry(prompt: string, promptLen: int, outputLen: int)

  /** Prompt and completion of one turn. */
  type Exchange = (string, string)

  function Measure(tokens: string -> nat, lim: Limits, j: Exchange): Entry {
    Entry(j.0, tokens(j.0), if lim.fixedOutput.None? then tokens(j.1) else lim.fixedOutput.value)
  }

  predicate Pruned(lim: Limits, e: Entry) {
    || (lim.minPrompt.Some? && e.promptLen < lim.minPrompt.value)
    || (lim.minOutput.Some? && e.outputLen < lim.minOutput.value)
    || (lim.maxPrompt.Some? && e.promptLen > lim.maxPrompt.value)
    || (lim.maxOutput.Some? && e.outputLen > lim.maxOutput.value)
  }

  predicate AtLeast(n: int, bound: Option<int>) {
    bound.Some? ==> bound.value <= n
  }

  predicate AtMost(n: int, bound: Option<int>) {
    bound.Some? ==> n <= bound.value
  }

  /** What a kept turn looks like: the prompt with its token count, the completion's or the fixed count,
      and every limit that is set is met. */
  predicate Fits(tokens: string -> nat, lim: Limits, j: Exchange, e: Entry) {
    && e.prompt == j.0 && e.promptLen == tokens(j.0)
    && (match lim.fixedOutput case None => e.outputLen == tokens(j.1) case Some(n) => e.outputLen == n)
    && AtLeast(e.promptLen, lim.minPrompt) && AtMost(e.promptLen, lim.maxPrompt)
    && AtLeast(e.outputLen, lim.minOutput) && AtMost(e.outputLen, lim.maxOutput)
  }

  /** Measuring and pruning together keep exactly the turns that fit. */
  lemma KeptFits(tokens: string -> nat, lim: Limits, j: Exchange, e: Entry)
    ensures Fits(tokens, lim, j, e) <==> e == Measure(tokens, lim, j) && !Pruned(lim, e)
  {
    var m := Measure(tokens, lim, j);
    if e.prompt == m.prompt && e.promptLen == m.promptLen && e.outputLen == m.outputLen {
      assert e == m;
    }
  }

  function Processed(tokens: string -> nat, lim: Limits, conv: seq<Exchange>): seq<Entry> {
    if conv == [] then []
    else
      var n := |conv| - 1;
      var e := Measure(tokens, lim, conv[n]);
      Processed(tokens, lim, conv[..n]) + if Pruned(lim, e) then [] else [e]
  }

  lemma ProcessedSnoc(tokens: string -> nat, lim: Limits, conv: seq<Exchange>, k: nat)
    requires k < |conv|
    ensures var e := Measure(tokens, lim, conv[k]);
      Processed(tokens, lim, conv[..k + 1]) == Processed(tokens, lim, conv[..k]) + if Pruned(lim, e) then [] else [e]
  {
    assert conv[..k + 1][..k] == conv[..k];
  }

  /** A turn is kept if and only if it is within all limits. */
  lemma {:induction false} KeptExactlyWhen(tokens: string -> nat, lim: Limits, conv: seq<Exchange>, e: Entry)
    ensures e in Processed(tokens, lim, conv) <==> exists k :: 0 <= k < |conv| && Fits(tokens, lim, conv[k], e)
  {
    if conv != [] {
      var n := |conv| - 1;
      KeptExactlyWhen(tokens, lim, conv[..n], e);
      KeptFits(tokens, lim, conv[n], e);
      assert forall k :: 0 <= k < n ==> conv[..n][k] == conv[k];
    }
  }

  ghost predicate Acceptable(tokens: string -> nat, lim: Limits, j: Exchange) {
    exists e :: Fits(tokens, lim, j, e)
  }

  /** How many of the first `k` turns fit. */
  ghost function FittingBefore(tokens: string -> nat, lim: Limits, conv: seq<Exchange>, k: nat): nat
    requires k <= |conv|
  {
    if k == 0 then 0
    else FittingBefore(tokens, lim, conv, k - 1) + if Acceptable(tokens, lim, conv[k - 1]) then 1 else 0
  }

  lemma FitsOnce(tokens: string -> nat, lim: Limits, j: Exchange)
    ensures Acceptable(tokens, lim, j) <==> !Pruned(lim, Measure(tokens, lim, j))
  {
    KeptFits(tokens, lim, j, Measure(tokens, lim, j));
    forall e | Fits(tokens, lim, j, e) ensures e == Measure(tokens, lim, j) { KeptFits(tokens, lim, j, e); }
  }

  lemma {:induction false} ProcessedSize(tokens: string -> nat, lim: Limits, conv: seq<Exchange>, k: nat)
    requires k <= |conv|
    ensures |Processed(tokens, lim, conv[..k])| == FittingBefore(tokens, lim, conv, k)
  {
    if k > 0 {
      ProcessedSize(tokens, lim, conv, k - 1);
      FitsOnce(tokens, lim, conv[k - 1]);
      ProcessedSnoc(tokens, lim, conv, k - 1);
    }
  }

  lemma {:induction false} ProcessedPrefix(tokens: string -> nat, lim: Limits, conv: seq<Exchange>, k: nat)
    requires k <= |conv|
    ensures Processed(tokens, lim, conv[..k]) <= Processed(tokens, lim, conv)
    decreases |conv| - k
  {
    if k == |conv| {
      assert conv[..k] == conv;
    } else {
      ProcessedPrefix(tokens, lim, conv, k + 1);
      ProcessedSnoc(tokens, lim, conv, k);
    }
  }

  /** The kept turns stand in their order in the conversation: turn `k` behind exactly those before it
      that fit. */
  lemma KeptInOrder(tokens: string -> nat, lim: Limits, conv: seq<Exchange>, k: nat, e: Entry)
    requires k < |conv| && Fits(tokens, lim, conv[k], e)
    ensures var r := FittingBefore(tokens, lim, conv, k);
      r < |Processed(tokens, lim, conv)| && Processed(tokens, lim, conv)[r] == e
    ensures |Processed(tokens, lim, conv)| == FittingBefore(tokens, lim, conv, |conv|)
  {
    KeptFits(tokens, lim, conv[k], e);
    ProcessedSize(tokens, lim, conv, k);
    ProcessedSnoc(tokens, lim, conv, k);
    ProcessedPrefix(tokens, lim, conv, k + 1);
    ProcessedSize(tokens, lim, conv, |conv|);
    assert conv[..|conv|] == conv;
  }

  /** The conversations with at least one acceptable turn, reduced to those turns. */
  function Usable(tokens: string -> nat, lim: Limits, dataset: seq<seq<Exchange>>): (r: seq<seq<Entry>>)
    ensures forall k :: 0 <= k < |r| ==> r[k] != []
  {
    if dataset == [] then []
    else
      var n := |dataset| - 1;
      var row := Processed(tokens, lim, dataset[n]);
      Usable(tokens, lim, dataset[..n]) + if row == [] then [] else [row]
  }

  function InputTokens(row: seq<Entry>): int {
    if row == [] then 0 else InputTokens(row[..|row| - 1]) + row[|row| - 1].promptLen
  }

  function OutputTokens(row: seq<Entry>): int {
    if row == [] then 0 else OutputTokens(row[..|row| - 1]) + row[|row| - 1].outputLen
  }

  function TotalInput(rows: seq<seq<Entry>>): int {
    if rows == [] then 0 else TotalInput(rows[..|rows| - 1]) + InputTokens(rows[|rows| - 1])
  }

  function TotalOutput(rows: seq<seq<Entry>>): int {
    if rows == [] then 0 else TotalOutput(rows[..|rows| - 1]) + OutputTokens(rows[|rows| - 1])
  }

  // ---------------------------------------------------------------- going round

  /** One pass over the usable conversations, cut off at the requested number. */
  function Pass(usable: seq<seq<Entry>>, rows: seq<seq<Entry>>, num: int): seq<seq<Entry>> {
    if |rows| >= num then rows
    else if |rows| + |usable| <= num then rows + usable
    else rows + usable[..num - |rows|]
  }

  function Passes(usable: seq<seq<Entry>>, num: int, k: nat): seq<seq<Entry>> {
    if k == 0 then [] else Pass(usable, Passes(usable, num, k - 1), num)
  }

  /** While the number is not reached, whole copies of the usable conversations have been taken. */
  lemma {:induction false} PassesSize(usable: seq<seq<Entry>>, num: int, k: nat)
    ensures |Passes(usable, num, k)| == if num <= 0 then 0 else if k * |usable| <= num then k * |usable| else num
    ensures usable != [] ==>
      forall i :: 0 <= i < |Passes(usable, num, k)| ==> Passes(usable, num, k)[i] == usable[i % |usable|]
  {
    if k > 0 {
      PassesSize(usable, num, k - 1);
      var rows := Passes(usable, num, k - 1);
      assert k * |usable| == (k - 1) * |usable| + |usable|;
      if |rows| < num && usable != [] {
        forall i | 0 <= i < |Passes(usable, num, k)| ensures Passes(usable, num, k)[i] == usable[i % |usable|] {
          PassEntry(usable, rows, num, k - 1, i);
        }
      }
    }
  }

  lemma PassEntry(usable: seq<seq<Entry>>, rows: seq<seq<Entry>>, num: int, k: nat, i: nat)
    requires usable != [] && |rows| < num && |rows| == k * |usable| && i < |Pass(usable, rows, num)|
    requires forall j :: 0 <= j < |rows| ==> rows[j] == usable[j % |usable|]
    ensures Pass(usable, rows, num)[i] == usable[i % |usable|]
  {
    if i >= |rows| {
      DivMod(k, |usable|, i - |rows|);
    }
  }

  /** The loop reaches the requested number if and only if nothing is requested or some conversation
      is usable; otherwise every pass leaves it where it was. */
  lemma TerminatesExactlyWhen(usable: seq<seq<Entry>>, num: int)
    ensures (exists k: nat :: |Passes(usable, num, k)| >= num) <==> num <= 0 || usable != []
  {
    if num <= 0 {
      assert |Passes(usable, num, 0)| >= num;
    } else if usable != [] {
      PassesSize(usable, num, num);
      assert num <= num * |usable|;
    } else {
      forall k: nat ensures |Passes(usable, num, k)| < num { PassesSize(usable, num, k); }
    }
  }

  // ---------------------------------------------------------------- the loops

  lemma TokensSnoc(row: seq<Entry>, e: Entry)
    ensures InputTokens(row + [e]) == InputTokens(row) + e.promptLen
    ensures OutputTokens(row + [e]) == OutputTokens(row) + e.outputLen
  {
    assert (row + [e])[..|row|] == row;
  }

  method ProcessConversation(tokens: string -> nat, lim: Limits, conv: seq<Exchange>)
    returns (processed: seq<Entry>, input: int, output: int)
    ensures processed == Processed(tokens, lim, conv)
    ensures input == InputTokens(processed) && output == OutputTokens(processed)
  {
    processed, input, output := [], 0, 0;
    var k := 0;
    while k < |conv|
      invariant 0 <= k <= |conv| && processed == Processed(tokens, lim, conv[..k])
      invariant input == InputTokens(processed) && output == OutputTokens(processed)
    {
      ProcessedSnoc(tokens, lim, conv, k);
      var e := Measure(tokens, lim, conv[k]);
      k := k + 1;
      if Pruned(lim, e) {
        continue;
      }
      TokensSnoc(processed, e);
      input := input + e.promptLen;
      output := output + e.outputLen;
      processed := processed + [e];
    }
    assert conv[..|conv|] == conv;
  }

  lemma UsableSnoc(tokens: string -> nat, lim: Limits, dataset: seq<seq<Exchange>>, i: nat)
    requires i < |dataset|
    ensures var row := Processed(tokens, lim, dataset[i]);
      Usable(tokens, lim, dataset[..i + 1]) == Usable(tokens, lim, dataset[..i]) + if row == [] then [] else [row]
  {
    assert dataset[..i + 1][..i] == dataset[..i];
  }

  lemma {:induction false} UsablePrefix(tokens: string -> nat, lim: Limits, dataset: seq<seq<Exchange>>, i: nat)
    requires i <= |dataset|
    ensures Usable(tokens, lim, dataset[..i]) <= Usable(tokens, lim, dataset)
    decreases |dataset| - i
  {
    if i == |dataset| {
      assert dataset[..i] == dataset;
    } else {
      UsablePrefix(tokens, lim, dataset, i + 1);
      UsableSnoc(tokens, lim, dataset, i);
    }
  }

  ghost predicate SomeTurnFits(tokens: string -> nat, lim: Limits, conv: seq<Exchange>) {
    exists k :: 0 <= k < |conv| && Acceptable(tokens, lim, conv[k])
  }

  lemma UsableWhenSomeFits(tokens: string -> nat, lim: Limits, conv: seq<Exchange>)
    ensures Processed(tokens, lim, conv) != [] <==> SomeTurnFits(tokens, lim, conv)
  {
    var row := Processed(tokens, lim, conv);
    if row != [] {
      assert row[0] in row;
      KeptExactlyWhen(tokens, lim, conv, row[0]);
    }
    if SomeTurnFits(tokens, lim, conv) {
      var k :| 0 <= k < |conv| && Acceptable(tokens, lim, conv[k]);
      var e :| Fits(tokens, lim, conv[k], e);
      KeptExactlyWhen(tokens, lim, conv, e);
    }
  }

  /** How many of the first `i` conversations have a turn that fits. */
  ghost function UsableBefore(tokens: string -> nat, lim: Limits, dataset: seq<seq<Exchange>>, i: nat): nat
    requires i <= |dataset|
  {
    if i == 0 then 0
    else UsableBefore(tokens, lim, dataset, i - 1) + if SomeTurnFits(tokens, lim, dataset[i - 1]) then 1 else 0
  }

  lemma {:induction false} UsableSize(tokens: string -> nat, lim: Limits, dataset: seq<seq<Exchange>>, i: nat)
    requires i <= |dataset|
    ensures |Usable(tokens, lim, dataset[..i])| == UsableBefore(tokens, lim, dataset, i)
  {
    if i > 0 {
      UsableSize(tokens, lim, dataset, i - 1);
      UsableWhenSomeFits(tokens, lim, dataset[i - 1]);
      UsableSnoc(tokens, lim, dataset, i - 1);
    }
  }

  /** The usable conversations are exactly those with a turn that fits, in the order of the dataset. */
  lemma UsableInOrder(tokens: string -> nat, lim: Limits, dataset: seq<seq<Exchange>>, i: nat)
    requires i < |dataset| && SomeTurnFits(tokens, lim, dataset[i])
    ensures var r := UsableBefore(tokens, lim, dataset, i);
      && r < |Usable(tokens, lim, dataset)|
      && Usable(tokens, lim, dataset)[r] == Processed(tokens, lim, dataset[i])
    ensures |Usable(tokens, lim, dataset)| == UsableBefore(tokens, lim, dataset, |dataset|)
  {
    UsableWhenSomeFits(tokens, lim, dataset[i]);
    UsableSize(tokens, lim, dataset, i);
    UsableSnoc(tokens, lim, dataset, i);
    UsablePrefix(tokens, lim, dataset, i + 1);
    UsableSize(tokens, lim, dataset, |dataset|);
    assert dataset[..|dataset|] == dataset;
  }

  lemma TotalsSnoc(rows: seq<seq<Entry>>, row: seq<Entry>)
    ensures TotalInput(rows + [row]) == TotalInput(rows) + InputTokens(row)
    ensures TotalOutput(rows + [row]) == TotalOutput(rows) + OutputTokens(row)
  {
    assert (rows + [row])[..|rows|] == rows;
  }

  lemma CutOff(usable: seq<seq<Entry>>, part: seq<seq<Entry>>, rows0: seq<seq<Entry>>, num: int)
    requires part <= usable && |rows0| < num && |rows0| + |part| == num
    ensures rows0 + part == Pass(usable, rows0, num)
  {
    assert part == usable[..|part|];
  }

  /** The body of the outer loop: one pass over the dataset. */
  method OnePass(num: int, dataset: seq<seq<Exchange>>, tokens: string -> nat, lim: Limits,
                 rows0: seq<seq<Entry>>, input0: int, output0: int)
    returns (rows: seq<seq<Entry>>, input: int, output: int)
    requires |rows0| < num && input0 == TotalInput(rows0) && output0 == TotalOutput(rows0)
    ensures rows == Pass(Usable(tokens, lim, dataset), rows0, num)
    ensures input == TotalInput(rows) && output == TotalOutput(rows)
  {
    rows, input, output := rows0, input0, output0;
    for i := 0 to |dataset|
      invariant |rows| <= num && rows == rows0 + Usable(tokens, lim, dataset[..i])
      invariant input == TotalInput(rows) && output == TotalOutput(rows)
    {
      if |rows| == num {
        UsablePrefix(tokens, lim, dataset, i);
        CutOff(Usable(tokens, lim, dataset), Usable(tokens, lim, dataset[..i]), rows0, num);
        return;
      }
      UsableSnoc(tokens, lim, dataset, i);
      var processed, addInput, addOutput := ProcessConversation(tokens, lim, dataset[i]);
      input := input + addInput;
      output := output + addOutput;
      if |processed| != 0 {
        TotalsSnoc(rows, processed);
        ConcatAssociative(rows0, Usable(tokens, lim, dataset[..i]), [processed]);
        rows := rows + [processed];
      }
    }
    assert dataset[..|dataset|] == dataset;
  }

  method CommonFilterChat(num: int, dataset: seq<seq<Exchange>>, tokens: string -> nat, lim: Limits)
    returns (rows: seq<seq<Entry>>, input: int, output: int)
    requires num <= 0 || Usable(tokens, lim, dataset) != []
    ensures |rows| == if num <= 0 then 0 else num
    ensures var usable := Usable(tokens, lim, dataset);
      forall k :: 0 <= k < |rows| ==> usable != [] && rows[k] == usable[k % |usable|]
    ensures input == TotalInput(rows) && output == TotalOutput(rows)
  {
    rows, input, output := [], 0, 0;
    ghost var usable, passes := Usable(tokens, lim, dataset), 0;
    while |rows| < num
      invariant rows == Passes(usable, num, passes)
      invariant input == TotalInput(rows) && output == TotalOutput(rows)
      decreases num - |rows|
    {
      rows, input, output := OnePass(num, dataset, tokens, lim, rows, input, output);
      passes := passes + 1;
    }
    PassesSize(usable, num, passes);
  }
}
