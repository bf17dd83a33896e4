/**
  The document chunker: units (paragraphs, sentences, or hard-split pieces) packed greedily under a token budget,
  and an overlap of trailing sentences. Budgets are on the per-unit token counts that the code adds up.
 */
module Chunking {
  import opened Wrappers

  /** The tokenizer and the two regular-expression splitters, as the chunker uses them. */
  datatype Splitter = Splitter(encode: string -> seq<int>, decode: seq<int> -> string,
                               paragraphs: string -> seq<string>, sentences: string -> seq<string>)

  datatype Chunk = Chunk(index: nat, content: string, tokenCount: nat)

  function Count(sp: Splitter, text: string): nat { |sp.encode(text)| }

  function Sum(sp: Splitter, units: seq<string>): nat {
    if units == [] then 0 else Sum(sp, units[..|units| - 1]) + Count(sp, units[|units| - 1])
  }

  function Flatten<T>(groups: seq<seq<T>>): seq<T> {
    if groups == [] then [] else Flatten(groups[..|groups| - 1]) + groups[|groups| - 1]
  }

  function Join(sep: string, parts: seq<string>): string {
    if parts == [] then ""
    else if |parts| == 1 then parts[0]
    else Join(sep, parts[..|parts| - 1]) + sep + parts[|parts| - 1]
  }

  lemma JoinOne(sep: string, part: string)
    ensures Join(sep, [part]) == part && Join(sep, []) == ""
  {
  }

  /** Joining two lists of parts is joining each, with the separator in between. */
  lemma {:induction false} JoinAppend(sep: string, a: seq<string>, b: seq<string>)
    requires a != [] && b != []
    ensures Join(sep, a + b) == Join(sep, a) + sep + Join(sep, b)
  {
    var n := |b| - 1;
    assert (a + b)[..|a + b| - 1] == a + b[..n];
    if n > 0 {
      JoinAppend(sep, a, b[..n]);
    } else {
      assert a + b[..n] == a;
    }
  }

  lemma {:induction false} SumSplit(sp: Splitter, a: seq<string>, b: seq<string>)
    ensures Sum(sp, a + b) == Sum(sp, a) + Sum(sp, b)
  {
    if b == [] {
      assert a + b == a;
    } else {
      SumSplit(sp, a, b[..|b| - 1]);
      assert (a + b)[..|a + b| - 1] == a + b[..|b| - 1];
    }
  }

  lemma SumSlice(sp: Splitter, units: seq<string>, a: nat, b: nat, c: nat, d: nat)
    requires c <= a <= b <= d <= |units|
    ensures Sum(sp, units[a..b]) <= Sum(sp, units[c..d])
  {
    assert units[c..d] == units[c..a] + units[a..b] + units[b..d];
    SumSplit(sp, units[c..a] + units[a..b], units[b..d]);
    SumSplit(sp, units[c..a], units[a..b]);
  }

  // --- packing ---

  /** A group within the budget, or a unit on its own that no budget could help. */
  predicate Allowed(sp: Splitter, group: seq<string>, maxTokens: int) {
    Sum(sp, group) <= maxTokens || |group| <= 1
  }

  /** An order-preserving partition of `units` into allowed groups. */
  ghost predicate Partitions(sp: Splitter, groups: seq<seq<string>>, units: seq<string>, maxTokens: int) {
    Flatten(groups) == units && forall i :: 0 <= i < |groups| ==> Allowed(sp, groups[i], maxTokens)
  }

  /** No group has room for the unit that starts the next one. */
  ghost predicate Greedy(sp: Splitter, groups: seq<seq<string>>, maxTokens: int) {
    && (forall i :: 0 <= i < |groups| ==> groups[i] != [])
    && (forall i :: 0 < i < |groups| ==> Sum(sp, groups[i - 1]) + Count(sp, groups[i][0]) > maxTokens)
  }

  /** The loop's state after `done` units: closed groups, and the group being filled. */
  ghost predicate Packing(sp: Splitter, groups: seq<seq<string>>, current: seq<string>, done: seq<string>,
                          maxTokens: int)
  {
    && Flatten(groups) + current == done
    && (current == [] ==> groups == [])
    && Allowed(sp, current, maxTokens)
    && (forall k :: 0 <= k < |groups| ==> Allowed(sp, groups[k], maxTokens) && groups[k] != [])
    && (forall k :: 0 < k < |groups| ==> Sum(sp, groups[k - 1]) + Count(sp, groups[k][0]) > maxTokens)
    && (groups != [] ==> Sum(sp, groups[|groups| - 1]) + Count(sp, current[0]) > maxTokens)
  }

  lemma CloseGroup(sp: Splitter, groups: seq<seq<string>>, current: seq<string>, done: seq<string>,
                   unit: string, maxTokens: int)
    requires Packing(sp, groups, current, done, maxTokens) && current != []
    requires Sum(sp, current) + Count(sp, unit) > maxTokens
    ensures Packing(sp, groups + [current], [unit], done + [unit], maxTokens)
  {
    var closed := groups + [current];
    assert closed[..|groups|] == groups;
    hide Sum, Count;
    assert Flatten(closed) == done;
  }

  lemma AddUnit(sp: Splitter, groups: seq<seq<string>>, current: seq<string>, done: seq<string>,
                unit: string, maxTokens: int)
    requires Packing(sp, groups, current, done, maxTokens)
    requires current == [] || Sum(sp, current) + Count(sp, unit) <= maxTokens
    ensures Packing(sp, groups, current + [unit], done + [unit], maxTokens)
    ensures Sum(sp, current + [unit]) == Sum(sp, current) + Count(sp, unit)
  {
    SumSplit(sp, current, [unit]);
    assert [unit][..0] == [];
    hide Flatten;
    assert Flatten(groups) + (current + [unit]) == done + [unit];
  }

  lemma Packed(sp: Splitter, groups: seq<seq<string>>, current: seq<string>, units: seq<string>, maxTokens: int)
    requires Packing(sp, groups, current, units, maxTokens)
    ensures var all := if current == [] then groups else groups + [current];
      Partitions(sp, all, units, maxTokens) && Greedy(sp, all, maxTokens)
  {
    if current != [] {
      var all := groups + [current];
      assert all[..|groups|] == groups;
      assert Flatten(all) == units;
      hide Sum, Count, Flatten;
      assert Partitions(sp, all, units, maxTokens);
      assert forall k :: 0 <= k < |groups| ==> all[k] == groups[k];
      assert Greedy(sp, all, maxTokens);
    }
  }

  /** `packed` is the text of the greedy partition `groups`. */
  ghost predicate PackedAs(sp: Splitter, units: seq<string>, maxTokens: int, packed: seq<string>,
                           groups: seq<seq<string>>)
  {
    && Partitions(sp, groups, units, maxTokens) && Greedy(sp, groups, maxTokens)
    && |packed| == |groups| && forall i :: 0 <= i < |packed| ==> packed[i] == Join("\n\n", groups[i])
  }

  method PackUnits(sp: Splitter, units: seq<string>, maxTokens: int) returns (packed: seq<string>)
    ensures exists groups :: PackedAs(sp, units, maxTokens, packed, groups)
  {
    packed := [];
    ghost var groups: seq<seq<string>> := [];
    var currentUnits: seq<string> := [];
    var currentTokens := 0;
    hide Packing, Partitions, Greedy, Join, Sum;
    assert Packing(sp, groups, currentUnits, units[..0], maxTokens) && Sum(sp, currentUnits) == 0 by {
      EmptyPacking(sp, maxTokens);
    }
    for i := 0 to |units|
      invariant currentTokens == Sum(sp, currentUnits)
      invariant Packing(sp, groups, currentUnits, units[..i], maxTokens)
      invariant |packed| == |groups| && forall k :: 0 <= k < |packed| ==> packed[k] == Join("\n\n", groups[k])
    {
      var unitTokens := Count(sp, units[i]);
      assert units[..i + 1] == units[..i] + [units[i]];
      if currentUnits != [] && currentTokens + unitTokens > maxTokens {
        CloseGroup(sp, groups, currentUnits, units[..i], units[i], maxTokens);
        packed := packed + [Join("\n\n", currentUnits)];
        groups := groups + [currentUnits];
        currentUnits := [units[i]];
        currentTokens := unitTokens;
        SumOne(sp, units[i]);
      } else {
        AddUnit(sp, groups, currentUnits, units[..i], units[i], maxTokens);
        currentUnits := currentUnits + [units[i]];
        currentTokens := currentTokens + unitTokens;
      }
    }
    assert units[..|units|] == units;
    Packed(sp, groups, currentUnits, units, maxTokens);
    if currentUnits != [] {
      packed := packed + [Join("\n\n", currentUnits)];
      groups := groups + [currentUnits];
    }
    assert PackedAs(sp, units, maxTokens, packed, groups);
  }

  lemma SumOne(sp: Splitter, unit: string)
    ensures Sum(sp, [unit]) == Count(sp, unit)
  {
    assert [unit][..0] == [];
  }

  lemma EmptyPacking(sp: Splitter, maxTokens: int)
    ensures Packing(sp, [], [], [], maxTokens) && Sum(sp, []) == 0
  {
  }

  lemma {:induction false} FlattenPrefix<T>(groups: seq<seq<T>>, k: nat)
    requires k <= |groups|
    ensures Flatten(groups[..k]) <= Flatten(groups)
    ensures k < |groups| ==> Flatten(groups[..k + 1]) == Flatten(groups[..k]) + groups[k]
  {
    if k < |groups| { assert groups[..k + 1][..k] == groups[..k]; }
    if k == |groups| {
      assert groups[..k] == groups;
    } else {
      var n := |groups| - 1;
      FlattenPrefix(groups[..n], k);
      assert groups[..n][..k] == groups[..k];
    }
  }

  /** Where group `k` lies in the flattened units. */
  lemma FlattenAt<T>(groups: seq<seq<T>>, k: nat)
    requires k < |groups|
    ensures |Flatten(groups[..k + 1])| == |Flatten(groups[..k])| + |groups[k]| <= |Flatten(groups)|
    ensures Flatten(groups)[|Flatten(groups[..k])|..|Flatten(groups[..k + 1])|] == groups[k]
  {
    FlattenPrefix(groups, k);
    FlattenPrefix(groups, k + 1);
  }

  /** A group that starts no later and ends later than a full greedy group is over the budget. */
  lemma Overfull(sp: Splitter, units: seq<string>, p: nat, p': nat, g: nat, g': nat, maxTokens: int)
    requires p <= g < g' < p' <= |units|
    requires Sum(sp, units[g..g']) + Count(sp, units[g']) > maxTokens
    ensures !Allowed(sp, units[p..p'], maxTokens)
  {
    assert units[g..g' + 1] == units[g..g'] + [units[g']];
    SumSplit(sp, units[g..g'], [units[g']]);
    SumOne(sp, units[g']);
    SumSlice(sp, units, g, g' + 1, p, p');
  }

  /** After any number of groups, the greedy partition has consumed at least as many units as any other. */
  lemma {:induction false} GreedyAhead(sp: Splitter, groups: seq<seq<string>>, other: seq<seq<string>>,
                                       units: seq<string>, maxTokens: int, k: nat)
    requires Partitions(sp, groups, units, maxTokens) && Greedy(sp, groups, maxTokens)
    requires Partitions(sp, other, units, maxTokens)
    requires k <= |groups| && k <= |other|
    ensures |Flatten(other[..k])| <= |Flatten(groups[..k])|
  {
    if k > 0 {
      var j := k - 1;
      GreedyAhead(sp, groups, other, units, maxTokens, j);
      FlattenAt(groups, j);
      FlattenAt(other, j);
      hide Flatten, Sum, Count;
      var p, p', g, g' := |Flatten(other[..j])|, |Flatten(other[..k])|, |Flatten(groups[..j])|, |Flatten(groups[..k])|;
      if k == |groups| { assert groups[..k] == groups; }
      if p' > g' {
        FlattenAt(groups, k);
        assert units[g'] == groups[k][0];
        Overfull(sp, units, p, p', g, g', maxTokens);
      }
    }
  }

  /** Greedy packing uses the fewest groups of any order-preserving partition into allowed groups. */
  lemma PackingOptimal(sp: Splitter, groups: seq<seq<string>>, other: seq<seq<string>>,
                       units: seq<string>, maxTokens: int)
    requires Partitions(sp, groups, units, maxTokens) && Greedy(sp, groups, maxTokens)
    requires Partitions(sp, other, units, maxTokens)
    ensures |groups| <= |other|
  {
    var k := |other|;
    if k < |groups| {
      GreedyAhead(sp, groups, other, units, maxTokens, k);
      assert other[..k] == other;
      FlattenAt(groups, k);
    }
  }

  /** When every unit fits on its own, every group fits. */
  lemma AllWithinBudget(sp: Splitter, groups: seq<seq<string>>, units: seq<string>, maxTokens: int, i: nat)
    requires Partitions(sp, groups, units, maxTokens) && i < |groups|
    requires groups[i] != [] || 0 <= maxTokens
    requires forall u :: u in units ==> Count(sp, u) <= maxTokens
    ensures Sum(sp, groups[i]) <= maxTokens
  {
    FlattenAt(groups, i);
    if |groups[i]| == 1 {
      assert groups[i][0] in units;
      assert groups[i][..0] == [];
    }
  }

  // --- overlap ---

  /** The trailing sentences taken are the longest suffix within the overlap budget. */
  ghost predicate LongestSuffix(sp: Splitter, sentences: seq<string>, budget: int, taken: seq<string>) {
    && |taken| <= |sentences|
    && taken == sentences[|sentences| - |taken|..]
    && Sum(sp, taken) <= budget
    && (forall j :: 0 <= j < |sentences| - |taken| ==> Sum(sp, sentences[j..]) > budget)
  }

  /** The overlap taken from the previous text: its longest fitting suffix of sentences, or nothing without a budget. */
  ghost predicate OverlapOf(sp: Splitter, previous: string, overlapTokens: int, taken: seq<string>) {
    if overlapTokens <= 0 then taken == [] else LongestSuffix(sp, sp.sentences(previous), overlapTokens, taken)
  }

  method OverlapPrefix(sp: Splitter, previous: string, overlapTokens: int) returns (prefix: string)
    ensures exists taken :: OverlapOf(sp, previous, overlapTokens, taken) && prefix == Join(" ", taken)
  {
    if overlapTokens <= 0 {
      assert OverlapOf(sp, previous, overlapTokens, []);
      return "";
    }
    var sentences := sp.sentences(previous);
    var overlap: seq<string> := [];
    var running := 0;
    var i := |sentences|;
    while i > 0
      invariant 0 <= i <= |sentences|
      invariant overlap == sentences[i..]
      invariant running == Sum(sp, overlap) <= overlapTokens
    {
      var sentenceTokens := Count(sp, sentences[i - 1]);
      assert sentences[i - 1..] == [sentences[i - 1]] + overlap;
      SumSplit(sp, [sentences[i - 1]], overlap);
      assert [sentences[i - 1]][..0] == [];
      if running + sentenceTokens > overlapTokens {
        break;
      }
      overlap := [sentences[i - 1]] + overlap;
      running := running + sentenceTokens;
      i := i - 1;
    }
    forall j | 0 <= j < i ensures Sum(sp, sentences[j..]) > overlapTokens {
      SumSlice(sp, sentences, i - 1, |sentences|, j, |sentences|);
      assert sentences[j..|sentences|] == sentences[j..] && sentences[i - 1..|sentences|] == sentences[i - 1..];
    }
    assert OverlapOf(sp, previous, overlapTokens, overlap);
    return Join(" ", overlap);
  }

  // --- units of a paragraph ---

  /** The token slices of a hard split. */
  function Slices(tokens: seq<int>, size: nat): seq<seq<int>>
    requires size > 0
  {
    if |tokens| == 0 then []
    else if |tokens| <= size then [tokens]
    else [tokens[..size]] + Slices(tokens[size..], size)
  }

  /** A hard split loses and reorders no token, and no slice is empty or over the budget. */
  lemma {:induction false} SlicesExact(tokens: seq<int>, size: nat)
    requires size > 0
    ensures Flatten(Slices(tokens, size)) == tokens
    ensures forall i :: 0 <= i < |Slices(tokens, size)| ==> 0 < |Slices(tokens, size)[i]| <= size
  {
    if |tokens| > size {
      SlicesExact(tokens[size..], size);
      FlattenCons(tokens[..size], Slices(tokens[size..], size));
    } else if |tokens| > 0 {
      assert [tokens][..0] == [];
    }
  }

  /** Where slice `k` ends: `(k + 1) * size` tokens in, or where the tokens end. */
  function SliceEnd(tokens: seq<int>, size: nat, k: nat): (end: int)
    requires k * size <= |tokens|
    ensures k * size <= end <= |tokens|
  {
    assert (k + 1) * size == k * size + size;
    if (k + 1) * size <= |tokens| then (k + 1) * size else |tokens|
  }

  lemma {:induction false} SliceAt(tokens: seq<int>, size: nat, k: nat)
    requires size > 0 && k < |Slices(tokens, size)|
    ensures k * size < |tokens| && Slices(tokens, size)[k] == tokens[k * size..SliceEnd(tokens, size, k)]
  {
    if k > 0 {
      SliceAt(tokens[size..], size, k - 1);
      hide Slices;
      SliceShift(tokens, size, k);
    } else {
      FirstSlice(tokens, size);
    }
  }

  lemma FirstSlice(tokens: seq<int>, size: nat)
    requires size > 0 && tokens != []
    ensures 0 * size == 0 && Slices(tokens, size)[0] == tokens[0..SliceEnd(tokens, size, 0)]
  {
    assert (0 + 1) * size == size;
  }

  lemma {:induction false} SlicesReach(tokens: seq<int>, size: nat)
    requires size > 0
    ensures |tokens| <= |Slices(tokens, size)| * size
  {
    if |tokens| > size {
      SlicesReach(tokens[size..], size);
      var n := |Slices(tokens[size..], size)|;
      assert |Slices(tokens, size)| == n + 1;
      hide Slices;
      assert (n + 1) * size == n * size + size;
    } else if tokens != [] {
      assert |Slices(tokens, size)| == 1;
    }
  }

  /** The slices are cut at the multiples of `size`, as `range(0, n, size)` has them, and nowhere else. */
  lemma SlicesAt(tokens: seq<int>, size: nat)
    requires size > 0
    ensures forall k :: 0 <= k < |Slices(tokens, size)| ==>
              k * size < |tokens| && Slices(tokens, size)[k] == tokens[k * size..SliceEnd(tokens, size, k)]
    ensures |tokens| <= |Slices(tokens, size)| * size
  {
    hide Slices, SliceEnd;
    forall k | 0 <= k < |Slices(tokens, size)|
      ensures k * size < |tokens| && Slices(tokens, size)[k] == tokens[k * size..SliceEnd(tokens, size, k)]
    {
      SliceAt(tokens, size, k);
    }
    SlicesReach(tokens, size);
  }

  lemma SliceShift(tokens: seq<int>, size: nat, k: nat)
    requires 0 < size < |tokens| && 0 < k && (k - 1) * size < |tokens| - size
    ensures k * size < |tokens|
    ensures tokens[size..][(k - 1) * size..SliceEnd(tokens[size..], size, k - 1)]
            == tokens[k * size..SliceEnd(tokens, size, k)]
  {
    assert (k - 1) * size + size == k * size && k * size + size == (k + 1) * size;
  }

  lemma {:induction false} FlattenCons<T>(head: seq<T>, rest: seq<seq<T>>)
    ensures Flatten([head] + rest) == head + Flatten(rest)
  {
    if rest == [] {
      assert ([head] + rest)[..0] == [];
    } else {
      FlattenCons(head, rest[..|rest| - 1]);
      var n := |rest|;
      assert ([head] + rest)[..n] == [head] + rest[..n - 1] && ([head] + rest)[n] == rest[n - 1];
      assert Flatten([head] + rest) == Flatten([head] + rest[..n - 1]) + rest[n - 1];
    }
  }

  /**
    The pieces of a hard split. The step of Python's `range` is the budget: with a budget of zero it raises, and with a
    negative one there are no pieces.
   */
  function HardSplit(sp: Splitter, text: string, maxTokens: int): Option<seq<string>> {
    if maxTokens == 0 then None
    else if maxTokens < 0 then Some([])
    else
      var slices := Slices(sp.encode(text), maxTokens);
      Some(seq(|slices|, i requires 0 <= i < |slices| => sp.decode(slices[i])))
  }

  function SentencePieces(sp: Splitter, sentence: string, maxTokens: int): Option<seq<string>> {
    if Count(sp, sentence) <= maxTokens then Some([sentence]) else HardSplit(sp, sentence, maxTokens)
  }

  /** Both, unless one has raised. */
  function Both(a: Option<seq<string>>, b: Option<seq<string>>): Option<seq<string>> {
    if a.Some? && b.Some? then Some(a.value + b.value) else None
  }

  lemma BothEmpty()
    ensures Both(Some([]), Some([])) == Some([])
  {
    var none: seq<string> := [];
    assert none + none == none;
  }

  function SentenceUnits(sp: Splitter, sentences: seq<string>, maxTokens: int): Option<seq<string>> {
    if sentences == [] then Some([])
    else
      var n := |sentences| - 1;
      Both(SentenceUnits(sp, sentences[..n], maxTokens), SentencePieces(sp, sentences[n], maxTokens))
  }

  function ParagraphUnits(sp: Splitter, paragraph: string, maxTokens: int): Option<seq<string>> {
    if Count(sp, paragraph) <= maxTokens then Some([paragraph])
    else SentenceUnits(sp, sp.sentences(paragraph), maxTokens)
  }

  function DocumentUnits(sp: Splitter, paragraphs: seq<string>, maxTokens: int): Option<seq<string>> {
    if paragraphs == [] then Some([])
    else
      var n := |paragraphs| - 1;
      Both(DocumentUnits(sp, paragraphs[..n], maxTokens), ParagraphUnits(sp, paragraphs[n], maxTokens))
  }

  /** A paragraph that does not fit has a sentence that does not fit. */
  predicate Oversized(sp: Splitter, paragraph: string, maxTokens: int) {
    Count(sp, paragraph) > maxTokens && exists u :: u in sp.sentences(paragraph) && Count(sp, u) > maxTokens
  }

  lemma PiecesRaiseIff(sp: Splitter, sentence: string, maxTokens: int)
    ensures SentencePieces(sp, sentence, maxTokens).None? <==> maxTokens == 0 && Count(sp, sentence) > maxTokens
    ensures maxTokens < 0 ==> SentencePieces(sp, sentence, maxTokens) == Some([])
  {
  }

  lemma {:induction false} SentencesRaiseIff(sp: Splitter, sentences: seq<string>, maxTokens: int)
    ensures SentenceUnits(sp, sentences, maxTokens).None?
            <==> maxTokens == 0 && exists u :: u in sentences && Count(sp, u) > maxTokens
    ensures maxTokens < 0 ==> SentenceUnits(sp, sentences, maxTokens) == Some([])
  {
    hide SentencePieces, Count;
    BothEmpty();
    if sentences != [] {
      var n := |sentences| - 1;
      SentencesRaiseIff(sp, sentences[..n], maxTokens);
      PiecesRaiseIff(sp, sentences[n], maxTokens);
      assert sentences == sentences[..n] + [sentences[n]];
      assert (exists u :: u in sentences && Count(sp, u) > maxTokens)
        <==> (exists u :: u in sentences[..n] && Count(sp, u) > maxTokens) || Count(sp, sentences[n]) > maxTokens;
    }
  }

  /** Chunking raises exactly when the budget is zero and some sentence has to be hard-split. */
  lemma {:induction false} DocumentRaisesIff(sp: Splitter, paragraphs: seq<string>, maxTokens: int)
    ensures DocumentUnits(sp, paragraphs, maxTokens).None?
            <==> maxTokens == 0 && exists p :: p in paragraphs && Oversized(sp, p, maxTokens)
  {
    if paragraphs != [] {
      var n := |paragraphs| - 1;
      DocumentRaisesIff(sp, paragraphs[..n], maxTokens);
      SentencesRaiseIff(sp, sp.sentences(paragraphs[n]), maxTokens);
      assert paragraphs == paragraphs[..n] + [paragraphs[n]];
      assert (exists p :: p in paragraphs && Oversized(sp, p, maxTokens))
        <==> (exists p :: p in paragraphs[..n] && Oversized(sp, p, maxTokens))
             || Oversized(sp, paragraphs[n], maxTokens);
    }
  }

  /** A negative budget loses the whole document, without an error. */
  lemma {:induction false} NegativeBudgetLosesAll(sp: Splitter, paragraphs: seq<string>, maxTokens: int)
    requires maxTokens < 0
    ensures DocumentUnits(sp, paragraphs, maxTokens) == Some([])
  {
    BothEmpty();
    if paragraphs != [] {
      var n := |paragraphs| - 1;
      NegativeBudgetLosesAll(sp, paragraphs[..n], maxTokens);
      SentencesRaiseIff(sp, sp.sentences(paragraphs[n]), maxTokens);
    }
  }

  // --- what the units of a document are ---

  /** A sentence stands for itself when it fits, and else for its decoded slices of `maxTokens` tokens, in order. */
  ghost predicate SentencePart(sp: Splitter, sentence: string, maxTokens: int, part: seq<string>) {
    var tokens := sp.encode(sentence);
    if |tokens| <= maxTokens then part == [sentence]
    else if maxTokens < 0 then part == []
    else
      && |tokens| <= |part| * maxTokens
      && forall k :: 0 <= k < |part| ==>
           k * maxTokens < |tokens| && part[k] == sp.decode(tokens[k * maxTokens..SliceEnd(tokens, maxTokens, k)])
  }

  /** A paragraph stands for itself when it fits, and else for the parts of its sentences, in order. */
  ghost predicate ParagraphPart(sp: Splitter, paragraph: string, maxTokens: int, part: seq<string>) {
    if |sp.encode(paragraph)| <= maxTokens then part == [paragraph]
    else exists parts :: SentenceParts(sp, sp.sentences(paragraph), maxTokens, parts) && part == Flatten(parts)
  }

  ghost predicate SentenceParts(sp: Splitter, sentences: seq<string>, maxTokens: int, parts: seq<seq<string>>) {
    |parts| == |sentences| && forall i :: 0 <= i < |parts| ==> SentencePart(sp, sentences[i], maxTokens, parts[i])
  }

  ghost predicate ParagraphParts(sp: Splitter, paragraphs: seq<string>, maxTokens: int, parts: seq<seq<string>>) {
    |parts| == |paragraphs| && forall i :: 0 <= i < |parts| ==> ParagraphPart(sp, paragraphs[i], maxTokens, parts[i])
  }

  lemma PiecesAre(sp: Splitter, sentence: string, maxTokens: int)
    requires SentencePieces(sp, sentence, maxTokens).Some?
    ensures SentencePart(sp, sentence, maxTokens, SentencePieces(sp, sentence, maxTokens).value)
  {
    if |sp.encode(sentence)| > maxTokens > 0 { SlicesAt(sp.encode(sentence), maxTokens); }
  }

  lemma {:induction false} SentenceUnitsAre(sp: Splitter, sentences: seq<string>, maxTokens: int)
    returns (parts: seq<seq<string>>)
    requires SentenceUnits(sp, sentences, maxTokens).Some?
    ensures SentenceParts(sp, sentences, maxTokens, parts)
    ensures Flatten(parts) == SentenceUnits(sp, sentences, maxTokens).value
  {
    hide SentencePart, SentencePieces;
    if sentences == [] {
      parts := [];
    } else {
      var n := |sentences| - 1;
      var before := SentenceUnitsAre(sp, sentences[..n], maxTokens);
      PiecesAre(sp, sentences[n], maxTokens);
      parts := before + [SentencePieces(sp, sentences[n], maxTokens).value];
      assert parts[..n] == before;
    }
  }

  lemma ParagraphUnitsAre(sp: Splitter, paragraph: string, maxTokens: int)
    requires ParagraphUnits(sp, paragraph, maxTokens).Some?
    ensures ParagraphPart(sp, paragraph, maxTokens, ParagraphUnits(sp, paragraph, maxTokens).value)
  {
    if |sp.encode(paragraph)| > maxTokens {
      var parts := SentenceUnitsAre(sp, sp.sentences(paragraph), maxTokens);
    }
  }

  /** The units of a document: those of its paragraphs, in order. */
  lemma {:induction false} DocumentUnitsAre(sp: Splitter, paragraphs: seq<string>, maxTokens: int)
    returns (parts: seq<seq<string>>)
    requires DocumentUnits(sp, paragraphs, maxTokens).Some?
    ensures ParagraphParts(sp, paragraphs, maxTokens, parts)
    ensures Flatten(parts) == DocumentUnits(sp, paragraphs, maxTokens).value
  {
    hide ParagraphPart, ParagraphUnits;
    if paragraphs == [] {
      parts := [];
    } else {
      var n := |paragraphs| - 1;
      var before := DocumentUnitsAre(sp, paragraphs[..n], maxTokens);
      ParagraphUnitsAre(sp, paragraphs[n], maxTokens);
      parts := before + [ParagraphUnits(sp, paragraphs[n], maxTokens).value];
      assert parts[..n] == before;
    }
  }

  // --- when every unit fits ---

  /** Every piece of a sentence that has to be hard-split comes to at most the budget when it is encoded again. */
  ghost predicate SentenceFits(sp: Splitter, sentence: string, maxTokens: int) {
    maxTokens > 0 && Count(sp, sentence) > maxTokens ==>
      forall slice :: slice in Slices(sp.encode(sentence), maxTokens) ==> Count(sp, sp.decode(slice)) <= maxTokens
  }

  ghost predicate ParagraphFits(sp: Splitter, paragraph: string, maxTokens: int) {
    Count(sp, paragraph) > maxTokens ==> forall u :: u in sp.sentences(paragraph) ==> SentenceFits(sp, u, maxTokens)
  }

  ghost predicate DocumentFits(sp: Splitter, paragraphs: seq<string>, maxTokens: int) {
    forall p :: p in paragraphs ==> ParagraphFits(sp, p, maxTokens)
  }

  ghost predicate AllFit(sp: Splitter, units: seq<string>, maxTokens: int) {
    forall u :: u in units ==> Count(sp, u) <= maxTokens
  }

  lemma PiecesFitIff(sp: Splitter, sentence: string, maxTokens: int)
    requires SentencePieces(sp, sentence, maxTokens).Some?
    ensures AllFit(sp, SentencePieces(sp, sentence, maxTokens).value, maxTokens)
            <==> SentenceFits(sp, sentence, maxTokens)
  {
    if maxTokens > 0 && Count(sp, sentence) > maxTokens {
      var slices, pieces := Slices(sp.encode(sentence), maxTokens), SentencePieces(sp, sentence, maxTokens).value;
      forall slice | slice in slices ensures sp.decode(slice) in pieces {
        var i :| 0 <= i < |slices| && slices[i] == slice;
        assert pieces[i] == sp.decode(slice);
      }
    }
  }

  lemma {:induction false} SentenceUnitsFitIff(sp: Splitter, sentences: seq<string>, maxTokens: int)
    requires SentenceUnits(sp, sentences, maxTokens).Some?
    ensures AllFit(sp, SentenceUnits(sp, sentences, maxTokens).value, maxTokens)
            <==> forall u :: u in sentences ==> SentenceFits(sp, u, maxTokens)
  {
    if sentences != [] {
      var n := |sentences| - 1;
      SentenceUnitsFitIff(sp, sentences[..n], maxTokens);
      PiecesFitIff(sp, sentences[n], maxTokens);
      assert sentences == sentences[..n] + [sentences[n]];
      hide SentenceFits, SentencePieces, Count;
    }
  }

  lemma ParagraphUnitsFitIff(sp: Splitter, paragraph: string, maxTokens: int)
    requires ParagraphUnits(sp, paragraph, maxTokens).Some?
    ensures AllFit(sp, ParagraphUnits(sp, paragraph, maxTokens).value, maxTokens)
            <==> ParagraphFits(sp, paragraph, maxTokens)
  {
    if Count(sp, paragraph) > maxTokens { SentenceUnitsFitIff(sp, sp.sentences(paragraph), maxTokens); }
  }

  /**
    Every unit of a document fits the budget if and only if every piece of a hard split does, encoded again: whole
    paragraphs and sentences always fit, but a slice of tokens need not decode to a text of as few tokens.
   */
  lemma {:induction false} DocumentUnitsFitIff(sp: Splitter, paragraphs: seq<string>, maxTokens: int)
    requires DocumentUnits(sp, paragraphs, maxTokens).Some?
    ensures AllFit(sp, DocumentUnits(sp, paragraphs, maxTokens).value, maxTokens)
            <==> DocumentFits(sp, paragraphs, maxTokens)
  {
    if paragraphs != [] {
      var n := |paragraphs| - 1;
      DocumentUnitsFitIff(sp, paragraphs[..n], maxTokens);
      ParagraphUnitsFitIff(sp, paragraphs[n], maxTokens);
      assert paragraphs == paragraphs[..n] + [paragraphs[n]];
      hide ParagraphFits, ParagraphUnits, Count;
    }
  }

  /** Decoding a slice of an encoded sentence and encoding it again gives no more tokens. */
  ghost predicate SlicesDoNotGrow(sp: Splitter, size: nat)
    requires size > 0
  {
    forall sentence, slice :: slice in Slices(sp.encode(sentence), size) ==>
      |sp.encode(sp.decode(slice))| <= |slice|
  }

  /** A tokenizer that does not grow on slices makes every document fit. */
  lemma DocumentUnitsFit(sp: Splitter, paragraphs: seq<string>, maxTokens: int, u: string)
    requires maxTokens > 0 ==> SlicesDoNotGrow(sp, maxTokens)
    requires DocumentUnits(sp, paragraphs, maxTokens).Some?
    requires u in DocumentUnits(sp, paragraphs, maxTokens).value
    ensures Count(sp, u) <= maxTokens
  {
    forall p, v | p in paragraphs && v in sp.sentences(p) ensures SentenceFits(sp, v, maxTokens) {
      if maxTokens > 0 { SlicesExact(sp.encode(v), maxTokens); }
    }
    DocumentUnitsFitIff(sp, paragraphs, maxTokens);
  }

  /** The groups of a greedy partition are all within the budget if and only if the units are. */
  lemma GroupsFitIff(sp: Splitter, groups: seq<seq<string>>, units: seq<string>, maxTokens: int)
    requires Partitions(sp, groups, units, maxTokens) && Greedy(sp, groups, maxTokens)
    ensures AllFit(sp, units, maxTokens) <==> forall i :: 0 <= i < |groups| ==> Sum(sp, groups[i]) <= maxTokens
  {
    if AllFit(sp, units, maxTokens) {
      forall i | 0 <= i < |groups| ensures Sum(sp, groups[i]) <= maxTokens {
        AllWithinBudget(sp, groups, units, maxTokens, i);
      }
    }
    if forall i :: 0 <= i < |groups| ==> Sum(sp, groups[i]) <= maxTokens {
      forall u | u in units ensures Count(sp, u) <= maxTokens {
        var i, j := FlattenFind(groups, u);
        SumSlice(sp, groups[i], j, j + 1, 0, |groups[i]|);
        assert groups[i][j..j + 1] == [u] && groups[i][0..|groups[i]|] == groups[i];
        SumOne(sp, u);
      }
    }
  }

  lemma {:induction false} FlattenFind<T>(groups: seq<seq<T>>, u: T) returns (i: nat, j: nat)
    requires u in Flatten(groups)
    ensures i < |groups| && j < |groups[i]| && groups[i][j] == u
  {
    var n := |groups| - 1;
    if u in groups[n] {
      i := n;
      j :| 0 <= j < |groups[n]| && groups[n][j] == u;
    } else {
      i, j := FlattenFind(groups[..n], u);
    }
  }

  /** `None` when the hard split raises. */
  method UnitsForParagraph(sp: Splitter, paragraph: string, maxTokens: int) returns (units: Option<seq<string>>)
    ensures units == ParagraphUnits(sp, paragraph, maxTokens)
    ensures units.None? <==> maxTokens == 0 && Oversized(sp, paragraph, maxTokens)
    ensures units.Some? ==> ParagraphPart(sp, paragraph, maxTokens, units.value)
  {
    SentencesRaiseIff(sp, sp.sentences(paragraph), maxTokens);
    if ParagraphUnits(sp, paragraph, maxTokens).Some? { ParagraphUnitsAre(sp, paragraph, maxTokens); }
    if Count(sp, paragraph) <= maxTokens {
      return Some([paragraph]);
    }
    var collected: seq<string> := [];
    var sentences := sp.sentences(paragraph);
    for i := 0 to |sentences|
      invariant SentenceUnits(sp, sentences[..i], maxTokens) == Some(collected)
    {
      assert sentences[..i + 1][..i] == sentences[..i];
      if Count(sp, sentences[i]) <= maxTokens {
        collected := collected + [sentences[i]];
      } else {
        var pieces := HardSplit(sp, sentences[i], maxTokens);
        if pieces.None? {
          SentencesRaiseIff(sp, sentences, maxTokens);
          return None;
        }
        collected := collected + pieces.value;
      }
    }
    assert sentences[..|sentences|] == sentences;
    return Some(collected);
  }

  // --- documents ---

  method UnitsForDocument(sp: Splitter, text: string, maxTokens: int) returns (units: Option<seq<string>>)
    ensures units == DocumentUnits(sp, sp.paragraphs(text), maxTokens)
  {
    var paragraphs := sp.paragraphs(text);
    var collected: seq<string> := [];
    for i := 0 to |paragraphs|
      invariant DocumentUnits(sp, paragraphs[..i], maxTokens) == Some(collected)
    {
      assert paragraphs[..i + 1][..i] == paragraphs[..i];
      var more := UnitsForParagraph(sp, paragraphs[i], maxTokens);
      if more.None? {
        SentencesRaiseIff(sp, sp.sentences(paragraphs[i]), maxTokens);
        assert Oversized(sp, paragraphs[i], maxTokens);
        DocumentRaisesIff(sp, paragraphs, maxTokens);
        return None;
      }
      collected := collected + more.value;
    }
    assert paragraphs[..|paragraphs|] == paragraphs;
    return Some(collected);
  }

  /** Chunk `i` is group `i`, preceded by the overlap taken from group `i - 1` when there is one. */
  ghost predicate IsChunk(sp: Splitter, c: Chunk, i: nat, groups: seq<seq<string>>, overlapTokens: int)
    requires i < |groups|
  {
    && c.index == i
    && c.tokenCount == Count(sp, c.content)
    && exists taken: seq<string> ::
      && (if i == 0 then taken == [] else OverlapOf(sp, Join("\n\n", groups[i - 1]), overlapTokens, taken))
      && c.content == if Join(" ", taken) == "" then Join("\n\n", groups[i])
                      else Join(" ", taken) + "\n\n" + Join("\n\n", groups[i])
  }

  /** The groups behind a document's chunks. */
  ghost predicate ChunkedAs(sp: Splitter, text: string, maxTokens: int, overlapTokens: int, chunks: seq<Chunk>,
                            groups: seq<seq<string>>) {
    && |chunks| == |groups| && (forall i :: 0 <= i < |chunks| ==> IsChunk(sp, chunks[i], i, groups, overlapTokens))
    && (exists parts :: ParagraphParts(sp, sp.paragraphs(text), maxTokens, parts) && Flatten(parts) == Flatten(groups))
    && (forall other :: Partitions(sp, other, Flatten(groups), maxTokens) ==> |groups| <= |other|)
    && (DocumentFits(sp, sp.paragraphs(text), maxTokens)
        <==> forall i :: 0 <= i < |groups| ==> Sum(sp, groups[i]) <= maxTokens)
  }

  /**
    The chunks of a document: its units in order, none lost or repeated, in the fewest groups, each with the longest
    overlap; and every group within the budget exactly when every hard-split piece is. Nothing when the hard split
    raises.
   */
  method ChunkDocument(sp: Splitter, text: string, maxTokens: int, overlapTokens: int)
    returns (result: Option<seq<Chunk>>)
    ensures result.None? <==> maxTokens == 0 && exists p :: p in sp.paragraphs(text) && Oversized(sp, p, maxTokens)
    ensures result.Some? ==> exists groups :: ChunkedAs(sp, text, maxTokens, overlapTokens, result.value, groups)
  {
    hide Sum, Flatten, Greedy, LongestSuffix, Join, Partitions, IsChunk, DocumentUnits, DocumentFits, OverlapOf,
         ParagraphParts, Oversized;
    var units := UnitsForDocument(sp, text, maxTokens);
    DocumentRaisesIff(sp, sp.paragraphs(text), maxTokens);
    if units.None? {
      return None;
    }
    var packed := PackUnits(sp, units.value, maxTokens);
    ghost var groups :| PackedAs(sp, units.value, maxTokens, packed, groups);
    GroupsGood(sp, groups, sp.paragraphs(text), maxTokens);
    var chunks := [];
    for i := 0 to |packed|
      invariant |chunks| == i
      invariant forall k :: 0 <= k < i ==> IsChunk(sp, chunks[k], k, groups, overlapTokens)
    {
      var finalContent := packed[i];
      if i > 0 {
        var prefix := OverlapPrefix(sp, packed[i - 1], overlapTokens);
        ghost var taken :| OverlapOf(sp, packed[i - 1], overlapTokens, taken) && prefix == Join(" ", taken);
        if prefix != "" {
          finalContent := prefix + "\n\n" + packed[i];
        }
        LaterChunk(sp, finalContent, i, groups, overlapTokens, taken);
      } else {
        FirstChunk(sp, finalContent, groups, overlapTokens);
      }
      chunks := chunks + [Chunk(i, finalContent, Count(sp, finalContent))];
    }
    assert ChunkedAs(sp, text, maxTokens, overlapTokens, chunks, groups);
    return Some(chunks);
  }

  lemma FirstChunk(sp: Splitter, content: string, groups: seq<seq<string>>, overlapTokens: int)
    requires |groups| > 0 && content == Join("\n\n", groups[0])
    ensures IsChunk(sp, Chunk(0, content, Count(sp, content)), 0, groups, overlapTokens)
  {
    assert Join(" ", []) == "";
  }

  lemma LaterChunk(sp: Splitter, content: string, i: nat, groups: seq<seq<string>>, overlapTokens: int,
                   taken: seq<string>)
    requires 0 < i < |groups| && OverlapOf(sp, Join("\n\n", groups[i - 1]), overlapTokens, taken)
    requires content == if Join(" ", taken) == "" then Join("\n\n", groups[i])
                        else Join(" ", taken) + "\n\n" + Join("\n\n", groups[i])
    ensures IsChunk(sp, Chunk(i, content, Count(sp, content)), i, groups, overlapTokens)
  {
    hide Join, OverlapOf;
  }

  lemma GroupsGood(sp: Splitter, groups: seq<seq<string>>, paragraphs: seq<string>, maxTokens: int)
    requires DocumentUnits(sp, paragraphs, maxTokens).Some?
    requires Partitions(sp, groups, DocumentUnits(sp, paragraphs, maxTokens).value, maxTokens)
    requires Greedy(sp, groups, maxTokens)
    ensures exists parts :: ParagraphParts(sp, paragraphs, maxTokens, parts) && Flatten(parts) == Flatten(groups)
    ensures forall other :: Partitions(sp, other, Flatten(groups), maxTokens) ==> |groups| <= |other|
    ensures DocumentFits(sp, paragraphs, maxTokens)
            <==> forall i :: 0 <= i < |groups| ==> Sum(sp, groups[i]) <= maxTokens
  {
    var units := DocumentUnits(sp, paragraphs, maxTokens).value;
    forall other | Partitions(sp, other, Flatten(groups), maxTokens) ensures |groups| <= |other| {
      PackingOptimal(sp, groups, other, units, maxTokens);
    }
    hide DocumentUnits;
    var parts := DocumentUnitsAre(sp, paragraphs, maxTokens);
    DocumentUnitsFitIff(sp, paragraphs, maxTokens);
    GroupsFitIff(sp, groups, units, maxTokens);
  }
}
