/**
  The macro-averaged F1 score of two parallel label lists, in exact arithmetic. The counts of a label are numbers of
  positions, and its score has a closed form in them, so it lies between zero and one and is one exactly for a label
  that is never confused. The mean over the labels that occur does not depend on the order in which they are visited,
  on the order of the samples, or on the names of the labels; and as every label that occurs has a positive count, the
  test that would skip one never does.
 */
module MacroF1 {
  import opened Wrappers
  import Separation

  type Label = string
  /** A sample: the true label and the predicted one. */
  type Sample = (Label, Label)

  function Zip(yTrue: seq<Label>, yPred: seq<Label>): seq<Sample>
    requires |yTrue| == |yPred|
  {
    seq(|yTrue|, i requires 0 <= i < |yTrue| => (yTrue[i], yPred[i]))
  }

  /** Samples whose true label is `l` or not, as `isTrue` says, and whose prediction is `l` or not, as `isPred` says. */
  function Count(samples: seq<Sample>, l: Label, isTrue: bool, isPred: bool): nat {
    if samples == [] then 0
    else
      (if (samples[0].0 == l) == isTrue && (samples[0].1 == l) == isPred then 1 else 0)
      + Count(samples[1..], l, isTrue, isPred)
  }

  /** Positions of those samples. */
  function Positions(samples: seq<Sample>, l: Label, isTrue: bool, isPred: bool): set<nat> {
    set i: nat | i < |samples| && (samples[i].0 == l <==> isTrue) && (samples[i].1 == l <==> isPred)
  }

  /** A count is the number of such positions. */
  lemma {:induction false} CountIs(samples: seq<Sample>, l: Label, isTrue: bool, isPred: bool)
    ensures Count(samples, l, isTrue, isPred) == |Positions(samples, l, isTrue, isPred)|
  {
    if samples != [] {
      CountIs(samples[1..], l, isTrue, isPred);
      Shifted(samples, l, isTrue, isPred);
    }
  }

  lemma Shifted(samples: seq<Sample>, l: Label, isTrue: bool, isPred: bool)
    requires samples != []
    ensures |Positions(samples, l, isTrue, isPred)|
            == |Positions(samples[1..], l, isTrue, isPred)|
               + if 0 in Positions(samples, l, isTrue, isPred) then 1 else 0
  {
    var all, rest := Positions(samples, l, isTrue, isPred), Positions(samples[1..], l, isTrue, isPred);
    forall i: nat ensures i in rest <==> i + 1 in all {
      if i + 1 < |samples| { assert samples[1..][i] == samples[i + 1]; }
    }
    SameSize(rest, all - {0});
  }

  lemma {:induction false} SameSize(a: set<nat>, b: set<nat>)
    requires 0 !in b && forall i: nat :: i in a <==> i + 1 in b
    ensures |b| == |a|
  {
    assert forall y :: y in b ==> y > 0 && y - 1 in a;
    if |a| > 0 {
      var x := Separation.Pick(a);
      SameSize(a - {x}, b - {x + 1});
    } else {
      assert b == {};
    }
  }

  function Score(tp: nat, fp: nat, fn: nat): real {
    var precision := if tp + fp > 0 then tp as real / (tp + fp) as real else 0.0;
    var recall := if tp + fn > 0 then tp as real / (tp + fn) as real else 0.0;
    if precision + recall > 0.0 then 2.0 * precision * recall / (precision + recall) else 0.0
  }

  function F1(samples: seq<Sample>, l: Label): real {
    Score(Count(samples, l, true, true), Count(samples, l, false, true), Count(samples, l, true, false))
  }

  function Labels(samples: seq<Sample>): set<Label> {
    if samples == [] then {} else {samples[0].0, samples[0].1} + Labels(samples[1..])
  }

  /** The F1 scores of a set of labels, added up. */
  ghost function SumF1(samples: seq<Sample>, labels: set<Label>): real
    decreases labels
  {
    if labels == {} then 0.0
    else
      var l := Separation.Pick(labels);
      F1(samples, l) + SumF1(samples, labels - {l})
  }

  /** The mean F1 score over the labels that occur, or 0 without samples. */
  ghost function Macro(samples: seq<Sample>): real {
    if samples == [] then 0.0
    else
      LabelsOccur(samples);
      SumF1(samples, Labels(samples)) / |Labels(samples)| as real
  }

  lemma LabelsOccur(samples: seq<Sample>)
    ensures |Labels(samples)| == 0 <==> samples == []
  {
    if samples != [] { assert samples[0].0 in Labels(samples); }
  }

  // --- one label ---

  /** A label that occurs has a true positive, a false positive or a false negative: none is ever skipped. */
  lemma {:induction false} OccurringLabelCounts(samples: seq<Sample>, l: Label)
    ensures l in Labels(samples) <==>
      Count(samples, l, true, true) + Count(samples, l, false, true) + Count(samples, l, true, false) > 0
  {
    if samples != [] { OccurringLabelCounts(samples[1..], l); }
  }

  lemma Fractions(t: real, a: real, b: real)
    requires t > 0.0 && a > 0.0 && b > 0.0
    ensures 2.0 * (t / a) * (t / b) / (t / a + t / b) == 2.0 * t / (a + b)
  {
    var p, r := t / a, t / b;
    assert p * a == t && r * b == t;
    assert p > 0.0 && r > 0.0;
    var x := 2.0 * p * r / (p + r);
    assert x * (p + r) == 2.0 * p * r;
    calc {
      2.0 * p * r * (a + b);
      2.0 * (r * (p * a)) + 2.0 * (p * (r * b));
      2.0 * (r * t) + 2.0 * (p * t);
      2.0 * t * (p + r);
    }
    assert x * (a + b) * (p + r) == 2.0 * t * (p + r) by {
      assert x * (a + b) * (p + r) == (x * (p + r)) * (a + b);
    }
    Cancel(x * (a + b), 2.0 * t, p + r);
    assert x == 2.0 * t / (a + b);
  }

  lemma Cancel(x: real, y: real, d: real)
    requires d > 0.0 && x * d == y * d
    ensures x == y
  {
    assert x == x * d / d && y == y * d / d;
  }

  /** The precision and recall form is the usual closed form of F1. */
  lemma ScoreClosed(tp: nat, fp: nat, fn: nat)
    requires tp + fp + fn > 0
    ensures Score(tp, fp, fn) == 2.0 * tp as real / (2 * tp + fp + fn) as real
  {
    if tp > 0 {
      var t, a, b := tp as real, (tp + fp) as real, (tp + fn) as real;
      Positive(t, a);
      Positive(t, b);
      Fractions(t, a, b);
      assert a + b == (2 * tp + fp + fn) as real;
      assert Score(tp, fp, fn) == 2.0 * (t / a) * (t / b) / (t / a + t / b);
    } else {
      ZeroOver((tp + fp) as real);
      ZeroOver((tp + fn) as real);
      ZeroOver((2 * tp + fp + fn) as real);
    }
  }

  lemma Positive(t: real, a: real)
    requires t > 0.0 && a > 0.0
    ensures t / a > 0.0
  {
  }

  lemma ZeroOver(a: real)
    ensures a != 0.0 ==> 0.0 / a == 0.0
  {
  }

  /** An occurring label scores between 0 and 1, and 1 exactly when it is never confused with another. */
  lemma ScoreRange(tp: nat, fp: nat, fn: nat)
    requires tp + fp + fn > 0
    ensures 0.0 <= Score(tp, fp, fn) <= 1.0
    ensures Score(tp, fp, fn) == 1.0 <==> fp == 0 && fn == 0
  {
    ScoreClosed(tp, fp, fn);
    hide Score;
    Ratio(2.0 * tp as real, (fp + fn) as real);
    assert (2 * tp + fp + fn) as real == 2.0 * tp as real + (fp + fn) as real;
  }

  lemma Ratio(x: real, y: real)
    requires x >= 0.0 && y >= 0.0 && x + y > 0.0
    ensures 0.0 <= x / (x + y) <= 1.0
    ensures x / (x + y) == 1.0 <==> y == 0.0
  {
    var q := x / (x + y);
    assert q * (x + y) == x;
  }

  lemma Mean(sum: real, n: real)
    requires 0.0 <= sum <= n && n > 0.0
    ensures 0.0 <= sum / n <= 1.0 && (sum / n == 1.0 <==> sum == n)
  {
    Ratio(sum, n - sum);
  }

  // --- the sum over labels ---

  /** The sum does not depend on which label is taken out first. */
  lemma {:induction false} SumTake(samples: seq<Sample>, labels: set<Label>, l: Label)
    requires l in labels
    ensures SumF1(samples, labels) == F1(samples, l) + SumF1(samples, labels - {l})
    decreases labels
  {
    hide F1;
    var k := Separation.Pick(labels);
    if k != l {
      SumTake(samples, labels - {k}, l);
      SumTake(samples, labels - {l}, k);
      assert labels - {k} - {l} == labels - {l} - {k};
    }
  }

  lemma {:induction false} SumRange(samples: seq<Sample>, labels: set<Label>)
    requires labels <= Labels(samples)
    ensures 0.0 <= SumF1(samples, labels) <= |labels| as real
    ensures SumF1(samples, labels) == |labels| as real <==> forall l :: l in labels ==> F1(samples, l) == 1.0
    decreases labels
  {
    if labels != {} {
      var l := Separation.Pick(labels);
      LabelRange(samples, l);
      SumRange(samples, labels - {l});
      assert |labels| == |labels - {l}| + 1;
      assert forall k :: k in labels <==> k == l || k in labels - {l};
      hide F1, Labels;
    }
  }

  lemma LabelRange(samples: seq<Sample>, l: Label)
    requires l in Labels(samples)
    ensures 0.0 <= F1(samples, l) <= 1.0
    ensures F1(samples, l) == 1.0 <==> Count(samples, l, false, true) == 0 && Count(samples, l, true, false) == 0
  {
    OccurringLabelCounts(samples, l);
    ScoreRange(Count(samples, l, true, true), Count(samples, l, false, true), Count(samples, l, true, false));
    hide Score;
  }

  /** No label is confused exactly when every prediction is right. */
  lemma {:induction false} NeverConfusedIff(samples: seq<Sample>)
    ensures (forall l :: l in Labels(samples) ==>
               Count(samples, l, false, true) == 0 && Count(samples, l, true, false) == 0)
            <==> (forall i :: 0 <= i < |samples| ==> samples[i].0 == samples[i].1)
  {
    if i :| 0 <= i < |samples| && samples[i].0 != samples[i].1 {
      SampleCounts(samples, i);
    } else {
      forall l ensures Count(samples, l, false, true) == 0 && Count(samples, l, true, false) == 0 {
        AllRightCounts(samples, l);
      }
    }
  }

  lemma {:induction false} SampleCounts(samples: seq<Sample>, i: nat)
    requires i < |samples| && samples[i].0 != samples[i].1
    ensures samples[i].0 in Labels(samples) && Count(samples, samples[i].0, true, false) > 0
    decreases |samples|
  {
    if i > 0 { SampleCounts(samples[1..], i - 1); }
  }

  lemma {:induction false} AllRightCounts(samples: seq<Sample>, l: Label)
    requires forall i :: 0 <= i < |samples| ==> samples[i].0 == samples[i].1
    ensures Count(samples, l, false, true) == 0 && Count(samples, l, true, false) == 0
  {
    if samples != [] { AllRightCounts(samples[1..], l); }
  }

  /** The score lies in [0, 1] and is 1 exactly on non-empty lists that agree everywhere. */
  lemma MacroRange(samples: seq<Sample>)
    ensures 0.0 <= Macro(samples) <= 1.0
    ensures Macro(samples) == 1.0 <==> samples != [] && forall i :: 0 <= i < |samples| ==> samples[i].0 == samples[i].1
  {
    if samples != [] {
      var labels := Labels(samples);
      LabelsOccur(samples);
      SumRange(samples, labels);
      NeverConfusedIff(samples);
      forall l | l in labels
        ensures F1(samples, l) == 1.0 <==> Count(samples, l, false, true) == 0 && Count(samples, l, true, false) == 0
      {
        LabelRange(samples, l);
      }
      Mean(SumF1(samples, labels), |labels| as real);
      assert Macro(samples) == SumF1(samples, labels) / |labels| as real;
      hide F1, Labels, SumF1, Count, Macro;
    }
  }

  // --- permuting samples ---

  lemma {:induction false} CountConcat(a: seq<Sample>, b: seq<Sample>, l: Label, isTrue: bool, isPred: bool)
    ensures Count(a + b, l, isTrue, isPred) == Count(a, l, isTrue, isPred) + Count(b, l, isTrue, isPred)
  {
    if a == [] {
      assert a + b == b;
    } else {
      assert (a + b)[1..] == a[1..] + b;
      CountConcat(a[1..], b, l, isTrue, isPred);
    }
  }

  lemma {:induction false} CountWithout(b: seq<Sample>, i: nat, l: Label, isTrue: bool, isPred: bool)
    requires i < |b|
    ensures Count(b, l, isTrue, isPred)
            == Count([b[i]], l, isTrue, isPred) + Count(b[..i] + b[i + 1..], l, isTrue, isPred)
    ensures multiset(b) == multiset{b[i]} + multiset(b[..i] + b[i + 1..])
  {
    assert b == b[..i] + ([b[i]] + b[i + 1..]);
    CountConcat(b[..i], b[i + 1..], l, isTrue, isPred);
    CountConcat(b[..i], [b[i]] + b[i + 1..], l, isTrue, isPred);
    CountConcat([b[i]], b[i + 1..], l, isTrue, isPred);
    hide Count;
  }

  lemma {:induction false} CountPermuted(a: seq<Sample>, b: seq<Sample>, l: Label, isTrue: bool, isPred: bool)
    requires multiset(a) == multiset(b)
    ensures Count(a, l, isTrue, isPred) == Count(b, l, isTrue, isPred)
    decreases |a|
  {
    hide Count;
    if a == [] {
      assert |multiset(b)| == 0;
    } else {
      assert a[0] in multiset(b);
      var i :| 0 <= i < |b| && b[i] == a[0];
      var restA, restB := a[..0] + a[1..], b[..i] + b[i + 1..];
      CountWithout(a, 0, l, isTrue, isPred);
      CountWithout(b, i, l, isTrue, isPred);
      SameRest(a[0], multiset(a), multiset(restA), multiset(restB));
      CountPermuted(restA, restB, l, isTrue, isPred);
    }
  }

  lemma SameRest(x: Sample, whole: multiset<Sample>, a: multiset<Sample>, b: multiset<Sample>)
    requires whole == multiset{x} + a && whole == multiset{x} + b
    ensures a == b
  {
    assert whole - multiset{x} == a && whole - multiset{x} == b;
  }

  lemma {:induction false} SumAgrees(a: seq<Sample>, b: seq<Sample>, labels: set<Label>)
    requires forall l :: l in labels ==> F1(a, l) == F1(b, l)
    ensures SumF1(a, labels) == SumF1(b, labels)
    decreases labels
  {
    hide F1;
    if labels != {} { SumAgrees(a, b, labels - {Separation.Pick(labels)}); }
  }

  /** The order of the samples does not matter. */
  lemma PermutationInvariant(a: seq<Sample>, b: seq<Sample>)
    requires multiset(a) == multiset(b)
    ensures Macro(a) == Macro(b)
  {
    assert |a| == |multiset(a)| && |b| == |multiset(b)|;
    forall l: Label
      ensures F1(a, l) == F1(b, l) && (l in Labels(a) <==> l in Labels(b))
    {
      CountPermuted(a, b, l, true, true);
      CountPermuted(a, b, l, false, true);
      CountPermuted(a, b, l, true, false);
      OccurringLabelCounts(a, l);
      OccurringLabelCounts(b, l);
      hide Score, Count, Labels;
    }
    assert Labels(a) == Labels(b);
    SumAgrees(a, b, Labels(a));
    hide F1, Labels, SumF1;
  }

  // --- renaming labels ---

  function Rename(samples: seq<Sample>, f: Label -> Label): (r: seq<Sample>)
    ensures |r| == |samples|
  {
    if samples == [] then [] else [(f(samples[0].0), f(samples[0].1))] + Rename(samples[1..], f)
  }

  ghost predicate Injective(f: Label -> Label) { forall x, y :: f(x) == f(y) ==> x == y }

  ghost function Image(labels: set<Label>, f: Label -> Label): set<Label> { set l | l in labels :: f(l) }

  lemma {:induction false} CountRenamed(samples: seq<Sample>, f: Label -> Label, l: Label, isTrue: bool, isPred: bool)
    requires Injective(f)
    ensures Count(Rename(samples, f), f(l), isTrue, isPred) == Count(samples, l, isTrue, isPred)
  {
    if samples != [] {
      CountRenamed(samples[1..], f, l, isTrue, isPred);
      assert Rename(samples, f)[1..] == Rename(samples[1..], f);
      assert f(samples[0].0) == f(l) <==> samples[0].0 == l;
      assert f(samples[0].1) == f(l) <==> samples[0].1 == l;
    }
  }

  lemma {:induction false} LabelsRenamed(samples: seq<Sample>, f: Label -> Label)
    ensures Labels(Rename(samples, f)) == Image(Labels(samples), f)
  {
    if samples != [] {
      LabelsRenamed(samples[1..], f);
      assert Rename(samples, f)[1..] == Rename(samples[1..], f);
    }
  }

  lemma {:induction false} SumRenamed(samples: seq<Sample>, f: Label -> Label, labels: set<Label>)
    requires Injective(f)
    ensures SumF1(Rename(samples, f), Image(labels, f)) == SumF1(samples, labels)
    ensures |Image(labels, f)| == |labels|
    decreases labels
  {
    if labels == {} {
      assert Image(labels, f) == {};
    } else {
      var l := Separation.Pick(labels);
      SumRenamed(samples, f, labels - {l});
      assert Image(labels - {l}, f) == Image(labels, f) - {f(l)};
      assert f(l) in Image(labels, f);
      assert F1(Rename(samples, f), f(l)) == F1(samples, l) by {
        CountRenamed(samples, f, l, true, true);
        CountRenamed(samples, f, l, false, true);
        CountRenamed(samples, f, l, true, false);
      }
      SumTake(Rename(samples, f), Image(labels, f), f(l));
      hide F1, Rename;
    }
  }

  /** The names of the labels do not matter. */
  lemma RenamingInvariant(samples: seq<Sample>, f: Label -> Label)
    requires Injective(f)
    ensures Macro(Rename(samples, f)) == Macro(samples)
  {
    LabelsRenamed(samples, f);
    SumRenamed(samples, f, Labels(samples));
    hide F1, Labels, SumF1;
  }

  // --- the computation ---

  lemma {:induction false} LabelsAt(samples: seq<Sample>, l: Label)
    ensures l in Labels(samples) <==> exists i :: 0 <= i < |samples| && (samples[i].0 == l || samples[i].1 == l)
  {
    if samples != [] {
      LabelsAt(samples[1..], l);
      assert samples == [samples[0]] + samples[1..];
    }
  }

  ghost function SetOf(labels: seq<Label>): set<Label> { set l | l in labels }

  function Sum(xs: seq<real>): real {
    if xs == [] then 0.0 else Sum(xs[..|xs| - 1]) + xs[|xs| - 1]
  }

  /** The labels that occur, each once. */
  method DistinctLabels(yTrue: seq<Label>, yPred: seq<Label>) returns (labels: seq<Label>)
    requires |yTrue| == |yPred|
    ensures forall i, j :: 0 <= i < j < |labels| ==> labels[i] != labels[j]
    ensures forall l :: l in labels <==> l in yTrue || l in yPred
  {
    labels := [];
    for i := 0 to |yTrue|
      invariant forall i, j :: 0 <= i < j < |labels| ==> labels[i] != labels[j]
      invariant forall l :: l in labels <==> l in yTrue[..i] || l in yPred[..i]
    {
      if yTrue[i] !in labels { labels := labels + [yTrue[i]]; }
      if yPred[i] !in labels { labels := labels + [yPred[i]]; }
      assert yTrue[..i + 1] == yTrue[..i] + [yTrue[i]] && yPred[..i + 1] == yPred[..i] + [yPred[i]];
    }
    assert yTrue[..|yTrue|] == yTrue && yPred[..|yPred|] == yPred;
  }

  lemma LabelsOfZip(yTrue: seq<Label>, yPred: seq<Label>, labels: seq<Label>)
    requires |yTrue| == |yPred| && forall l :: l in labels <==> l in yTrue || l in yPred
    ensures SetOf(labels) == Labels(Zip(yTrue, yPred))
  {
    var samples := Zip(yTrue, yPred);
    forall l: Label ensures l in labels <==> l in Labels(samples) {
      LabelsAt(samples, l);
      if l in yTrue {
        var i :| 0 <= i < |yTrue| && yTrue[i] == l;
        assert samples[i].0 == l;
      }
      if l in yPred {
        var i :| 0 <= i < |yPred| && yPred[i] == l;
        assert samples[i].1 == l;
      }
    }
  }

  lemma SetOfNext(labels: seq<Label>, l: Label)
    requires l !in labels
    ensures l in SetOf(labels + [l]) && SetOf(labels + [l]) - {l} == SetOf(labels)
    ensures |SetOf(labels + [l])| == |SetOf(labels)| + 1
  {
    assert SetOf(labels + [l]) == SetOf(labels) + {l};
  }

  lemma SumF1Empty(samples: seq<Sample>)
    ensures SetOf([]) == {} && SumF1(samples, SetOf([])) == 0.0
  {
  }

  lemma SumF1Next(samples: seq<Sample>, labels: seq<Label>, l: Label)
    requires l !in labels
    ensures SumF1(samples, SetOf(labels + [l])) == F1(samples, l) + SumF1(samples, SetOf(labels))
  {
    hide F1, SumF1, SetOf;
    SetOfNext(labels, l);
    SumTake(samples, SetOf(labels + [l]), l);
  }

  /** Any enumeration of the labels without repetition gives the same sum. */
  lemma {:induction false} EnumerationSum(samples: seq<Sample>, labels: seq<Label>, scores: seq<real>)
    requires forall j, k :: 0 <= j < k < |labels| ==> labels[j] != labels[k]
    requires |scores| == |labels| && forall j :: 0 <= j < |labels| ==> scores[j] == F1(samples, labels[j])
    ensures Sum(scores) == SumF1(samples, SetOf(labels)) && |SetOf(labels)| == |labels|
  {
    hide F1, SumF1, SetOf;
    if labels == [] {
      SumF1Empty(samples);
    } else {
      var n := |labels| - 1;
      var done, l := labels[..n], labels[n];
      assert l !in done;
      EnumerationSum(samples, done, scores[..n]);
      SetOfNext(done, l);
      SumF1Next(samples, done, l);
      assert labels == done + [l];
    }
  }

  /** The scores of the labels in order; the test that skips a label without counts never succeeds. */
  method ScoreLabels(samples: seq<Sample>, labels: seq<Label>) returns (f1Scores: seq<real>)
    requires forall j :: 0 <= j < |labels| ==> labels[j] in Labels(samples)
    ensures |f1Scores| == |labels| && forall j :: 0 <= j < |labels| ==> f1Scores[j] == F1(samples, labels[j])
  {
    hide Count, Score, Labels;
    f1Scores := [];
    for i := 0 to |labels|
      invariant |f1Scores| == i
      invariant forall j :: 0 <= j < i ==> f1Scores[j] == F1(samples, labels[j])
    {
      var tp := Count(samples, labels[i], true, true);
      var fp := Count(samples, labels[i], false, true);
      var fn := Count(samples, labels[i], true, false);
      OccurringLabelCounts(samples, labels[i]);
      if !(tp == 0 && fp == 0 && fn == 0) {
        f1Scores := f1Scores + [Score(tp, fp, fn)];
      }
    }
  }

  /**
    The score as the script computes it; `None` is the error on lists of different lengths. Every label contributes.
   */
  method ComputeMacroF1(yTrue: seq<Label>, yPred: seq<Label>) returns (r: Option<real>)
    ensures r.None? <==> |yTrue| != |yPred|
    ensures r.Some? ==> r.value == Macro(Zip(yTrue, yPred))
  {
    hide Macro, Labels, SumF1, Score, F1, SetOf;
    if |yTrue| != |yPred| { return None; }
    var labels := DistinctLabels(yTrue, yPred);
    LabelsOfZip(yTrue, yPred, labels);
    if labels == [] {
      EmptyMacro(Zip(yTrue, yPred), labels);
      return Some(0.0);
    }
    forall j | 0 <= j < |labels| ensures labels[j] in SetOf(labels) { InSetOf(labels, j); }
    hide Zip;
    var f1Scores := ScoreLabels(Zip(yTrue, yPred), labels);
    EnumerationSum(Zip(yTrue, yPred), labels, f1Scores);
    MacroIs(Zip(yTrue, yPred), labels);
    return Some(Sum(f1Scores) / |f1Scores| as real);
  }

  lemma InSetOf(labels: seq<Label>, j: nat)
    requires j < |labels|
    ensures labels[j] in SetOf(labels)
  {
  }

  lemma EmptyMacro(samples: seq<Sample>, labels: seq<Label>)
    requires labels == [] && SetOf(labels) == Labels(samples)
    ensures Macro(samples) == 0.0
  {
    LabelsOccur(samples);
  }

  lemma MacroIs(samples: seq<Sample>, labels: seq<Label>)
    requires labels != [] && SetOf(labels) == Labels(samples) && |SetOf(labels)| == |labels|
    ensures Macro(samples) == SumF1(samples, SetOf(labels)) / |labels| as real
  {
    LabelsOccur(samples);
  }
}
