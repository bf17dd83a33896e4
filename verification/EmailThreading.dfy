/** Subject normalization, ticket tags and reference ids of e-mail threads. */
module EmailThreading {
  import opened Wrappers
  import opened SubjectText

  method NormalizeSubject(subject: string) returns (r: string)
    ensures r == Normalize(subject)
  {
    var text := subject;
    while true
      invariant StripPrefixes(text) == StripPrefixes(subject)
      decreases |text|
    {
      var stripped := text[PrefixLength(text)..];
      if stripped == text {
        assert PrefixLength(text) == 0;
        break;
      }
      text := stripped;
    }
    r := LowerAll(Trim(Squeeze(RemoveTags(text))));
  }

  // --- what a reply prefix is ---

  predicate AllSpace(s: string) { forall i :: 0 <= i < |s| ==> IsSpace(s[i]) }

  lemma {:induction false} SpacesUpTo(a: string, rest: string)
    requires AllSpace(a) && (rest != "" ==> !IsSpace(rest[0]))
    ensures Spaces(a + rest) == |a|
  {
    if a == "" {
      assert a + rest == rest;
    } else {
      assert (a + rest)[1..] == a[1..] + rest;
      SpacesUpTo(a[1..], rest);
    }
  }

  /** White space, at most one colon, white space. */
  predicate IsSeparator(a: string, colon: string, b: string) {
    AllSpace(a) && AllSpace(b) && (colon == ":" || (colon == "" && b == ""))
  }

  /** What follows begins with no white space, and with no colon where the separator has none. */
  predicate Ends(colon: string, t: string) { t != "" ==> !IsSpace(t[0]) && (colon == "" ==> t[0] != ':') }

  lemma SeparatorIs(a: string, colon: string, b: string, t: string)
    requires IsSeparator(a, colon, b) && Ends(colon, t)
    ensures Separator(a + colon + b + t) == |a| + |colon| + |b|
  {
    var s := a + colon + b + t;
    SpacesUpTo(a, colon + b + t);
    assert s == a + (colon + b + t);
    if colon == ":" {
      assert s[|a|] == ':' && s[|a| + 1..] == b + t;
      SpacesUpTo(b, t);
    }
  }

  /** A reply keyword in capitals or small letters; `fw` before a `d` is `fwd`. */
  predicate IsKeyword(word: string, rest: string) {
    || LowerAll(word) == "re" || LowerAll(word) == "fwd"
    || (LowerAll(word) == "fw" && (rest != "" ==> Lower(rest[0]) != 'd'))
  }

  lemma KeywordIs(word: string, rest: string)
    requires IsKeyword(word, rest)
    ensures KeywordLength(word + rest) == |word|
  {
    var s := word + rest;
    assert |word| == |LowerAll(word)|;
    assert forall i :: 0 <= i < |word| ==> s[i] == word[i] && LowerAll(word)[i] == Lower(s[i]);
    assert LowerAll(word)[0] == Lower(s[0]) && LowerAll(word)[1] == Lower(s[1]);
    if |word| == 3 {
      assert LowerAll(word)[2] == Lower(s[2]);
    } else if rest != "" {
      assert s[2] == rest[0];
    }
  }

  /** `re`, `fw` or `fwd`, in any case, with its separator, is stripped from the front, and then what follows is. */
  lemma PrefixStripped(word: string, a: string, colon: string, b: string, t: string)
    requires IsKeyword(word, a + colon + b + t) && IsSeparator(a, colon, b) && Ends(colon, t)
    ensures StripPrefixes(word + a + colon + b + t) == StripPrefixes(t)
  {
    var rest := a + colon + b + t;
    var s := word + a + colon + b + t;
    assert s == word + rest;
    KeywordIs(word, rest);
    SeparatorIs(a, colon, b, t);
    assert |word| == |LowerAll(word)| >= 2 && s[|word|..] == rest;
    hide KeywordLength, Separator, IsSeparator, IsKeyword, Ends, LowerAll;
    assert PrefixLength(s) == |word| + |a| + |colon| + |b|;
    assert s[|word| + |a| + |colon| + |b|..] == t;
    StripOnce(s);
  }

  // --- when normalizing twice changes nothing ---

  /**
    The documented idempotence holds exactly when what is left of the subject has no reply prefix after its leading
    whitespace, and no ticket tag (one in capitals, or one put together by taking out another).
   */
  lemma IdempotentIff(s: string)
    ensures Normalize(Normalize(s)) == Normalize(s)
            <==> KeywordLength(TrimLeft(Leftover(s))) == 0 && !HasTag(Leftover(s))
  {
    var u := Normalize(s);
    NormalizeLeftover(s);
    NormalizeTidy(s);
    StripShrinks(u);
    RemoveShrinks(StripPrefixes(u));
    hide Leftover, TrimLeft;
    if KeywordLength(u) == 0 && !HasTag(u) {
      TidyFixed(u);
    } else {
      NormalizeShrinks(u);
    }
  }

  /** One space before a text that is tidy but for its capitals normalizes to the text without capitals. */
  lemma SpacedTidy(t: string)
    requires t != "" && Tidy(LowerAll(t))
    ensures LowerAll(Trim(Squeeze(" " + t))) == LowerAll(t)
  {
    var l := LowerAll(t);
    LowerFirst(" " + t);
    assert LowerAll(" " + t) == " " + l;
    var s := " " + l;
    assert s[1..] == l && Spaces(l) == 0 && Spaces(s) == 1;
    SqueezeFixed(l);
    assert Squeeze(s) == s && TrimLeft(s) == l;
    hide Squeeze, Spaces, IsSpace, Lower, Squeezed, TrimLeft;
    assert Trim(Squeeze(s)) == TrimRight(l) == l;
  }

  lemma LeadingSpace(t: string)
    requires t != "" && Tidy(LowerAll(t)) && !HasTag(t)
    ensures RemoveTags(" " + t) == " " + t && Normalize(" " + t) == LowerAll(t)
  {
    var s := " " + t;
    assert PrefixLength(s) == 0;
    TagTail(s);
    assert s[1..] == t;
    RemoveShrinks(s);
    SpacedTidy(t);
  }

  lemma TagHead(tag: string, rest: string)
    requires IsTag(tag)
    ensures var s := "[#" + tag + "]" + rest; TagAt(s, 0) && s[11..] == rest
  {
    var s := "[#" + tag + "]" + rest;
    assert forall k :: 2 <= k < 10 ==> s[k] == tag[k - 2];
  }

  lemma BracketFirst(s: string)
    requires s != "" && s[0] == '['
    ensures StripPrefixes(s) == s
  {
  }

  lemma TagThenSpaced(s: string, t: string)
    requires TagAt(s, 0) && s[11..] == " " + t && t != "" && Tidy(LowerAll(t)) && !HasTag(t)
    ensures Normalize(s) == LowerAll(t)
  {
    assert RemoveTags(s) == RemoveTags(" " + t);
    hide RemoveTags, StripPrefixes, Squeeze, Trim, LowerAll, Tidy, HasTag;
    LeadingSpace(t);
    SpacedTidy(t);
    BracketFirst(s);
  }

  lemma TagFirst(tag: string, t: string)
    requires IsTag(tag) && t != "" && Tidy(LowerAll(t)) && !HasTag(t)
    ensures Normalize("[#" + tag + "] " + t) == LowerAll(t)
  {
    TagHead(tag, " " + t);
    assert "[#" + tag + "] " + t == "[#" + tag + "]" + (" " + t);
    hide *;
    TagThenSpaced("[#" + tag + "] " + t, t);
  }

  lemma PrefixLower(t: string)
    requires PrefixLength(t) > 0
    ensures t != "" && PrefixLength(LowerAll(t)) > 0
  {
    assert forall c :: Lower(Lower(c)) == Lower(c);
    assert KeywordLength(LowerAll(t)) == KeywordLength(t);
  }

  /**
    Two families on which the documented idempotence fails: any text `t` that starts with a reply prefix and is tidy but
    for its capitals, after leading whitespace or after a ticket tag, normalizes to `t` in lower case, and that to
    something shorter.
   */
  lemma NotIdempotent(tag: string, t: string)
    requires IsTag(tag) && Tidy(LowerAll(t)) && !HasTag(t) && PrefixLength(t) > 0
    ensures Normalize(" " + t) == LowerAll(t) && Normalize("[#" + tag + "] " + t) == LowerAll(t)
    ensures Normalize(LowerAll(t)) != LowerAll(t)
  {
    PrefixLower(t);
    hide *;
    LeadingSpace(t);
    TagFirst(tag, t);
    NormalizeShrinks(LowerAll(t));
  }

  lemma ReplyIsTidy(t: string)
    requires t == "Re: x"
    ensures LowerAll(t) == "re: x" && Tidy(LowerAll(t))
  {
  }

  lemma ReplyIsPrefixed(t: string)
    requires t == "Re: x"
    ensures PrefixLength(t) > 0 && !HasTag(t)
  {
    hide Separator;
    assert KeywordLength(t) == 2;
  }

  /** For example: a reply prefix behind a tag. */
  lemma TaggedReplyNotIdempotent()
    ensures Normalize("[#12345678] Re: x") == "re: x" && Normalize("re: x") != "re: x"
  {
    var t, tag := "Re: x", "12345678";
    assert IsTag(tag);
    hide *;
    ReplyIsTidy(t);
    ReplyIsPrefixed(t);
    assert "[#" + tag + "] " + t == "[#12345678] Re: x";
    NotIdempotent(tag, t);
  }

  // --- subjects on which it is idempotent: no leading whitespace, no "[#" ---

  ghost predicate NoTagOpening(s: string) {
    forall i :: 0 < i < |s| ==> !(s[i - 1] == '[' && s[i] == '#')
  }

  lemma DropNoOpening(s: string, n: nat)
    requires NoTagOpening(s) && n <= |s|
    ensures NoTagOpening(s[n..])
  {
    var t := s[n..];
    forall i | 0 < i < |t| ensures !(t[i - 1] == '[' && t[i] == '#') {
      assert t[i] == s[n + i] && t[i - 1] == s[n + i - 1];
    }
  }

  lemma {:induction false} StripPlain(s: string)
    requires s != "" ==> !IsSpace(s[0])
    ensures StripPrefixes(s) != "" ==> !IsSpace(StripPrefixes(s)[0])
    ensures NoTagOpening(s) ==> NoTagOpening(StripPrefixes(s))
    decreases |s|
  {
    var n := PrefixLength(s);
    if n > 0 {
      assert n < |s| ==> !IsSpace(s[n]);
      if NoTagOpening(s) { DropNoOpening(s, n); }
      StripPlain(s[n..]);
    }
  }

  lemma NoOpeningNoTag(t: string)
    requires NoTagOpening(t)
    ensures !HasTag(t) && !HasTag(LowerAll(t))
  {
    assert forall i :: 0 <= i < |t| ==> (LowerAll(t)[i] == '[' <==> t[i] == '[');
    assert forall i :: 0 <= i < |t| ==> (LowerAll(t)[i] == '#' <==> t[i] == '#');
    forall i ensures !TagAt(t, i) && !TagAt(LowerAll(t), i) {
      if 0 <= i <= |t| - 11 { assert !(t[i + 1 - 1] == '[' && t[i + 1] == '#'); }
    }
  }

  lemma LowerPlain(r: string)
    requires KeywordLength(r) == 0 && (r != "" ==> !IsSpace(r[0]))
    ensures TrimLeft(LowerAll(r)) == LowerAll(r) && KeywordLength(LowerAll(r)) == 0
  {
    SpacesLower(r);
  }

  lemma LeftoverPlain(s: string)
    requires (s != "" ==> !IsSpace(s[0])) && NoTagOpening(s)
    ensures KeywordLength(TrimLeft(Leftover(s))) == 0 && !HasTag(Leftover(s))
  {
    hide StripPrefixes, KeywordLength, Separator, RemoveTags, HasTag, NoTagOpening, IsSpace, TrimLeft, Spaces;
    var r := StripPrefixes(s);
    StripPlain(s);
    StripShrinks(s);
    NoOpeningNoTag(r);
    RemoveShrinks(r);
    LowerPlain(r);
  }

  /** On every subject without leading whitespace and without "[#", normalizing twice is normalizing once. */
  lemma IdempotentOnPlain(s: string)
    requires (s != "" ==> !IsSpace(s[0])) && NoTagOpening(s)
    ensures Normalize(Normalize(s)) == Normalize(s)
  {
    hide *;
    LeftoverPlain(s);
    IdempotentIff(s);
  }

  // --- reply subjects ---

  predicate IsTag(tag: string) { |tag| == 8 && forall i :: 0 <= i < 8 ==> IsHex(tag[i]) }

  function Suffix(tag: string): string { " [#" + tag + "]" }

  /** The `Subject` that `build_reply_headers` writes. */
  function ReplySubject(original: string, tag: string): string {
    if ParseTag(original).None? then original + Suffix(tag) else original
  }

  lemma {:induction false} ParseTagIff(s: string)
    ensures ParseTag(s).Some? <==> HasTag(s)
    ensures ParseTag(s).Some? ==> IsTag(ParseTag(s).value)
  {
    if |s| >= 11 {
      TagTail(s);
      if !TagAt(s, 0) { ParseTagIff(s[1..]); }
    }
  }

  lemma TagInSuffix(tag: string)
    requires IsTag(tag)
    ensures |Suffix(tag)| == 12 && Suffix(tag)[0] == ' ' && Suffix(tag)[1] == '[' && TagAt(Suffix(tag), 1)
    ensures Suffix(tag)[3..11] == tag && !TagAt(Suffix(tag), 0)
    ensures TagAt(Suffix(tag)[1..], 0) && Suffix(tag)[1..][11..] == ""
  {
    assert forall j :: 3 <= j < 11 ==> Suffix(tag)[j] == tag[j - 3];
  }

  /** No tag starts in an untagged text and runs into the suffix, whose first character is a space. */
  lemma NoStraddle(r: string, tag: string)
    requires IsTag(tag) && r != "" && !TagAt(r, 0)
    ensures !TagAt(r + Suffix(tag), 0)
  {
    TagInSuffix(tag);
    var s := r + Suffix(tag);
    if |r| < 11 {
      assert s[|r|] == ' ';
    } else {
      assert forall j :: 0 <= j < 11 ==> s[j] == r[j];
    }
  }

  /** The tag of an untagged text with a suffix is the suffix's tag, and removing it leaves the text and a space. */
  lemma {:induction false} SuffixTag(r: string, tag: string)
    requires IsTag(tag) && !HasTag(r)
    ensures ParseTag(r + Suffix(tag)) == Some(tag)
    ensures RemoveTags(r + Suffix(tag)) == r + " "
  {
    TagInSuffix(tag);
    var s := r + Suffix(tag);
    if r == "" {
      assert s == Suffix(tag);
      assert s[1..][2..10] == s[3..11];
      assert RemoveTags(s[1..]) == "";
    } else {
      TagTail(r);
      NoStraddle(r, tag);
      assert s[1..] == r[1..] + Suffix(tag);
      SuffixTag(r[1..], tag);
      assert r + " " == [r[0]] + (r[1..] + " ");
    }
  }

  /**
    The round trip of a reply: for every untagged subject, the subject sent back carries exactly the ticket's tag, and
    a reply to it normalizes like the original.
   */
  lemma ReplyRoundTrip(original: string, tag: string)
    requires IsTag(tag) && ParseTag(original).None?
    ensures ParseTag(ReplySubject(original, tag)) == Some(tag)
    ensures Normalize(ReplySubject(original, tag)) == Normalize(original)
  {
    ParseTagIff(original);
    SuffixTag(original, tag);
    TagInSuffix(tag);
    StripSuffix(original, Suffix(tag));
    StripUntagged(original);
    var r := StripPrefixes(original);
    RemoveShrinks(r);
    SuffixTag(r, tag);
    TrailingSpaceTrimmed(r);
    if StripPrefixes(original + Suffix(tag)) != r + Suffix(tag) {
      assert RemoveTags(Suffix(tag)[1..]) == "";
    }
  }

  /** A subject that already carries a tag is sent back as it is. */
  lemma NeverDoubleTagged(original: string, tag: string)
    requires HasTag(original)
    ensures ReplySubject(original, tag) == original
  {
    ParseTagIff(original);
  }

  // --- reference ids ---

  /** First position of `x` in `xs`, or the length. */
  function FirstIndex(xs: seq<string>, x: string): (i: nat)
    ensures i <= |xs| && (i < |xs| ==> xs[i] == x) && (forall j :: 0 <= j < i ==> xs[j] != x)
    ensures i == |xs| <==> x !in xs
  {
    if xs == [] then 0 else if xs[0] == x then 0 else 1 + FirstIndex(xs[1..], x)
  }

  /** `in_reply_to` first, then `references` from the newest back; `None` counts as empty. */
  function Ancestors(inReplyTo: Option<string>, references: seq<string>): seq<string> {
    [if inReplyTo.Some? then inReplyTo.value else ""]
    + seq(|references|, i requires 0 <= i < |references| => references[|references| - 1 - i])
  }

  /** The non-empty members, each where it first appears. */
  function FirstOccurrences(xs: seq<string>): seq<string> {
    if xs == [] then []
    else
      var n := |xs| - 1;
      FirstOccurrences(xs[..n]) + if xs[n] != "" && xs[n] !in xs[..n] then [xs[n]] else []
  }

  /** The ancestors to try, direct parent first. */
  function ReferenceIds(inReplyTo: Option<string>, references: seq<string>): seq<string> {
    FirstOccurrences(Ancestors(inReplyTo, references))
  }

  lemma {:induction false} FirstOccurrencesIn(xs: seq<string>, x: string)
    ensures x in FirstOccurrences(xs) <==> x != "" && x in xs
  {
    if xs != [] {
      var n := |xs| - 1;
      FirstOccurrencesIn(xs[..n], x);
      assert xs == xs[..n] + [xs[n]];
    }
  }

  lemma {:induction false} FirstOccurrencesOrdered(xs: seq<string>, i: nat, j: nat)
    requires i < j < |FirstOccurrences(xs)|
    ensures FirstIndex(xs, FirstOccurrences(xs)[i]) < FirstIndex(xs, FirstOccurrences(xs)[j])
  {
    var n := |xs| - 1;
    var rest, all := FirstOccurrences(xs[..n]), FirstOccurrences(xs);
    FirstOccurrencesIn(xs[..n], all[i]);
    FirstIndexPrefix(xs, n, all[i]);
    if j < |rest| {
      FirstOccurrencesOrdered(xs[..n], i, j);
      FirstOccurrencesIn(xs[..n], all[j]);
      FirstIndexPrefix(xs, n, all[j]);
    } else {
      assert FirstIndex(xs, all[j]) >= n by { assert all[j] !in xs[..n]; }
    }
  }

  lemma FirstIndexPrefix(xs: seq<string>, n: nat, x: string)
    requires n <= |xs| && x in xs[..n]
    ensures FirstIndex(xs, x) == FirstIndex(xs[..n], x) < n
  {
    var i := FirstIndex(xs[..n], x);
    assert xs[i] == x;
    assert forall k :: 0 <= k < i ==> xs[..n][k] == xs[k];
  }

  /** The non-empty ancestors, each once, in the order of their first appearance. */
  method ExtractReferenceIds(inReplyTo: Option<string>, references: seq<string>) returns (result: seq<string>)
    ensures result == ReferenceIds(inReplyTo, references)
    ensures forall x :: x in result <==> x != "" && x in Ancestors(inReplyTo, references)
    ensures forall i, j :: 0 <= i < j < |result| ==>
              FirstIndex(Ancestors(inReplyTo, references), result[i])
              < FirstIndex(Ancestors(inReplyTo, references), result[j])
  {
    var candidates := Ancestors(inReplyTo, references);
    hide FirstIndex, Ancestors;
    result := [];
    var seen: set<string> := {};
    for k := 0 to |candidates|
      invariant result == FirstOccurrences(candidates[..k])
      invariant forall x :: x in seen <==> x != "" && x in candidates[..k]
    {
      var candidate := candidates[k];
      assert candidates[..k + 1][..k] == candidates[..k];
      if candidate != "" && candidate !in seen {
        seen := seen + {candidate};
        result := result + [candidate];
      }
    }
    assert candidates[..|candidates|] == candidates;
    forall x ensures x in result <==> x != "" && x in candidates { FirstOccurrencesIn(candidates, x); }
    forall i, j | 0 <= i < j < |result| ensures FirstIndex(candidates, result[i]) < FirstIndex(candidates, result[j]) {
      FirstOccurrencesOrdered(candidates, i, j);
    }
  }

  /** The direct parent, if there is one, is tried first. */
  lemma {:induction false} ParentFirst(xs: seq<string>)
    requires xs != [] && xs[0] != ""
    ensures |FirstOccurrences(xs)| > 0 && FirstOccurrences(xs)[0] == xs[0]
  {
    if |xs| > 1 { ParentFirst(xs[..|xs| - 1]); }
  }

  // --- tags in subjects that are answered ---

  predicate NoBracket(s: string) { '[' !in s }

  /** Text without a bracket before a subject does not change which tag is found. */
  lemma {:induction false} ParseTagPast(before: string, s: string)
    requires NoBracket(before)
    ensures ParseTag(before + s) == ParseTag(s)
  {
    var t := before + s;
    if before == "" {
      assert t == s;
    } else {
      assert t[0] == before[0] && before[0] in before;
      assert t[1..] == before[1..] + s;
      ParseTagPast(before[1..], s);
      ParseShort(s);
      ParseShort(t[1..]);
    }
  }

  lemma ParseShort(s: string)
    ensures |s| < 11 ==> ParseTag(s).None?
  {
  }

  /** A subject that begins with a bracket and has no tag is only tidied up. */
  lemma NormalizeBracketed(s: string)
    requires !HasTag(s) && s != "" && s[0] == '['
    ensures Normalize(s) == Trim(Squeeze(LowerAll(s)))
  {
    assert PrefixLength(s) == 0 && StripPrefixes(s) == s;
    RemoveShrinks(s);
    assert Leftover(s) == LowerAll(s);
    LowerFirst(s);
  }

  /** Tidying up leaves a tag at the start alone. */
  lemma TidiedTag(l: string)
    requires TagAt(l, 0)
    ensures TagAt(Trim(Squeeze(l)), 0) && Trim(Squeeze(l))[..11] == l[..11]
  {
    SqueezeVisible(l, 11);
    var q := Squeeze(l);
    assert Visible(l, 11);
    assert Visible(q, 1);
    assert Spaces(q) == 0 && TrimLeft(q) == q;
    TrimRightVisible(q, 11);
    assert Trim(q)[..11] == l[..11];
    TagAtVisible(l, Trim(q));
  }

  /**
    A bracketed number in capitals is no tag, but lower-casing makes it one: the normalized subject carries a tag that
    the subject does not.
   */
  lemma CapitalsBecomeTag(s: string)
    requires !HasTag(s) && TagAt(LowerAll(s), 0)
    ensures ParseTag(s).None? && ParseTag(Normalize(s)) == Some(LowerAll(s)[2..10])
  {
    hide *;
    ParseTagIff(s);
    LowerBracket(s);
    NormalizeBracketed(s);
    var l, out := LowerAll(s), Normalize(s);
    TidiedTag(l);
    ParseFront(l);
    ParseFront(out);
    assert out[2..10] == out[..11][2..10] == l[..11][2..10] == l[2..10];
  }

  lemma LowerBracket(s: string)
    requires TagAt(LowerAll(s), 0)
    ensures |s| >= 11 && s[0] == '['
  {
  }

  lemma ParseFront(s: string)
    requires TagAt(s, 0)
    ensures |s| >= 11 && ParseTag(s) == Some(s[2..10])
  {
  }
}
