/**
  The text operations of subject normalization, and what they leave. Prefixes are stripped from the front, tags are cut
  out, runs of whitespace are squeezed into one space, the ends are trimmed and capitals are folded, in this order. The
  lemmas follow a pattern, a reply keyword or a tag, through these operations: which of them can make it, break it or
  move it, and what a text that holds no such pattern comes out as. Case folding is modelled for ASCII letters;
  whitespace is Python's `str.isspace`.
 */
module SubjectText {
  import opened Wrappers

  // --- characters ---

  predicate IsSpace(c: char) {
    || '\t' <= c <= '\r' || '\U{1c}' <= c <= ' ' || c == '\U{85}' || c == '\U{a0}' || c == '\U{1680}'
    || '\U{2000}' <= c <= '\U{200a}' || c == '\U{2028}' || c == '\U{2029}' || c == '\U{202f}' || c == '\U{205f}'
    || c == '\U{3000}'
  }

  function Lower(c: char): char {
    if 'A' <= c <= 'Z' then (c as int + 32) as char else c
  }

  predicate IsHex(c: char) { '0' <= c <= '9' || 'a' <= c <= 'f' }

  /** White space is these characters and no others. */
  lemma SpacesAre(c: char)
    ensures IsSpace(c) <==>
      c in {'\t', '\n', '\U{b}', '\U{c}', '\r', '\U{1c}', '\U{1d}', '\U{1e}', '\U{1f}', ' ', '\U{85}', '\U{a0}',
            '\U{1680}', '\U{2000}', '\U{2001}', '\U{2002}', '\U{2003}', '\U{2004}', '\U{2005}', '\U{2006}', '\U{2007}',
            '\U{2008}', '\U{2009}', '\U{200a}', '\U{2028}', '\U{2029}', '\U{202f}', '\U{205f}', '\U{3000}'}
  {
  }

  lemma HexDigitsAre(c: char)
    ensures IsHex(c) <==>
      c in {'0', '1', '2', '3', '4', '5', '6', '7', '8', '9', 'a', 'b', 'c', 'd', 'e', 'f'}
  {
  }

  const CAPITALS := "ABCDEFGHIJKLMNOPQRSTUVWXYZ"
  const SMALL := "abcdefghijklmnopqrstuvwxyz"

  /** Capitals become the small letters at their places, and other characters stay. */
  lemma LowerIs(c: char)
    ensures forall i :: 0 <= i < 26 ==> Lower(CAPITALS[i]) == SMALL[i]
    ensures c !in CAPITALS ==> Lower(c) == c
  {
    if 'A' <= c <= 'Z' { assert CAPITALS[c as int - 'A' as int] == c; }
  }

  // --- reply and forward prefixes: ^(re|fwd|fw)\s*:?\s* ignoring case ---

  function KeywordLength(s: string): nat {
    if |s| >= 2 && Lower(s[0]) == 'r' && Lower(s[1]) == 'e' then 2
    else if |s| >= 3 && Lower(s[0]) == 'f' && Lower(s[1]) == 'w' && Lower(s[2]) == 'd' then 3
    else if |s| >= 2 && Lower(s[0]) == 'f' && Lower(s[1]) == 'w' then 2
    else 0
  }

  /** How many whitespace characters `s` starts with. */
  function Spaces(s: string): (n: nat)
    ensures n <= |s| && (n < |s| ==> !IsSpace(s[n]))
  {
    if s == "" || !IsSpace(s[0]) then 0 else 1 + Spaces(s[1..])
  }

  /** Length of `\s*:?\s*` at the start of `s`. */
  function Separator(s: string): (n: nat)
    ensures n <= |s| && (n < |s| ==> !IsSpace(s[n]))
  {
    var a := Spaces(s);
    if a < |s| && s[a] == ':' then a + 1 + Spaces(s[a + 1..]) else a
  }

  function PrefixLength(s: string): (n: nat)
    ensures n <= |s|
  {
    var k := KeywordLength(s);
    if k == 0 then 0 else k + Separator(s[k..])
  }

  function StripPrefixes(s: string): string
    decreases |s|
  {
    if PrefixLength(s) == 0 then s else StripPrefixes(s[PrefixLength(s)..])
  }

  // --- ticket tags: \[#([0-9a-f]{8})\] ---

  predicate TagAt(s: string, i: int) {
    && 0 <= i <= |s| - 11
    && s[i] == '[' && s[i + 1] == '#' && s[i + 10] == ']'
    && (forall j :: i + 2 <= j < i + 10 ==> IsHex(s[j]))
  }

  ghost predicate HasTag(s: string) { exists i :: TagAt(s, i) }

  /** A tag is at the front or further back. */
  lemma TagTail(s: string)
    requires s != ""
    ensures HasTag(s) <==> TagAt(s, 0) || HasTag(s[1..])
  {
    var t := s[1..];
    if HasTag(s) {
      var i :| TagAt(s, i);
      if i > 0 { assert TagAt(t, i - 1); }
    }
    if HasTag(t) {
      var i :| TagAt(t, i);
      assert TagAt(s, i + 1);
    }
  }

  lemma {:induction false} TagDrop(s: string, n: nat)
    requires n <= |s| && HasTag(s[n..])
    ensures HasTag(s)
  {
    if n > 0 {
      TagTail(s[n - 1..]);
      assert s[n - 1..][1..] == s[n..];
      TagDrop(s, n - 1);
    } else {
      assert s[n..] == s;
    }
  }

  function ParseTag(s: string): (tag: Option<string>)
  {
    if |s| < 11 then None else if TagAt(s, 0) then Some(s[2..10]) else ParseTag(s[1..])
  }

  function RemoveTags(s: string): string
    decreases |s|
  {
    if s == "" then "" else if TagAt(s, 0) then RemoveTags(s[11..]) else [s[0]] + RemoveTags(s[1..])
  }

  // --- whitespace and case ---

  /** Every run of whitespace becomes one space. */
  function Squeeze(s: string): string
    decreases |s|
  {
    if s == "" then "" else if IsSpace(s[0]) then " " + Squeeze(s[Spaces(s)..]) else [s[0]] + Squeeze(s[1..])
  }

  function TrimLeft(s: string): string { s[Spaces(s)..] }

  function TrimRight(s: string): string {
    if s == "" || !IsSpace(s[|s| - 1]) then s else TrimRight(s[..|s| - 1])
  }

  function Trim(s: string): string { TrimRight(TrimLeft(s)) }

  function LowerAll(s: string): (r: string)
    ensures |r| == |s| && forall i :: 0 <= i < |s| ==> r[i] == Lower(s[i])
  {
    seq(|s|, i requires 0 <= i < |s| => Lower(s[i]))
  }

  function Normalize(s: string): string {
    LowerAll(Trim(Squeeze(RemoveTags(StripPrefixes(s)))))
  }

  // --- what tidying up leaves ---

  /** Single plain spaces only, none at either end, and no capitals. */
  ghost predicate Tidy(s: string) {
    && Squeezed(s)
    && (s != "" ==> !IsSpace(s[0]) && !IsSpace(s[|s| - 1]))
    && (forall i :: 0 <= i < |s| ==> Lower(s[i]) == s[i])
  }

  ghost predicate Squeezed(s: string) {
    && (forall i :: 0 <= i < |s| && IsSpace(s[i]) ==> s[i] == ' ')
    && (forall i :: 0 < i < |s| && IsSpace(s[i]) ==> !IsSpace(s[i - 1]))
  }

  lemma {:induction false} SqueezeSqueezed(s: string)
    ensures Squeezed(Squeeze(s)) && |Squeeze(s)| <= |s|
    ensures s != "" ==> Squeeze(s) != "" && (IsSpace(Squeeze(s)[0]) <==> IsSpace(s[0]))
    decreases |s|
  {
    if s != "" {
      var rest := if IsSpace(s[0]) then s[Spaces(s)..] else s[1..];
      SqueezeSqueezed(rest);
      var q := Squeeze(rest);
      assert Squeeze(s) == (if IsSpace(s[0]) then " " else [s[0]]) + q;
      assert forall i :: 0 < i < |Squeeze(s)| ==> Squeeze(s)[i] == q[i - 1];
    }
  }

  lemma {:induction false} SqueezeFixed(s: string)
    requires Squeezed(s)
    ensures Squeeze(s) == s
    decreases |s|
  {
    hide IsSpace;
    if s != "" {
      var t := s[1..];
      assert Squeezed(t) by {
        forall i | 0 < i < |t| && IsSpace(t[i]) ensures !IsSpace(t[i - 1]) {
          assert t[i] == s[i + 1] && t[i - 1] == s[i];
        }
      }
      SqueezeFixed(t);
      assert IsSpace(s[0]) && t != "" ==> !IsSpace(s[1]);
      assert IsSpace(s[0]) ==> Spaces(t) == 0 && Spaces(s) == 1;
    }
  }

  lemma {:induction false} TrimRightTidy(s: string)
    requires Squeezed(s)
    ensures TrimRight(s) <= s && Squeezed(TrimRight(s))
    ensures TrimRight(s) != "" ==> !IsSpace(TrimRight(s)[|TrimRight(s)| - 1])
  {
    if s != "" && IsSpace(s[|s| - 1]) { TrimRightTidy(s[..|s| - 1]); }
  }

  lemma LowerAgain(c: char)
    ensures Lower(Lower(c)) == Lower(c) && (IsSpace(Lower(c)) <==> IsSpace(c)) && (c == ' ' <==> Lower(c) == ' ')
  {
  }

  lemma LowerTidy(t: string)
    requires Squeezed(t) && (t != "" ==> !IsSpace(t[0]) && !IsSpace(t[|t| - 1]))
    ensures Tidy(LowerAll(t))
  {
    forall i | 0 <= i < |t|
      ensures Lower(Lower(t[i])) == Lower(t[i]) && (IsSpace(Lower(t[i])) <==> IsSpace(t[i]))
      ensures (t[i] == ' ' <==> Lower(t[i]) == ' ')
    {
      LowerAgain(t[i]);
    }
    hide IsSpace, Lower;
  }

  lemma NormalizeTidy(s: string)
    ensures Tidy(Normalize(s))
  {
    var q := Squeeze(RemoveTags(StripPrefixes(s)));
    SqueezeSqueezed(RemoveTags(StripPrefixes(s)));
    hide IsSpace, Lower, Squeeze, RemoveTags, StripPrefixes;
    var l := TrimLeft(q);
    assert Squeezed(l);
    TrimRightTidy(l);
    LowerTidy(TrimRight(l));
  }

  lemma TidyFixed(s: string)
    requires Tidy(s)
    ensures LowerAll(Trim(Squeeze(s))) == s
  {
    SqueezeFixed(s);
  }

  lemma {:induction false} StripShrinks(s: string)
    ensures |StripPrefixes(s)| <= |s| && (PrefixLength(s) > 0 ==> |StripPrefixes(s)| < |s|)
    ensures PrefixLength(StripPrefixes(s)) == 0
    decreases |s|
  {
    if PrefixLength(s) > 0 { StripShrinks(s[PrefixLength(s)..]); }
  }

  lemma {:induction false} RemoveShrinks(s: string)
    ensures |RemoveTags(s)| <= |s|
    ensures HasTag(s) ==> |RemoveTags(s)| < |s|
    ensures !HasTag(s) ==> RemoveTags(s) == s
    decreases |s|
  {
    if s != "" {
      if TagAt(s, 0) {
        RemoveShrinks(s[11..]);
      } else {
        RemoveShrinks(s[1..]);
        TagTail(s);
      }
    }
  }

  lemma {:induction false} TrimRightShrinks(s: string)
    ensures |TrimRight(s)| <= |s|
  {
    if s != "" && IsSpace(s[|s| - 1]) { TrimRightShrinks(s[..|s| - 1]); }
  }

  /** A text with a reply prefix or a tag gets shorter. */
  lemma NormalizeShrinks(u: string)
    requires PrefixLength(u) > 0 || HasTag(u)
    ensures |Normalize(u)| < |u|
  {
    StripShrinks(u);
    RemoveShrinks(StripPrefixes(u));
    SqueezeSqueezed(RemoveTags(StripPrefixes(u)));
    TrimRightShrinks(TrimLeft(Squeeze(RemoveTags(StripPrefixes(u)))));
  }

  // --- which patterns survive tidying ---

  lemma SpacesLower(s: string)
    ensures Spaces(LowerAll(s)) == Spaces(s)
  {
    if s != "" && IsSpace(s[0]) {
      assert LowerAll(s)[1..] == LowerAll(s[1..]);
      SpacesLower(s[1..]);
    }
  }

  lemma {:induction false} SqueezeLower(s: string)
    ensures Squeeze(LowerAll(s)) == LowerAll(Squeeze(s))
    decreases |s|
  {
    hide Squeeze, Spaces, IsSpace, Lower;
    if s != "" {
      LowerAgain(s[0]);
      LowerAgain(' ');
      SpacesLower(s);
      var first, n := SqueezeHead(s);
      var first', n' := SqueezeHead(LowerAll(s));
      assert n' == n && first' == LowerAll(first);
      SqueezeLower(s[n..]);
      assert LowerAll(s)[n..] == LowerAll(s[n..]);
      assert LowerAll(first + Squeeze(s[n..])) == LowerAll(first) + LowerAll(Squeeze(s[n..]));
    } else {
      SqueezeEmpty();
    }
  }

  lemma SqueezeEmpty()
    ensures Squeeze("") == "" && LowerAll("") == ""
  {
  }

  /** The first character of a squeezed text, and the part of the text it stands for. */
  lemma SqueezeHead(s: string) returns (first: string, n: nat)
    requires s != ""
    ensures n == (if IsSpace(s[0]) then Spaces(s) else 1) && 0 < n <= |s|
    ensures first == (if IsSpace(s[0]) then " " else [s[0]]) && Squeeze(s) == first + Squeeze(s[n..])
  {
    first, n := if IsSpace(s[0]) then " " else [s[0]], if IsSpace(s[0]) then Spaces(s) else 1;
  }

  lemma {:induction false} TrimRightLower(s: string)
    ensures TrimRight(LowerAll(s)) == LowerAll(TrimRight(s))
  {
    if s != "" && IsSpace(s[|s| - 1]) {
      assert LowerAll(s)[..|s| - 1] == LowerAll(s[..|s| - 1]);
      TrimRightLower(s[..|s| - 1]);
    }
  }

  /** Lowering the case first or last makes no difference. */
  lemma LowerFirst(s: string)
    ensures LowerAll(Trim(Squeeze(s))) == Trim(Squeeze(LowerAll(s)))
  {
    var q := Squeeze(s);
    SqueezeLower(s);
    SpacesLower(q);
    assert LowerAll(q)[Spaces(q)..] == LowerAll(TrimLeft(q));
    TrimRightLower(TrimLeft(q));
  }

  ghost predicate Visible(s: string, k: nat) {
    k <= |s| && forall i :: 0 <= i < k ==> !IsSpace(s[i])
  }

  /** Squeezing does not touch a text up to its first whitespace. */
  lemma {:induction false} SqueezeVisible(s: string, k: nat)
    ensures Visible(s, k) <==> Visible(Squeeze(s), k)
    ensures Visible(s, k) ==> Squeeze(s)[..k] == s[..k]
    decreases k
  {
    if k > 0 && s != "" && !IsSpace(s[0]) {
      SqueezeVisible(s[1..], k - 1);
      var q := Squeeze(s[1..]);
      assert Squeeze(s) == [s[0]] + q;
      VisibleCons(s[0], s[1..], k - 1);
      VisibleCons(s[0], q, k - 1);
      assert s == [s[0]] + s[1..];
      if Visible(s, k) { assert s[..k] == [s[0]] + s[1..][..k - 1]; }
    } else if k > 0 && s != "" {
      assert IsSpace(Squeeze(s)[0]);
    }
  }

  lemma VisibleCons(c: char, s: string, k: nat)
    requires !IsSpace(c)
    ensures Visible([c] + s, k + 1) <==> Visible(s, k)
  {
    var t := [c] + s;
    if Visible(t, k + 1) {
      forall i | 0 <= i < k ensures !IsSpace(s[i]) { assert t[i + 1] == s[i]; }
    }
    if Visible(s, k) {
      forall i | 0 <= i < k + 1 ensures !IsSpace(t[i]) { if i > 0 { assert t[i] == s[i - 1]; } }
    }
  }

  lemma TagAtVisible(s: string, t: string)
    requires Visible(s, 11) ==> Visible(t, 11) && s[..11] == t[..11]
    requires TagAt(s, 0)
    ensures TagAt(t, 0)
  {
    assert forall i :: 0 <= i < 11 ==> !IsSpace(s[i]);
    assert forall i :: 0 <= i < 11 ==> s[..11][i] == t[..11][i];
  }

  lemma {:induction false} TagPastSpaces(s: string, n: nat)
    requires n <= |s| && forall i :: 0 <= i < n ==> IsSpace(s[i])
    ensures HasTag(s[n..]) <==> HasTag(s)
  {
    if n > 0 {
      TagPastSpaces(s[1..], n - 1);
      assert s[1..][n - 1..] == s[n..];
      TagTail(s);
    } else {
      assert s[n..] == s;
    }
  }

  lemma {:induction false} SpacesAreSpaces(s: string)
    ensures forall i :: 0 <= i < Spaces(s) ==> IsSpace(s[i])
  {
    if s != "" && IsSpace(s[0]) {
      SpacesAreSpaces(s[1..]);
      forall i | 0 <= i < Spaces(s) ensures IsSpace(s[i]) { if i > 0 { assert s[i] == s[1..][i - 1]; } }
    }
  }

  /** Squeezing neither makes nor breaks a tag. */
  lemma {:induction false} SqueezeTag(s: string)
    ensures HasTag(Squeeze(s)) <==> HasTag(s)
    decreases |s|
  {
    if s != "" {
      var n := if IsSpace(s[0]) then Spaces(s) else 1;
      SqueezeTag(s[n..]);
      TagTail(Squeeze(s));
      assert Squeeze(s)[1..] == Squeeze(s[n..]);
      if IsSpace(s[0]) {
        SpacesAreSpaces(s);
        TagPastSpaces(s, n);
      } else {
        TagTail(s);
        SqueezeVisible(s, 11);
        if TagAt(s, 0) { TagAtVisible(s, Squeeze(s)); }
        if TagAt(Squeeze(s), 0) { TagAtVisible(Squeeze(s), s); }
      }
    }
  }

  lemma {:induction false} TrimRightTag(s: string)
    ensures HasTag(TrimRight(s)) <==> HasTag(s)
  {
    if s != "" && IsSpace(s[|s| - 1]) {
      var t := s[..|s| - 1];
      TrimRightTag(t);
      if HasTag(s) {
        var i :| TagAt(s, i);
        assert TagAt(t, i);
      }
      if HasTag(t) {
        var i :| TagAt(t, i);
        assert TagAt(s, i);
      }
    }
  }

  lemma {:induction false} TrimRightVisible(s: string, k: nat)
    ensures Visible(s, k) <==> Visible(TrimRight(s), k)
    ensures Visible(s, k) ==> TrimRight(s)[..k] == s[..k]
  {
    if s != "" && IsSpace(s[|s| - 1]) {
      TrimRightVisible(s[..|s| - 1], k);
      assert Visible(s, k) ==> k < |s|;
    }
  }

  lemma KeywordVisible(s: string, t: string)
    requires forall k: nat :: Visible(s, k) ==> Visible(t, k) && s[..k] == t[..k]
    ensures KeywordLength(s) > 0 ==> KeywordLength(t) > 0
  {
    if KeywordLength(s) > 0 {
      assert Visible(s, 2);
      assert s[..2][0] == s[0] && s[..2][1] == s[1] && t[..2][0] == t[0] && t[..2][1] == t[1];
    }
  }

  lemma SqueezeTrimLeft(s: string)
    ensures TrimLeft(Squeeze(s)) == Squeeze(TrimLeft(s))
  {
    if s != "" && IsSpace(s[0]) {
      var rest := s[Spaces(s)..];
      assert Squeeze(s) == " " + Squeeze(rest);
      if rest != "" { assert !IsSpace(Squeeze(rest)[0]); }
      assert Spaces(Squeeze(s)) == 1;
    }
  }

  /** What is left of a subject, in lower case, once its leading prefixes and then its tags are taken out. */
  function Leftover(s: string): string { LowerAll(RemoveTags(StripPrefixes(s))) }

  lemma NormalizeLeftover(s: string)
    ensures Normalize(s) == Trim(Squeeze(Leftover(s)))
    ensures KeywordLength(Normalize(s)) > 0 <==> KeywordLength(TrimLeft(Leftover(s))) > 0
    ensures HasTag(Normalize(s)) <==> HasTag(Leftover(s))
  {
    LowerFirst(RemoveTags(StripPrefixes(s)));
    var l := Leftover(s);
    var q := Squeeze(l);
    SqueezeTag(l);
    SpacesAreSpaces(q);
    TagPastSpaces(q, Spaces(q));
    TrimRightTag(TrimLeft(q));
    SqueezeTrimLeft(l);
    var head, out := TrimLeft(l), Normalize(s);
    forall k: nat
      ensures Visible(head, k) <==> Visible(out, k)
      ensures Visible(head, k) ==> out[..k] == head[..k]
    {
      SqueezeVisible(head, k);
      TrimRightVisible(TrimLeft(q), k);
    }
    hide *;
    KeywordVisible(head, out);
    KeywordVisible(out, head);
  }

  // --- stripping prefixes does not look past the text into the suffix ---

  lemma {:induction false} SpacesSuffix(s: string, suf: string)
    requires |suf| >= 2 && IsSpace(suf[0]) && !IsSpace(suf[1])
    ensures Spaces(s) < |s| ==> Spaces(s + suf) == Spaces(s)
    ensures Spaces(s) == |s| ==> Spaces(s + suf) == |s| + 1
  {
    if s == "" {
      assert s + suf == suf && Spaces(suf[1..]) == 0;
    } else if IsSpace(s[0]) {
      assert (s + suf)[1..] == s[1..] + suf;
      SpacesSuffix(s[1..], suf);
    }
  }

  lemma SeparatorSuffix(s: string, suf: string)
    requires |suf| >= 2 && suf[0] == ' ' && suf[1] == '['
    ensures Separator(s) < |s| ==> Separator(s + suf) == Separator(s)
    ensures Separator(s) == |s| ==> Separator(s + suf) == |s| + 1
  {
    SpacesSuffix(s, suf);
    var a := Spaces(s);
    if a < |s| && s[a] == ':' {
      SpacesSuffix(s[a + 1..], suf);
      assert (s + suf)[a + 1..] == s[a + 1..] + suf;
    }
  }

  lemma KeywordSuffix(s: string, suf: string)
    requires |suf| >= 2 && suf[0] == ' ' && suf[1] == '['
    ensures KeywordLength(s + suf) == KeywordLength(s) <= |s| && KeywordLength(suf[1..]) == 0
  {
    hide IsSpace;
    assert forall i :: 0 <= i < |s| ==> (s + suf)[i] == s[i];
    assert (s + suf)[|s|] == ' ';
    if |s| < 2 { assert (s + suf)[|s| + 1] == '['; }
  }

  lemma PrefixSuffix(s: string, suf: string)
    requires |suf| >= 2 && suf[0] == ' ' && suf[1] == '['
    ensures PrefixLength(s) < |s| ==> PrefixLength(s + suf) == PrefixLength(s)
    ensures s != "" && PrefixLength(s) == |s| ==> PrefixLength(s + suf) == |s| + 1
    ensures s == "" ==> PrefixLength(s + suf) == 0
    ensures PrefixLength(suf[1..]) == 0
  {
    KeywordSuffix(s, suf);
    hide KeywordLength, Separator;
    var k := KeywordLength(s);
    if k > 0 {
      assert (s + suf)[k..] == s[k..] + suf;
      SeparatorSuffix(s[k..], suf);
    }
  }

  lemma StripOnce(s: string)
    ensures PrefixLength(s) == 0 ==> StripPrefixes(s) == s
    ensures PrefixLength(s) > 0 ==> StripPrefixes(s) == StripPrefixes(s[PrefixLength(s)..])
  {
  }

  /** Stripping leaves the suffix in place, or eats only its leading space when nothing is left before it. */
  lemma {:induction false} StripSuffix(s: string, suf: string)
    requires |suf| >= 2 && suf[0] == ' ' && suf[1] == '['
    ensures || StripPrefixes(s + suf) == StripPrefixes(s) + suf
            || (StripPrefixes(s) == "" && StripPrefixes(s + suf) == suf[1..])
    decreases |s|
  {
    hide PrefixLength, StripPrefixes;
    PrefixSuffix(s, suf);
    StripOnce(s);
    StripOnce(s + suf);
    var n := PrefixLength(s);
    if s != "" && n == |s| {
      assert (s + suf)[|s| + 1..] == suf[1..];
      StripOnce(suf[1..]);
      assert s[n..] == "";
      NothingStripped();
    } else if n > 0 {
      assert (s + suf)[n..] == s[n..] + suf;
      StripSuffix(s[n..], suf);
    }
  }

  lemma NothingStripped()
    ensures StripPrefixes("") == ""
  {
  }

  lemma {:induction false} SqueezeTrailingSpace(r: string)
    ensures Squeeze(r + " ") == if r != "" && IsSpace(r[|r| - 1]) then Squeeze(r) else Squeeze(r) + " "
    decreases |r|
  {
    hide Squeeze, Spaces, IsSpace;
    if Spaces(r) == |r| {
      AllSpacesAnd(r);
      SqueezeSpaces(r + " ");
      SqueezeSpaces(r);
      if r != "" { AllSpaces(r); }
    } else {
      var first, n := SqueezeStep(r, " ");
      SqueezeTrailingSpace(r[n..]);
      assert n < |r| ==> r[n..][|r| - n - 1] == r[|r| - 1];
    }
  }

  lemma SqueezeSpaces(r: string)
    requires Spaces(r) == |r|
    ensures Squeeze(r) == if r == "" then "" else " "
  {
  }

  /** Squeezing reads off one character for the first run of white space or the first other character. */
  lemma SqueezeStep(r: string, more: string) returns (first: string, n: nat)
    requires Spaces(r) < |r|
    ensures 0 < n <= |r| && (n == |r| ==> !IsSpace(r[|r| - 1]))
    ensures Squeeze(r) == first + Squeeze(r[n..])
    ensures Squeeze(r + more) == first + Squeeze(r[n..] + more)
  {
    first, n := if IsSpace(r[0]) then " " else [r[0]], if IsSpace(r[0]) then Spaces(r) else 1;
    SpacesBefore(r, more);
    hide Spaces;
    assert (r + more)[0] == r[0];
    assert (r + more)[n..] == r[n..] + more;
  }

  lemma {:induction false} SpacesBefore(r: string, more: string)
    requires Spaces(r) < |r|
    ensures Spaces(r + more) == Spaces(r)
  {
    if IsSpace(r[0]) {
      assert (r + more)[1..] == r[1..] + more;
      SpacesBefore(r[1..], more);
    }
  }

  lemma {:induction false} AllSpacesAnd(r: string)
    requires Spaces(r) == |r|
    ensures Spaces(r + " ") == |r| + 1
  {
    if r == "" {
      assert r + " " == " ";
    } else {
      assert (r + " ")[1..] == r[1..] + " ";
      AllSpacesAnd(r[1..]);
    }
  }

  lemma {:induction false} AllSpaces(r: string)
    requires Spaces(r) == |r| && r != ""
    ensures IsSpace(r[|r| - 1])
  {
    if |r| > 1 { AllSpaces(r[1..]); }
  }

  lemma TrimSpace(q: string)
    ensures Trim(q + " ") == Trim(q)
  {
    if Spaces(q) == |q| {
      AllSpacesAnd(q);
      assert TrimLeft(q + " ") == "" && TrimLeft(q) == "";
    } else {
      SpacesBefore(q, " ");
      var l := TrimLeft(q);
      assert TrimLeft(q + " ") == l + " ";
      hide TrimLeft, Spaces;
      assert (l + " ")[..|l|] == l && (l + " ")[|l|] == ' ';
    }
  }

  lemma TrailingSpaceTrimmed(r: string)
    ensures Trim(Squeeze(r + " ")) == Trim(Squeeze(r))
  {
    SqueezeTrailingSpace(r);
    TrimSpace(Squeeze(r));
  }

  lemma {:induction false} StripUntagged(s: string)
    requires !HasTag(s)
    ensures !HasTag(StripPrefixes(s))
    decreases |s|
  {
    var n := PrefixLength(s);
    if n > 0 {
      if HasTag(s[n..]) { TagDrop(s, n); }
      StripUntagged(s[n..]);
    }
  }
}
