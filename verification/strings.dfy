/** Literal string operations the model is built from: searching for a pattern,
    replacing its occurrences with a literal replacement, splitting and joining,
    decimal rendering of numbers and ASCII lower-casing. */
module Strings {
  import opened Wrappers

  /** `pat` occurs in `s` starting at index `i`. */
  predicate OccursAt(s: string, pat: string, i: nat) {
    i + |pat| <= |s| && s[i..i + |pat|] == pat
  }

  /** The first occurrence of `pat` in `s` at or after `from` (JavaScript `indexOf`). */
  function IndexOfFrom(s: string, pat: string, from: nat): (r: Option<nat>)
    requires from <= |s|
    ensures r.Some? ==> from <= r.value && OccursAt(s, pat, r.value)
    ensures r.Some? ==> forall j :: from <= j < r.value ==> !OccursAt(s, pat, j)
    ensures r.None? ==> forall j :: from <= j ==> !OccursAt(s, pat, j)
    decreases |s| - from
  {
    if OccursAt(s, pat, from) then Some(from)
    else if from == |s| then None
    else IndexOfFrom(s, pat, from + 1)
  }

  function IndexOf(s: string, pat: string): Option<nat> {
    IndexOfFrom(s, pat, 0)
  }

  /** `pat` occurs somewhere in `s` (JavaScript `includes`). */
  predicate Contains(s: string, pat: string) {
    IndexOf(s, pat).Some?
  }

  lemma ContainsIff(s: string, pat: string)
    ensures Contains(s, pat) <==> exists i: nat :: OccursAt(s, pat, i)
  {
  }

  /** An occurrence with no earlier one is the one `IndexOf` finds. */
  lemma IndexOfIsFirst(s: string, pat: string, i: nat)
    requires OccursAt(s, pat, i)
    requires forall j :: 0 <= j < i ==> !OccursAt(s, pat, j)
    ensures IndexOf(s, pat) == Some(i)
  {
  }

  /** Every occurrence of the non-empty `pat` replaced by `rep`, scanning left to
      right and resuming after each match: the behaviour of `replace` with a global
      pattern when the replacement is inserted literally. */
  function ReplaceAll(s: string, pat: string, rep: string): string
    requires |pat| > 0
    decreases |s|
  {
    if |s| < |pat| then s
    else if s[..|pat|] == pat then rep + ReplaceAll(s[|pat|..], pat, rep)
    else [s[0]] + ReplaceAll(s[1..], pat, rep)
  }

  /** The first occurrence of `pat` replaced by `rep` (`replace` with a string
      pattern, the replacement inserted literally). */
  function ReplaceFirst(s: string, pat: string, rep: string): (r: string)
    ensures !Contains(s, pat) ==> r == s
  {
    match IndexOf(s, pat)
    case None => s
    case Some(i) => s[..i] + rep + s[i + |pat|..]
  }

  /** `s` cut at every occurrence of `sep`, leftmost first (JavaScript `split`). */
  function Split(s: string, sep: string): (parts: seq<string>)
    requires |sep| > 0
    ensures |parts| >= 1
    decreases |s|
  {
    match IndexOf(s, sep)
    case None => [s]
    case Some(i) => [s[..i]] + Split(s[i + |sep|..], sep)
  }

  /** The parts with `sep` between neighbours (JavaScript `join`). */
  function Join(parts: seq<string>, sep: string): string
    decreases |parts|
  {
    if |parts| == 0 then ""
    else if |parts| == 1 then parts[0]
    else parts[0] + sep + Join(parts[1..], sep)
  }

  /** Replacement leaves the text before the first occurrence untouched. */
  lemma {:induction false} ReplaceAllSkipsPrefix(s: string, pat: string, rep: string, i: nat)
    requires |pat| > 0 && i <= |s|
    requires forall j :: 0 <= j < i ==> !OccursAt(s, pat, j)
    ensures ReplaceAll(s, pat, rep) == s[..i] + ReplaceAll(s[i..], pat, rep)
    decreases i
  {
    if i > 0 && |s| < |pat| {
      ReplaceAllShort(s, pat, rep, i);
    } else if i > 0 {
      NoOccurrenceInTail(s, pat, i);
      ReplaceAllSkipsPrefix(s[1..], pat, rep, i - 1);
      SkipsPrefixStep(s, pat, rep, i);
    }
  }

  /** A text shorter than the pattern is kept whole, and so is each of its suffixes. */
  lemma ReplaceAllShort(s: string, pat: string, rep: string, i: nat)
    requires |pat| > 0 && i <= |s| < |pat|
    ensures ReplaceAll(s, pat, rep) == s[..i] + ReplaceAll(s[i..], pat, rep)
  {
    assert |s[i..]| < |pat|;
    assert s[..i] + s[i..] == s;
  }

  /** No occurrence before `i` in `s` means none before `i - 1` in its tail. */
  lemma NoOccurrenceInTail(s: string, pat: string, i: nat)
    requires 0 < i <= |s|
    requires forall j :: 0 <= j < i ==> !OccursAt(s, pat, j)
    ensures forall j :: 0 <= j < i - 1 ==> !OccursAt(s[1..], pat, j)
  {
    forall j | 0 <= j < i - 1
      ensures !OccursAt(s[1..], pat, j)
    {
      assert !OccursAt(s, pat, j + 1);
      if j + |pat| <= |s| - 1 {
        assert s[1..][j..j + |pat|] == s[j + 1..j + 1 + |pat|];
      }
    }
  }

  lemma SkipsPrefixStep(s: string, pat: string, rep: string, i: nat)
    requires |pat| > 0 && 0 < i <= |s| && |pat| <= |s| && !OccursAt(s, pat, 0)
    requires ReplaceAll(s[1..], pat, rep) == s[1..][..i - 1] + ReplaceAll(s[1..][i - 1..], pat, rep)
    ensures ReplaceAll(s, pat, rep) == s[..i] + ReplaceAll(s[i..], pat, rep)
  {
    ReplaceAllSkipsFirst(s, pat, rep);
    assert s[1..][i - 1..] == s[i..];
    assert [s[0]] + s[1..][..i - 1] == s[..i];
    AppendAssoc([s[0]], s[..i][1..], ReplaceAll(s[i..], pat, rep));
  }

  /** The character scan and the split/join formulation agree: every occurrence,
      taken leftmost first without overlaps, is replaced, and nothing else changes. */
  lemma {:induction false} ReplaceAllIsSplitJoin(s: string, pat: string, rep: string)
    requires |pat| > 0
    ensures ReplaceAll(s, pat, rep) == Join(Split(s, pat), rep)
    decreases |s|
  {
    var r := IndexOf(s, pat);
    if r.None? {
      ReplaceAllSkipsPrefix(s, pat, rep, |s|);
      assert s[..|s|] == s;
    } else {
      var i := r.value;
      ReplaceAllIsSplitJoin(s[i + |pat|..], pat, rep);
      ReplaceAllSplitStep(s, pat, rep, i);
    }
  }

  /** One step of the agreement: the text before the first match, the replacement,
      then the rest handled alike. */
  lemma ReplaceAllSplitStep(s: string, pat: string, rep: string, i: nat)
    requires |pat| > 0 && IndexOf(s, pat) == Some(i)
    requires ReplaceAll(s[i + |pat|..], pat, rep) == Join(Split(s[i + |pat|..], pat), rep)
    ensures ReplaceAll(s, pat, rep) == Join(Split(s, pat), rep)
  {
    var rest := s[i + |pat|..];
    assert Split(s, pat) == [s[..i]] + Split(rest, pat);
    ReplaceAllSkipsPrefix(s, pat, rep, i);
    ReplaceFromMatch(s, pat, rep, i);
    JoinCons(s[..i], Split(rest, pat), rep);
    AppendAssoc(s[..i], rep, ReplaceAll(rest, pat, rep));
  }

  /** The text from an occurrence on: the replacement, then the rest rewritten. */
  lemma ReplaceFromMatch(s: string, pat: string, rep: string, i: nat)
    requires |pat| > 0 && OccursAt(s, pat, i)
    ensures ReplaceAll(s[i..], pat, rep) == rep + ReplaceAll(s[i + |pat|..], pat, rep)
  {
    assert s[i..][0..|pat|] == s[i..i + |pat|];
    ReplaceAllAtStart(s[i..], pat, rep);
    assert s[i..][|pat|..] == s[i + |pat|..];
  }

  /** A text starting with the pattern is rewritten from there on. */
  lemma ReplaceAllAtStart(s: string, pat: string, rep: string)
    requires |pat| > 0 && OccursAt(s, pat, 0)
    ensures ReplaceAll(s, pat, rep) == rep + ReplaceAll(s[|pat|..], pat, rep)
  {
    assert s[..|pat|] == s[0..|pat|];
  }

  /** A text not starting with the pattern keeps its first character. */
  lemma ReplaceAllSkipsFirst(s: string, pat: string, rep: string)
    requires |pat| > 0 && |s| >= |pat| && !OccursAt(s, pat, 0)
    ensures ReplaceAll(s, pat, rep) == [s[0]] + ReplaceAll(s[1..], pat, rep)
  {
    assert s[..|pat|] == s[0..|pat|];
  }

  /** Concatenation regrouped; stated once for any element type, which spares the
      solver element-wise reasoning about nested sequences. */
  lemma AppendAssoc<T>(a: seq<T>, b: seq<T>, c: seq<T>)
    ensures a + b + c == a + (b + c)
  {
  }

  /** A slice inside the first part of a concatenation. */
  lemma SliceOfPrefix<T>(a: seq<T>, b: seq<T>, i: nat, j: nat)
    requires i <= j <= |a|
    ensures (a + b)[i..j] == a[i..j]
  {
  }

  /** Joining a list with a first part in front. */
  /** An occurrence in `b` is one in `a + b`, `|a|` further on. */
  lemma OccursAfter(a: string, b: string, p: string, i: nat)
    requires OccursAt(b, p, i)
    ensures OccursAt(a + b, p, |a| + i)
  {
    assert (a + b)[|a| + i..|a| + i + |p|] == b[i..i + |p|];
  }

  /** An occurrence in `a` is one in `a + b` at the same place. */
  lemma OccursBefore(a: string, b: string, p: string, i: nat)
    requires OccursAt(a, p, i)
    ensures OccursAt(a + b, p, i)
  {
    assert (a + b)[i..i + |p|] == a[i..i + |p|];
  }

  /** Every part occurs, whole, in the joined text. */
  lemma {:induction false} JoinHasPart(parts: seq<string>, sep: string, k: nat) returns (i: nat)
    requires k < |parts|
    ensures OccursAt(Join(parts, sep), parts[k], i)
    decreases |parts|
  {
    if |parts| == 1 {
      i := 0;
      assert parts[0][..|parts[0]|] == parts[0];
    } else if k == 0 {
      i := 0;
      assert parts[0][..|parts[0]|] == parts[0];
      OccursBefore(parts[0], sep + Join(parts[1..], sep), parts[0], 0);
      AppendAssoc(parts[0], sep, Join(parts[1..], sep));
    } else {
      var j := JoinHasPart(parts[1..], sep, k - 1);
      OccursAfter(parts[0] + sep, Join(parts[1..], sep), parts[k], j);
      i := |parts[0] + sep| + j;
    }
  }

  /** Joining one more part puts the separator before it. */
  lemma {:induction false} JoinSnoc(parts: seq<string>, x: string, sep: string)
    requires |parts| >= 1
    ensures Join(parts + [x], sep) == Join(parts, sep) + sep + x
    decreases |parts|
  {
    if |parts| == 1 {
      assert (parts + [x])[1..] == [x];
    } else {
      assert (parts + [x])[1..] == parts[1..] + [x];
      JoinSnoc(parts[1..], x, sep);
      var a, b := parts[0] + sep, Join(parts[1..], sep);
      AppendAssoc(a, b + sep, x);
      AppendAssoc(a, b, sep);
    }
  }

  lemma JoinCons(a: string, parts: seq<string>, sep: string)
    requires |parts| >= 1
    ensures Join([a] + parts, sep) == a + sep + Join(parts, sep)
  {
    assert ([a] + parts)[1..] == parts;
  }

  /** Joining the pieces of a split with the separator gives back the original. */
  lemma {:induction false} JoinSplit(s: string, sep: string)
    requires |sep| > 0
    ensures Join(Split(s, sep), sep) == s
    decreases |s|
  {
    var r := IndexOf(s, sep);
    if r.Some? {
      var i := r.value;
      assert i + |sep| <= |s|;
      JoinSplit(s[i + |sep|..], sep);
      JoinSplitStep(s, sep, i);
    } else {
      assert Split(s, sep) == [s];
    }
  }

  lemma JoinSplitStep(s: string, sep: string, i: nat)
    requires |sep| > 0
    requires IndexOf(s, sep) == Some(i)
    requires Join(Split(s[i + |sep|..], sep), sep) == s[i + |sep|..]
    ensures Join(Split(s, sep), sep) == s
  {
    var rest := s[i + |sep|..];
    JoinCons(s[..i], Split(rest, sep), sep);
    assert s == s[..i] + s[i..i + |sep|] + rest;
  }

  /** Splitting at a one-character separator undoes a join whose parts do not
      contain that character. */
  lemma {:induction false} SplitJoin(parts: seq<string>, sep: string)
    requires |sep| == 1 && |parts| >= 1
    requires forall k :: 0 <= k < |parts| ==> sep[0] !in parts[k]
    ensures Split(Join(parts, sep), sep) == parts
    decreases |parts|
  {
    var a := parts[0];
    if |parts| == 1 {
      SplitWithoutSep(a, sep);
    } else {
      var rest := parts[1..];
      assert parts == [a] + rest;
      JoinCons(a, rest, sep);
      SplitAtFirst(a, sep, Join(rest, sep));
      SplitJoin(rest, sep);
    }
  }

  lemma SplitWithoutSep(a: string, sep: string)
    requires |sep| == 1 && sep[0] !in a
    ensures Split(a, sep) == [a]
  {
    forall j: nat
      ensures !OccursAt(a, sep, j)
    {
      if j + 1 <= |a| {
        assert a[j..j + 1][0] == a[j];
      }
    }
    assert IndexOf(a, sep).None?;
  }

  lemma SplitAtFirst(a: string, sep: string, rest: string)
    requires |sep| == 1 && sep[0] !in a
    ensures Split(a + sep + rest, sep) == [a] + Split(rest, sep)
  {
    var s := a + sep + rest;
    assert s[|a|..|a| + 1] == sep;
    forall j | 0 <= j < |a|
      ensures !OccursAt(s, sep, j)
    {
      assert s[j] == a[j];
    }
    IndexOfIsFirst(s, sep, |a|);
    assert s[..|a|] == a;
    assert s[|a| + 1..] == rest;
  }

  /** The decimal digit `d`. */
  function DigitChar(d: nat): (c: char)
    requires d < 10
    ensures '0' <= c <= '9' && c as int - '0' as int == d
  {
    (('0' as int) + d) as char
  }

  predicate IsDigits(s: string) {
    forall k :: 0 <= k < |s| ==> '0' <= s[k] <= '9'
  }

  /** The decimal rendering of `n`, as a JavaScript template literal prints it. */
  function NatToString(n: nat): (r: string)
    ensures |r| >= 1 && IsDigits(r)
    ensures r[0] == '0' ==> n == 0
    decreases n
  {
    if n < 10 then [DigitChar(n)] else NatToString(n / 10) + [DigitChar(n % 10)]
  }

  /** The value of a decimal numeral. */
  function ParseNat(s: string): nat
    requires IsDigits(s)
    decreases |s|
  {
    if |s| == 0 then 0
    else ParseNat(s[..|s| - 1]) * 10 + (s[|s| - 1] as int - '0' as int)
  }

  /** Rendering is injective: reading the numeral back gives the number. */
  lemma {:induction false} ParseNatToString(n: nat)
    ensures ParseNat(NatToString(n)) == n
    decreases n
  {
    var r := NatToString(n);
    if n >= 10 {
      ParseNatToString(n / 10);
      assert r[..|r| - 1] == NatToString(n / 10);
    }
  }

  /** The decimal rendering of an integer, with a leading minus sign when negative. */
  function IntToString(i: int): (r: string)
    ensures |r| >= 1
    ensures i < 0 <==> r[0] == '-'
    ensures var digits := r[(if i < 0 then 1 else 0)..];
            IsDigits(digits) && ParseNat(digits) == (if i < 0 then -i else i)
  {
    if i < 0 then
      var digits := NatToString(-i);
      ParseNatToString(-i);
      assert ("-" + digits)[1..] == digits;
      "-" + digits
    else
      ParseNatToString(i);
      NatToString(i)
  }

  /** Lower-casing of one character. Besides `A`-`Z`, the Kelvin sign is the only
      code point whose lower-case form is a single ASCII letter. */
  function LowerChar(c: char): char {
    if 'A' <= c <= 'Z' then (c as int + 32) as char
    else if c == '\U{212A}' then 'k'
    else c
  }

  /** `toLowerCase`, character by character. */
  function ToLower(s: string): (r: string)
    ensures |r| == |s|
    ensures forall k :: 0 <= k < |s| ==> r[k] == LowerChar(s[k])
  {
    seq(|s|, k requires 0 <= k < |s| => LowerChar(s[k]))
  }
}
