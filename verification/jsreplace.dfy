/** JavaScript's `String.prototype.replace` as the runtime actually performs it. The
    replacement string is not inserted literally: it is read as a substitution
    template (GetSubstitution, section 22.1.3.19.1 of ECMAScript 2023), in which `$$`,
    `$&`, `` $` `` and `$'` stand for a dollar sign, the match, the text before the
    match and the text after it. The patterns used here have no capture groups, so
    every other `$` is kept as written.

    The planner uses the literal operations of module Strings. This module keeps the
    as-written behaviour so that the difference can be stated and bounded. */
module JsReplace {
  import opened Wrappers
  import opened Strings

  /** The text one match of length `len` at `pos` in `s` is replaced with, when the
      replacement template is `rep`. */
  function Expand(rep: string, s: string, pos: nat, len: nat): string
    requires pos + len <= |s|
    decreases |rep|
  {
    if |rep| == 0 then ""
    else if rep[0] == '$' && |rep| >= 2 && rep[1] == '$' then "$" + Expand(rep[2..], s, pos, len)
    else if rep[0] == '$' && |rep| >= 2 && rep[1] == '&' then s[pos..pos + len] + Expand(rep[2..], s, pos, len)
    else if rep[0] == '$' && |rep| >= 2 && rep[1] == '`' then s[..pos] + Expand(rep[2..], s, pos, len)
    else if rep[0] == '$' && |rep| >= 2 && rep[1] == '\'' then s[pos + len..] + Expand(rep[2..], s, pos, len)
    else [rep[0]] + Expand(rep[1..], s, pos, len)
  }

  /** A template without a dollar sign is inserted as it is. */
  lemma {:induction false} ExpandPlain(rep: string, s: string, pos: nat, len: nat)
    requires pos + len <= |s|
    requires '$' !in rep
    ensures Expand(rep, s, pos, len) == rep
    decreases |rep|
  {
    if |rep| > 0 {
      assert rep[0] != '$';
      ExpandPlain(rep[1..], s, pos, len);
      assert rep == [rep[0]] + rep[1..];
    }
  }

  /** `replace` with a global pattern, from index `i` of `s` on; matches are
      expanded against the whole of `s`, as the runtime does. */
  function ReplaceAllFrom(s: string, pat: string, rep: string, i: nat): string
    requires |pat| > 0 && i <= |s|
    decreases |s| - i
  {
    if |s| - i < |pat| then s[i..]
    else if s[i..i + |pat|] == pat then Expand(rep, s, i, |pat|) + ReplaceAllFrom(s, pat, rep, i + |pat|)
    else [s[i]] + ReplaceAllFrom(s, pat, rep, i + 1)
  }

  /** `s.replace(new RegExp(pat, 'g'), rep)` for a pattern that matches `pat` literally. */
  function ReplaceAll(s: string, pat: string, rep: string): string
    requires |pat| > 0
  {
    ReplaceAllFrom(s, pat, rep, 0)
  }

  /** `s.replace(pat, rep)` with a string pattern: the first occurrence only. */
  function ReplaceFirst(s: string, pat: string, rep: string): string {
    match IndexOf(s, pat)
    case None => s
    case Some(i) => s[..i] + Expand(rep, s, i, |pat|) + s[i + |pat|..]
  }

  lemma {:induction false} ReplaceAllFromPlain(s: string, pat: string, rep: string, i: nat)
    requires |pat| > 0 && i <= |s|
    requires '$' !in rep
    ensures ReplaceAllFrom(s, pat, rep, i) == Strings.ReplaceAll(s[i..], pat, rep)
    decreases |s| - i
  {
    if |s| - i < |pat| {
      PlainShort(s, pat, rep, i);
    } else if OccursAt(s, pat, i) {
      ReplaceAllFromPlain(s, pat, rep, i + |pat|);
      PlainMatchStep(s, pat, rep, i);
    } else {
      ReplaceAllFromPlain(s, pat, rep, i + 1);
      PlainSkipStep(s, pat, rep, i);
    }
  }

  lemma PlainShort(s: string, pat: string, rep: string, i: nat)
    requires |pat| > 0 && i <= |s| && |s| - i < |pat|
    ensures ReplaceAllFrom(s, pat, rep, i) == Strings.ReplaceAll(s[i..], pat, rep)
  {
  }

  lemma PlainMatchStep(s: string, pat: string, rep: string, i: nat)
    requires |pat| > 0 && OccursAt(s, pat, i)
    requires '$' !in rep
    requires ReplaceAllFrom(s, pat, rep, i + |pat|) == Strings.ReplaceAll(s[i + |pat|..], pat, rep)
    ensures ReplaceAllFrom(s, pat, rep, i) == Strings.ReplaceAll(s[i..], pat, rep)
  {
    var t := s[i..];
    assert t[0..|pat|] == s[i..i + |pat|];
    ExpandPlain(rep, s, i, |pat|);
    ReplaceAllAtStart(t, pat, rep);
    assert t[|pat|..] == s[i + |pat|..];
  }

  lemma PlainSkipStep(s: string, pat: string, rep: string, i: nat)
    requires |pat| > 0 && i + |pat| <= |s| && !OccursAt(s, pat, i)
    requires ReplaceAllFrom(s, pat, rep, i + 1) == Strings.ReplaceAll(s[i + 1..], pat, rep)
    ensures ReplaceAllFrom(s, pat, rep, i) == Strings.ReplaceAll(s[i..], pat, rep)
  {
    var t := s[i..];
    assert t[0..|pat|] == s[i..i + |pat|];
    ReplaceAllSkipsFirst(t, pat, rep);
    assert t[1..] == s[i + 1..];
  }

  /** Without a dollar sign in the replacement, the runtime's replace-all is the
      literal one. */
  lemma ReplaceAllPlain(s: string, pat: string, rep: string)
    requires |pat| > 0
    requires '$' !in rep
    ensures ReplaceAll(s, pat, rep) == Strings.ReplaceAll(s, pat, rep)
  {
    ReplaceAllFromPlain(s, pat, rep, 0);
    assert s[0..] == s;
  }

  /** Without a dollar sign in the replacement, the runtime's first-occurrence
      replace is the literal one. */
  lemma ReplaceFirstPlain(s: string, pat: string, rep: string)
    requires '$' !in rep
    ensures ReplaceFirst(s, pat, rep) == Strings.ReplaceFirst(s, pat, rep)
  {
    match IndexOf(s, pat)
    case None =>
    case Some(i) => ExpandPlain(rep, s, i, |pat|);
  }
}
