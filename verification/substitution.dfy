/** Placeholder substitution: every `{{name}}` token of a declared parameter is
    replaced in the instructions by the value bound to it, its default, or "", one
    parameter at a time in declaration order. The planner and every executor run this
    same loop. */
module Substitution {
  import opened Wrappers
  import opened Strings
  import opened Types
  import JsReplace

  /** The values a run supplies for parameters, by name. */
  type Bindings = map<string, string>

  /** The placeholder of parameter `name`. */
  function Token(name: string): (t: string)
    ensures |t| == |name| + 4
    ensures t[0] == '{' && t[1] == '{' && t[|t| - 2] == '}' && t[|t| - 1] == '}'
    ensures t[2..|t| - 2] == name
  {
    "{{" + name + "}}"
  }

  /** A name with no character a regular expression would read as syntax, so that
      the pattern built from it matches the token literally. */
  predicate PlainName(name: string) {
    forall k :: 0 <= k < |name| ==> !RegexSyntax(name[k])
  }

  /** The characters `\^$.|?*+()[]{}` that are syntax in a regular expression. */
  predicate RegexSyntax(c: char) {
    c == '\\' || c == '^' || c == '$' || c == '.' || c == '|' || c == '?' || c == '*' || c == '+'
    || c == '(' || c == ')' || c == '[' || c == ']' || c == '{' || c == '}'
  }

  predicate PlainParams(ps: seq<TaskParam>) {
    forall k :: 0 <= k < |ps| ==> PlainName(ps[k].name)
  }

  /** `paramValues[name] || param.value || ''`: a non-empty binding wins, then a
      non-empty default, then the empty string. */
  function ResolveValue(p: TaskParam, bindings: Bindings): (v: string)
    ensures p.name in bindings && bindings[p.name] != "" ==> v == bindings[p.name]
    ensures (p.name !in bindings || bindings[p.name] == "") && p.value.Some? ==> v == p.value.value
    ensures v == "" <==> (p.name !in bindings || bindings[p.name] == "") && (p.value.None? || p.value.value == "")
  {
    if p.name in bindings && bindings[p.name] != "" then bindings[p.name]
    else if p.value.Some? && p.value.value != "" then p.value.value
    else ""
  }

  /** The substitution loop, with each value inserted literally. */
  function Substitute(instructions: string, params: seq<TaskParam>, bindings: Bindings): string
    requires PlainParams(params)
    decreases |params|
  {
    if |params| == 0 then instructions
    else
      var p := params[0];
      Substitute(ReplaceAll(instructions, Token(p.name), ResolveValue(p, bindings)), params[1..], bindings)
  }

  /** The substitution loop as written: each value is passed to `replace` as a
      replacement template, so `$&`, `$'`, `` $` `` and `$$` in it are expanded. */
  function SubstituteAsWritten(instructions: string, params: seq<TaskParam>, bindings: Bindings): string
    requires PlainParams(params)
    decreases |params|
  {
    if |params| == 0 then instructions
    else
      var p := params[0];
      SubstituteAsWritten(JsReplace.ReplaceAll(instructions, Token(p.name), ResolveValue(p, bindings)), params[1..], bindings)
  }

  /** One declared parameter: the instructions are cut at every occurrence of its
      token and re-joined with its resolved value, so every occurrence is replaced
      and all other text is kept. */
  lemma SubstituteOne(s: string, p: TaskParam, bindings: Bindings)
    requires PlainName(p.name)
    ensures Substitute(s, [p], bindings) == Join(Split(s, Token(p.name)), ResolveValue(p, bindings))
  {
    assert [p][1..] == [];
    ReplaceAllIsSplitJoin(s, Token(p.name), ResolveValue(p, bindings));
  }

  /** Parameters are processed in declaration order: the last one declared is
      replaced last, in the text the earlier ones produced. */
  lemma {:induction false} SubstituteLast(s: string, ps: seq<TaskParam>, p: TaskParam, bindings: Bindings)
    requires PlainParams(ps) && PlainName(p.name)
    ensures PlainParams(ps + [p])
    ensures Substitute(s, ps + [p], bindings)
         == ReplaceAll(Substitute(s, ps, bindings), Token(p.name), ResolveValue(p, bindings))
    decreases |ps|
  {
    if |ps| == 0 {
      assert ps + [p] == [p];
      assert [p][1..] == [];
    } else {
      var q := ps[0];
      assert (ps + [p])[0] == q;
      assert (ps + [p])[1..] == ps[1..] + [p];
      SubstituteLast(ReplaceAll(s, Token(q.name), ResolveValue(q, bindings)), ps[1..], p, bindings);
    }
  }

  /** Replacing a pattern that does not occur changes nothing. */
  lemma ReplaceAllAbsent(s: string, pat: string, rep: string)
    requires |pat| > 0 && !Contains(s, pat)
    ensures ReplaceAll(s, pat, rep) == s
  {
    ReplaceAllIsSplitJoin(s, pat, rep);
  }

  /** Instructions with no token of a declared parameter come back unchanged. */
  lemma {:induction false} SubstituteNoTokens(s: string, ps: seq<TaskParam>, bindings: Bindings)
    requires PlainParams(ps)
    requires forall k :: 0 <= k < |ps| ==> !Contains(s, Token(ps[k].name))
    ensures Substitute(s, ps, bindings) == s
    decreases |ps|
  {
    if |ps| > 0 {
      ReplaceAllAbsent(s, Token(ps[0].name), ResolveValue(ps[0], bindings));
      SubstituteNoTokens(s, ps[1..], bindings);
    }
  }

  /** Substituting twice gives what substituting once gave, provided the first pass
      left no declared token behind. */
  lemma SubstituteIdempotent(s: string, ps: seq<TaskParam>, bindings: Bindings)
    requires PlainParams(ps)
    requires forall k :: 0 <= k < |ps| ==> !Contains(Substitute(s, ps, bindings), Token(ps[k].name))
    ensures Substitute(Substitute(s, ps, bindings), ps, bindings) == Substitute(s, ps, bindings)
  {
    SubstituteNoTokens(Substitute(s, ps, bindings), ps, bindings);
  }

  /** Without that proviso a second pass can change the text again: a value can
      complete a token from the braces around it. */
  lemma SubstituteNotAlwaysIdempotent()
    ensures var ps := [TaskParam("p", Some("p"), None)];
            var once := Substitute("{{{{p}}}}", ps, map[]);
            once == "{{p}}" && Substitute(once, ps, map[]) == "p"
  {
    var ps := [TaskParam("p", Some("p"), None)];
    assert PlainParams(ps);
    assert ResolveValue(ps[0], map[]) == "p";
    assert Token("p") == "{{p}}" && ps[1..] == [];
    NestedTokenPass();
    TokenPass();
    assert Substitute("{{{{p}}}}", ps, map[]) == Substitute("{{p}}", [], map[]);
    assert Substitute("{{p}}", ps, map[]) == Substitute("p", [], map[]);
  }

  /** One pass over the doubly braced token leaves a plain token behind. */
  lemma NestedTokenPass()
    ensures ReplaceAll("{{{{p}}}}", "{{p}}", "p") == "{{p}}"
  {
    var t := "{{p}}";
    var s4, s3, s2 := "{{{{p}}}}", "{{{p}}}}", "{{p}}}}";
    assert ReplaceAll("}}", t, "p") == "}}";
    assert s2[0..5] == t && s2[5..] == "}}";
    ReplaceAllAtStart(s2, t, "p");
    assert s3[0..5][2] != t[2] && s3[1..] == s2;
    ReplaceAllSkipsFirst(s3, t, "p");
    assert s4[0..5][2] != t[2] && s4[1..] == s3;
    ReplaceAllSkipsFirst(s4, t, "p");
  }

  lemma TokenPass()
    ensures ReplaceAll("{{p}}", "{{p}}", "p") == "p"
  {
    var t := "{{p}}";
    assert t[0..5] == t && t[5..] == "";
    ReplaceAllAtStart(t, t, "p");
  }

  lemma OccursAtChar(s: string, t: string, i: nat, d: nat)
    requires OccursAt(s, t, i) && d < |t|
    ensures s[i + d] == t[d]
  {
    assert s[i..i + |t|][d] == s[i + d];
  }

  /** The character at offset `d` of an occurrence of a token. */
  lemma TokenCharAt(s: string, name: string, i: nat, d: nat)
    requires OccursAt(s, Token(name), i) && d < |name| + 4
    ensures s[i + d] == (if d < 2 then '{' else if d < |name| + 2 then name[d - 2] else '}')
  {
    OccursAtChar(s, Token(name), i, d);
    if 2 <= d < |name| + 2 {
      assert Token(name)[d] == name[d - 2];
    }
  }

  /** The only opening braces of a plain token are its first two characters. */
  lemma TokenOpenBraces(name: string, d: nat)
    requires PlainName(name) && d < |Token(name)|
    ensures Token(name)[d] == '{' <==> d < 2
  {
    var t := Token(name);
    if 2 <= d < |name| + 2 {
      assert t[d] == name[d - 2];
    }
  }

  /** Two occurrences of the same plain token at one index. */
  lemma SameStartSameName(s: string, n: string, m: string, i: nat)
    requires PlainName(n) && PlainName(m)
    requires OccursAt(s, Token(n), i) && OccursAt(s, Token(m), i)
    ensures n == m
  {
    var d := if |n| < |m| then |n| + 2 else |m| + 2;
    TokenCharAt(s, n, i, d);
    TokenCharAt(s, m, i, d);
    if |n| == |m| {
      assert Token(n) == s[i..i + |n| + 4] == Token(m);
      assert n == Token(n)[2..|n| + 2];
    }
  }

  /** An occurrence of a plain token that starts after another one starts cannot
      start strictly inside it. */
  lemma StartsPast(s: string, n: string, m: string, i: nat, k: nat)
    requires PlainName(n) && PlainName(m)
    requires OccursAt(s, Token(m), i) && OccursAt(s, Token(n), k)
    requires i < k
    ensures i + |Token(m)| <= k
  {
    if k < i + |Token(m)| {
      OccursAtChar(s, Token(n), k, 0);
      OccursAtChar(s, Token(m), i, k - i);
      TokenOpenBraces(m, k - i);
      assert k == i + 1;
      OccursAtChar(s, Token(n), k, 1);
      OccursAtChar(s, Token(m), i, 2);
      TokenOpenBraces(m, 2);
    }
  }

  /** Occurrences of two different plain tokens never overlap. */
  lemma TokensApart(s: string, n: string, m: string, i: nat, k: nat)
    requires PlainName(n) && PlainName(m) && n != m
    requires OccursAt(s, Token(m), i) && OccursAt(s, Token(n), k)
    ensures k + |Token(n)| <= i || i + |Token(m)| <= k
  {
    if k == i {
      SameStartSameName(s, n, m, i);
    } else if i < k {
      StartsPast(s, n, m, i, k);
    } else {
      StartsPast(s, m, n, k, i);
    }
  }

  lemma OccursInConcat(a: string, b: string, t: string, j: nat)
    ensures OccursAt(a, t, j) ==> OccursAt(a + b, t, j)
    ensures OccursAt(b, t, j) ==> OccursAt(a + b, t, |a| + j)
  {
    if OccursAt(a, t, j) {
      assert (a + b)[j..j + |t|] == a[j..j + |t|];
    }
    if OccursAt(b, t, j) {
      assert (a + b)[|a| + j..|a| + j + |t|] == b[j..j + |t|];
    }
  }

  /** Replacing one plain token keeps every occurrence of a different one: each
      such occurrence lies wholly inside one piece of the split. */
  lemma {:induction false} ReplaceKeepsOtherToken(s: string, m: string, v: string, n: string, k: nat)
    requires PlainName(n) && PlainName(m) && n != m
    requires OccursAt(s, Token(n), k)
    ensures Contains(ReplaceAll(s, Token(m), v), Token(n))
    decreases |s|
  {
    var tm := Token(m);
    var r := IndexOf(s, tm);
    if r.None? {
      ReplaceAllAbsent(s, tm, v);
      ContainsIff(s, Token(n));
    } else {
      var i := r.value;
      TokensApart(s, n, m, i, k);
      if k + |Token(n)| <= i {
        KeptBefore(s, tm, v, Token(n), i, k);
      } else {
        var k' := k - i - |tm|;
        assert s[i + |tm|..][k'..k' + |Token(n)|] == s[k..k + |Token(n)|];
        ReplaceKeepsOtherToken(s[i + |tm|..], m, v, n, k');
        KeptAfter(s, tm, v, Token(n), i);
      }
    }
  }

  /** Replace-all rewrites the first occurrence and carries on after it. */
  lemma ReplaceAllAt(s: string, pat: string, v: string, i: nat)
    requires |pat| > 0 && IndexOf(s, pat) == Some(i)
    ensures ReplaceAll(s, pat, v) == s[..i] + (v + ReplaceAll(s[i + |pat|..], pat, v))
  {
    ReplaceAllSkipsPrefix(s, pat, v, i);
    assert s[i..][..|pat|] == pat;
    assert s[i..][|pat|..] == s[i + |pat|..];
  }

  /** An occurrence before the first match survives the replacement. */
  lemma KeptBefore(s: string, pat: string, v: string, t: string, i: nat, k: nat)
    requires |pat| > 0 && IndexOf(s, pat) == Some(i)
    requires k + |t| <= i && OccursAt(s, t, k)
    ensures Contains(ReplaceAll(s, pat, v), t)
  {
    ReplaceAllAt(s, pat, v, i);
    var tail := v + ReplaceAll(s[i + |pat|..], pat, v);
    assert s[..i][k..k + |t|] == s[k..k + |t|];
    OccursInConcat(s[..i], tail, t, k);
    ContainsIff(s[..i] + tail, t);
  }

  /** An occurrence that survives in the text after the first match survives in the
      whole. */
  lemma KeptAfter(s: string, pat: string, v: string, t: string, i: nat)
    requires |pat| > 0 && IndexOf(s, pat) == Some(i)
    requires Contains(ReplaceAll(s[i + |pat|..], pat, v), t)
    ensures Contains(ReplaceAll(s, pat, v), t)
  {
    ReplaceAllAt(s, pat, v, i);
    var out := ReplaceAll(s[i + |pat|..], pat, v);
    ContainsIff(out, t);
    var j: nat :| OccursAt(out, t, j);
    OccursInConcat(s[..i] + v, out, t, j);
    assert s[..i] + (v + out) == (s[..i] + v) + out;
    ContainsIff(s[..i] + (v + out), t);
  }

  /** A token whose name no parameter declares is left in the instructions. */
  lemma {:induction false} UndeclaredTokenKept(s: string, ps: seq<TaskParam>, bindings: Bindings, n: string)
    requires PlainParams(ps) && PlainName(n)
    requires forall k :: 0 <= k < |ps| ==> ps[k].name != n
    requires Contains(s, Token(n))
    ensures Contains(Substitute(s, ps, bindings), Token(n))
    decreases |ps|
  {
    if |ps| > 0 {
      ContainsIff(s, Token(n));
      var k: nat :| OccursAt(s, Token(n), k);
      ReplaceKeepsOtherToken(s, ps[0].name, ResolveValue(ps[0], bindings), n, k);
      UndeclaredTokenKept(ReplaceAll(s, Token(ps[0].name), ResolveValue(ps[0], bindings)), ps[1..], bindings, n);
    }
  }

  /** When no resolved value holds a dollar sign, the loop as written and the
      literal loop agree. */
  lemma {:induction false} AsWrittenAgreesWithoutDollar(s: string, ps: seq<TaskParam>, bindings: Bindings)
    requires PlainParams(ps)
    requires forall k :: 0 <= k < |ps| ==> '$' !in ResolveValue(ps[k], bindings)
    ensures SubstituteAsWritten(s, ps, bindings) == Substitute(s, ps, bindings)
    decreases |ps|
  {
    if |ps| > 0 {
      var p := ps[0];
      JsReplace.ReplaceAllPlain(s, Token(p.name), ResolveValue(p, bindings));
      AsWrittenAgreesWithoutDollar(ReplaceAll(s, Token(p.name), ResolveValue(p, bindings)), ps[1..], bindings);
    }
  }

  /** A bound value "$&" is not inserted: the runtime reads it as "the match" and
      puts the token itself back. */
  lemma DollarValueExpanded()
    ensures var ps := [TaskParam("code", None, None)];
            var b := map["code" := "$&"];
            SubstituteAsWritten("Use {{code}}", ps, b) == "Use {{code}}"
            && Substitute("Use {{code}}", ps, b) == "Use $&"
  {
    var ps := [TaskParam("code", None, None)];
    var b := map["code" := "$&"];
    var s := "Use {{code}}";
    assert PlainParams(ps);
    var p := ps[0];
    assert Token(p.name) == "{{code}}";
    assert ResolveValue(p, b) == "$&";
    assert ps[1..] == [];
    MatchTemplateKeepsToken();
    LiteralInsertsValue();
  }

  lemma MatchTemplateKeepsToken()
    ensures JsReplace.ReplaceAll("Use {{code}}", "{{code}}", "$&") == "Use {{code}}"
  {
    var s := "Use {{code}}";
    var t := "{{code}}";
    assert s[4..12] == t;
    assert JsReplace.Expand("$&", s, 4, 8) == t;
    assert JsReplace.ReplaceAllFrom(s, t, "$&", 12) == "";
    assert JsReplace.ReplaceAllFrom(s, t, "$&", 4) == t;
    assert s[3..11][0] != t[0];
    assert s[2..10][0] != t[0];
    assert s[1..9][0] != t[0];
    assert s[0..8][0] != t[0];
    assert JsReplace.ReplaceAllFrom(s, t, "$&", 0) == "Use " + t;
  }

  lemma LiteralInsertsValue()
    ensures ReplaceAll("Use {{code}}", "{{code}}", "$&") == "Use $&"
  {
    var s := "Use {{code}}";
    var t := "{{code}}";
    assert s[4..][..8] == t && s[4..][8..] == "";
    assert ReplaceAll(s[4..], t, "$&") == "$&";
    assert s[3..11][0] != t[0];
    assert s[2..10][0] != t[0];
    assert s[1..9][0] != t[0];
    assert s[0..8][0] != t[0];
    ReplaceAllSkipsPrefix(s, t, "$&", 4);
  }

  /** Text without an opening brace holds no token. */
  lemma NoTokenWithoutBrace(a: string, n: string)
    requires '{' !in a
    ensures !Contains(a, Token(n))
  {
    forall k: nat
      ensures !OccursAt(a, Token(n), k)
    {
      if OccursAt(a, Token(n), k) {
        OccursAtChar(a, Token(n), k, 0);
      }
    }
    ContainsIff(a, Token(n));
  }

  /** An occurrence of a plain token in brace-free text, a token and more text is
      that token itself or lies wholly in the text after it. */
  lemma TokenAfterPrefix(b: string, e: string, a: string, n: string, k: nat)
    requires '{' !in b && PlainName(e) && PlainName(n)
    requires OccursAt(b + Token(e) + a, Token(n), k)
    ensures n == e || (k >= |b| + |Token(e)| && OccursAt(a, Token(n), k - |b| - |Token(e)|))
  {
    var s := b + Token(e) + a;
    assert s[|b|..|b| + |Token(e)|] == Token(e);
    OccursAtChar(s, Token(n), k, 0);
    if k == |b| {
      SameStartSameName(s, n, e, k);
    } else if k > |b| {
      StartsPast(s, n, e, |b|, k);
      var j := k - |b| - |Token(e)|;
      assert a[j..j + |Token(n)|] == s[k..k + |Token(n)|];
    }
  }

  /** The single token between brace-free text and token-free text is replaced. */
  lemma FillToken(b: string, n: string, a: string, v: string)
    requires '{' !in b && !Contains(a, Token(n))
    ensures ReplaceAll(b + Token(n) + a, Token(n), v) == b + v + a
  {
    var t := Token(n);
    var s := b + t + a;
    assert s[|b|..|b| + |t|] == t;
    assert forall j :: 0 <= j < |b| ==> !OccursAt(s, t, j);
    IndexOfIsFirst(s, t, |b|);
    ReplaceAllAt(s, t, v, |b|);
    assert s[..|b|] == b && s[|b| + |t|..] == a;
    ReplaceAllAbsent(a, t, v);
  }
}
