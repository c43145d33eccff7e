/** The five tasks the repository starts with. Their instructions are written as
    brace-free text around each `{{name}}` token, so that the facts about tokens can
    be proved from the shape of the text; the text itself is the original's, line
    for line. */
module Seeds {
  import opened Wrappers
  import opened Strings
  import opened Types
  import opened Substitution

  // ---- Daytona: redeem a coupon ----

  const Daytona1 := "Navigate to " + "https://app.daytona.io " + "and redeem the " + "coupon code.\n\n"
  const Daytona2 := "    Please:\n"
  const Daytona3 := "    1. Go to the " + "Daytona app website\n"
  const Daytona4 := "    2. Navigate to the " + "Billing Dashboard or " + "Account settings\n"
  const Daytona5 := "    3. Look for a " + "coupon code input " + "field or \"Redeem " + "Code\" section\n"
  const Daytona6 := "    4. Enter the " + "coupon code: "
  const Daytona7 := "\n    5. Click the " + "\"Redeem\" or \"Apply\" " + "button\n"
  const Daytona8 := "    6. Verify that " + "the coupon was " + "successfully applied\n"
  const Daytona9 := "    7. Take a " + "screenshot of the " + "confirmation\n"
  const Daytona10 := "    8. Report the " + "discount amount or " + "benefits received"

  const DaytonaBefore := Daytona1 + Daytona2 + Daytona3 + Daytona4 + Daytona5 + Daytona6
  const DaytonaAfter := Daytona7 + Daytona8 + Daytona9 + Daytona10

  // ---- Browser Use Cloud: apply a coupon ----

  const Cloud1 := "Navigate to " + "https://cloud.browser-use.com " + "and apply the coupon " + "code for a " + "subscription.\n\n"
  const Cloud2 := "    Please:\n"
  const Cloud3 := "    1. Go to the " + "Browser Use Cloud " + "website\n"
  const Cloud4 := "    2. Navigate to the " + "billing or " + "subscription section\n"
  const Cloud5 := "    3. Select the " + "\"Professional " + "Monthly\" plan\n"
  const Cloud6 := "    4. Look for a " + "coupon code input " + "field\n"
  const Cloud7 := "    5. Enter the " + "coupon code: "
  const Cloud8 := "\n    6. Apply the " + "coupon and verify " + "the discount is shown\n"
  const Cloud9 := "    7. Take a " + "screenshot of the " + "discounted price\n"
  const Cloud10 := "    8. Report the " + "discount amount or " + "percentage saved"

  const CloudBefore := Cloud1 + Cloud2 + Cloud3 + Cloud4 + Cloud5 + Cloud6 + Cloud7
  const CloudAfter := Cloud8 + Cloud9 + Cloud10

  // ---- WorkOS: sign up, then the quickstart page ----

  const WorkOsText := "Open signup. " + "If OTP required, " + "stop before submit. " + "Then open AuthKit " + "quickstart page " + "and capture."

  // ---- Anthropic: prefill the credits form ----

  const FormBefore := "Open the Anthropic " + "credit form, " + "prefill name "
  const FormMiddle := " and email "
  const FormAfter := ", do not submit, " + "capture."

  // ---- Google search ----

  const SearchBefore := "Search for "
  const SearchAfter := ", capture " + "results page."

  const DaytonaParams := [TaskParam("coupon", Some("DAYTONA_EVENT_9AWONPO8"), Some(true))]
  const CloudParams := [TaskParam("coupon", Some("HACKSPRINT"), Some(true))]
  const FormParams := [TaskParam("name", Some("Demo User"), Some(false)),
                       TaskParam("email", Some("demo@superuser.ai"), Some(false))]
  const SearchParams := [TaskParam("query", Some("browser automation"), Some(true))]

  const DaytonaInstructions := DaytonaBefore + Token("coupon") + DaytonaAfter
  const CloudInstructions := CloudBefore + Token("coupon") + CloudAfter
  const FormInstructions := FormBefore + Token("name") + FormMiddle + Token("email") + FormAfter
  const SearchInstructions := SearchBefore + Token("query") + SearchAfter

  const DaytonaId := "tsk_" + "daytona_coupon"
  const CloudId := "tsk_" + "browser_use_coupon"
  const WorkOsId := "tsk_" + "workos_signup"
  const FormId := "tsk_" + "anthropic_form"
  const SearchId := "tsk_" + "google_search"

  function DaytonaSeed(createdAt: int): Task {
    Task(DaytonaId, "Daytona \U{2014} Redeem Coupon", "https://app.daytona.io",
         GptMini, DaytonaInstructions, DaytonaParams, Published, createdAt)
  }

  function CloudSeed(createdAt: int): Task {
    Task(CloudId, "Browser Use Cloud \U{2014} Apply HACKSPRINT", "https://cloud.browser-use.com",
         GptMini, CloudInstructions, CloudParams, Published, createdAt)
  }

  function WorkOsSeed(createdAt: int): Task {
    Task(WorkOsId, "WorkOS \U{2014} Signup \U{2192} Quickstart", "https://signin.workos.com",
         ClaudeHaiku, WorkOsText, [], Published, createdAt)
  }

  function FormSeed(createdAt: int): Task {
    Task(FormId, "Anthropic \U{2014} Credits Form Prefill", "https://docs.google.com/forms/",
         GptMini, FormInstructions, FormParams, Published, createdAt)
  }

  function SearchSeed(createdAt: int): Task {
    Task(SearchId, "Google Search Test", "https://www.google.com",
         GptMini, SearchInstructions, SearchParams, Published, createdAt)
  }

  /** `seedTasks`. Each entry reads the clock once when the module loads; `stamps`
      holds those five readings in order. */
  function SeedTasks(stamps: seq<int>): (seeds: seq<Task>)
    requires |stamps| == 5
    ensures |seeds| == 5
    ensures forall k :: 0 <= k < 5 ==> seeds[k].createdAt == stamps[k]
  {
    [DaytonaSeed(stamps[0]), CloudSeed(stamps[1]), WorkOsSeed(stamps[2]), FormSeed(stamps[3]), SearchSeed(stamps[4])]
  }

  /** No two parameters of a task share a name. */
  predicate UniqueParamNames(t: Task) {
    forall i, j :: 0 <= i < j < |t.params| ==> t.params[i].name != t.params[j].name
  }

  /** Every parameter of a task carries a non-empty default. */
  predicate HasDefaults(t: Task) {
    forall k :: 0 <= k < |t.params| ==> t.params[k].value.Some? && t.params[k].value.value != ""
  }

  /** The ids are pairwise distinct and all carry the `tsk_` prefix; every seed is
      published and names a model of `LlmChoice`. */
  lemma SeedIdentity(stamps: seq<int>)
    requires |stamps| == 5
    ensures var seeds := SeedTasks(stamps);
            (forall i, j :: 0 <= i < j < 5 ==> seeds[i].id != seeds[j].id)
            && (forall k :: 0 <= k < 5 ==> |seeds[k].id| >= 4 && seeds[k].id[..4] == "tsk_")
            && (forall k :: 0 <= k < 5 ==> seeds[k].status == Published && IsLlmChoice(seeds[k].llm))
  {
    SeedIdsDistinct(stamps);
    SeedIdsPrefixed(stamps);
  }

  lemma SeedIdsDistinct(stamps: seq<int>)
    requires |stamps| == 5
    ensures forall i, j :: 0 <= i < j < 5 ==> SeedTasks(stamps)[i].id != SeedTasks(stamps)[j].id
  {
    SeedIdsDiffer();
  }

  lemma SeedIdsPrefixed(stamps: seq<int>)
    requires |stamps| == 5
    ensures forall k :: 0 <= k < 5 ==> |SeedTasks(stamps)[k].id| >= 4 && SeedTasks(stamps)[k].id[..4] == "tsk_"
  {
    var seeds := SeedTasks(stamps);
    forall k | 0 <= k < 5
      ensures |seeds[k].id| >= 4 && seeds[k].id[..4] == "tsk_"
    {
      if k == 0 {
        Prefixed("daytona_coupon");
      } else if k == 1 {
        Prefixed("browser_use_coupon");
      } else if k == 2 {
        Prefixed("workos_signup");
      } else if k == 3 {
        Prefixed("anthropic_form");
      } else {
        Prefixed("google_search");
      }
    }
  }

  lemma Prefixed(x: string)
    ensures ("tsk_" + x)[..4] == "tsk_"
  {
  }

  /** The seed ids differ in their first character after the prefix. */
  lemma SeedIdsDiffer()
    ensures DaytonaId[4] == 'd' && CloudId[4] == 'b' && WorkOsId[4] == 'w'
    ensures FormId[4] == 'a' && SearchId[4] == 'g'
  {
  }

  /** Each seed's parameters are plain, uniquely named and defaulted. */
  lemma SeedParams(stamps: seq<int>)
    requires |stamps| == 5
    ensures forall k :: 0 <= k < 5 ==>
              PlainParams(SeedTasks(stamps)[k].params) && UniqueParamNames(SeedTasks(stamps)[k])
              && HasDefaults(SeedTasks(stamps)[k])
  {
    var seeds := SeedTasks(stamps);
    forall k | 0 <= k < 5
      ensures PlainParams(seeds[k].params) && UniqueParamNames(seeds[k]) && HasDefaults(seeds[k])
    {
      if k == 0 {
        DaytonaParamsOk(stamps[0]);
      } else if k == 1 {
        CloudParamsOk(stamps[1]);
      } else if k == 2 {
      } else if k == 3 {
        FormParamsOk(stamps[3]);
      } else {
        SearchParamsOk(stamps[4]);
      }
    }
  }

  lemma DaytonaParamsOk(x: int)
    ensures var t := DaytonaSeed(x); PlainParams(t.params) && UniqueParamNames(t) && HasDefaults(t)
  {
    CouponPlain();
  }

  lemma CloudParamsOk(x: int)
    ensures var t := CloudSeed(x); PlainParams(t.params) && UniqueParamNames(t) && HasDefaults(t)
  {
    CouponPlain();
  }

  lemma FormParamsOk(x: int)
    ensures var t := FormSeed(x); PlainParams(t.params) && UniqueParamNames(t) && HasDefaults(t)
  {
    FormParamsFacts();
  }

  lemma SearchParamsOk(x: int)
    ensures var t := SearchSeed(x); PlainParams(t.params) && UniqueParamNames(t) && HasDefaults(t)
  {
    QueryPlain();
  }

  lemma FormParamsFacts()
    ensures PlainParams(FormParams)
    ensures FormParams[0].name != FormParams[1].name
  {
    NamePlain();
    EmailPlain();
    assert FormParams[0].name[0] != FormParams[1].name[0];
  }

  lemma PlainSeedNames()
    ensures PlainName("coupon") && PlainName("name") && PlainName("email") && PlainName("query")
  {
    CouponPlain();
    NamePlain();
    EmailPlain();
    QueryPlain();
  }

  lemma CouponPlain() ensures PlainName("coupon") { }
  lemma NamePlain() ensures PlainName("name") { }
  lemma EmailPlain() ensures PlainName("email") { }
  lemma QueryPlain() ensures PlainName("query") { }

  // ---- The text has braces only in its tokens ----

  lemma Daytona1Braces() ensures '{' !in Daytona1 { }
  lemma Daytona2Braces() ensures '{' !in Daytona2 { }
  lemma Daytona3Braces() ensures '{' !in Daytona3 { }
  lemma Daytona4Braces() ensures '{' !in Daytona4 { }
  lemma Daytona5Braces() ensures '{' !in Daytona5 { }
  lemma Daytona6Braces() ensures '{' !in Daytona6 { }
  lemma Daytona7Braces() ensures '{' !in Daytona7 { }
  lemma Daytona8Braces() ensures '{' !in Daytona8 { }
  lemma Daytona9Braces() ensures '{' !in Daytona9 { }
  lemma Daytona10Braces() ensures '{' !in Daytona10 { }

  lemma Cloud1Braces() ensures '{' !in Cloud1 { }
  lemma Cloud2Braces() ensures '{' !in Cloud2 { }
  lemma Cloud3Braces() ensures '{' !in Cloud3 { }
  lemma Cloud4Braces() ensures '{' !in Cloud4 { }
  lemma Cloud5Braces() ensures '{' !in Cloud5 { }
  lemma Cloud6Braces() ensures '{' !in Cloud6 { }
  lemma Cloud7Braces() ensures '{' !in Cloud7 { }
  lemma Cloud8Braces() ensures '{' !in Cloud8 { }
  lemma Cloud9Braces() ensures '{' !in Cloud9 { }
  lemma Cloud10Braces() ensures '{' !in Cloud10 { }

  lemma WorkOsTextBraces() ensures '{' !in WorkOsText { }
  lemma FormBeforeBraces() ensures '{' !in FormBefore { }
  lemma FormMiddleBraces() ensures '{' !in FormMiddle { }
  lemma FormAfterBraces() ensures '{' !in FormAfter { }
  lemma SearchBeforeBraces() ensures '{' !in SearchBefore { }
  lemma SearchAfterBraces() ensures '{' !in SearchAfter { }

  lemma DaytonaBraces()
    ensures '{' !in DaytonaBefore && '{' !in DaytonaAfter
  {
    Daytona1Braces(); Daytona2Braces(); Daytona3Braces(); Daytona4Braces(); Daytona5Braces();
    Daytona6Braces(); Daytona7Braces(); Daytona8Braces(); Daytona9Braces(); Daytona10Braces();
  }

  lemma CloudBraces()
    ensures '{' !in CloudBefore && '{' !in CloudAfter
  {
    Cloud1Braces(); Cloud2Braces(); Cloud3Braces(); Cloud4Braces(); Cloud5Braces();
    Cloud6Braces(); Cloud7Braces(); Cloud8Braces(); Cloud9Braces(); Cloud10Braces();
  }

  lemma FormBraces()
    ensures '{' !in FormBefore && '{' !in FormMiddle && '{' !in FormAfter
  {
    FormBeforeBraces(); FormMiddleBraces(); FormAfterBraces();
  }

  lemma SearchBraces()
    ensures '{' !in SearchBefore && '{' !in SearchAfter
  {
    SearchBeforeBraces(); SearchAfterBraces();
  }

  // ---- Tokens and their substitution ----

  /** In brace-free text around one token, that token is the only one. */
  lemma OneTokenOnly(b: string, e: string, a: string, n: string)
    requires '{' !in b && '{' !in a && PlainName(e) && PlainName(n)
    requires Contains(b + Token(e) + a, Token(n))
    ensures n == e
  {
    ContainsIff(b + Token(e) + a, Token(n));
    var k: nat :| OccursAt(b + Token(e) + a, Token(n), k);
    TokenAfterPrefix(b, e, a, n, k);
    if n != e {
      ContainsIff(a, Token(n));
      NoTokenWithoutBrace(a, n);
    }
  }

  /** In brace-free text around two tokens, those two are the only ones. */
  lemma TwoTokensOnly(b: string, e1: string, m: string, e2: string, a: string, n: string)
    requires '{' !in b && '{' !in m && '{' !in a
    requires PlainName(e1) && PlainName(e2) && PlainName(n)
    requires Contains(b + Token(e1) + m + Token(e2) + a, Token(n))
    ensures n == e1 || n == e2
  {
    var rest := m + Token(e2) + a;
    AppendAssoc(b + Token(e1), m, Token(e2));
    AppendAssoc(b + Token(e1), m + Token(e2), a);
    ContainsIff(b + Token(e1) + rest, Token(n));
    var k: nat :| OccursAt(b + Token(e1) + rest, Token(n), k);
    TokenAfterPrefix(b, e1, rest, n, k);
    if n != e1 {
      ContainsIff(rest, Token(n));
      OneTokenOnly(m, e2, a, n);
    }
  }

  /** Every token in the instructions names one of the parameters. */
  ghost predicate TokensDeclared(s: string, ps: seq<TaskParam>) {
    forall n :: PlainName(n) && Contains(s, Token(n)) ==> exists k :: 0 <= k < |ps| && ps[k].name == n
  }

  lemma DaytonaTokens()
    ensures TokensDeclared(DaytonaInstructions, DaytonaParams)
  {
    DaytonaBraces();
    CouponPlain();
    forall n | PlainName(n) && Contains(DaytonaInstructions, Token(n))
      ensures DaytonaParams[0].name == n
    {
      OneTokenOnly(DaytonaBefore, "coupon", DaytonaAfter, n);
    }
  }

  lemma CloudTokens()
    ensures TokensDeclared(CloudInstructions, CloudParams)
  {
    CloudBraces();
    CouponPlain();
    forall n | PlainName(n) && Contains(CloudInstructions, Token(n))
      ensures CloudParams[0].name == n
    {
      OneTokenOnly(CloudBefore, "coupon", CloudAfter, n);
    }
  }

  lemma WorkOsTokens()
    ensures TokensDeclared(WorkOsText, [])
  {
    WorkOsTextBraces();
    forall n | PlainName(n)
      ensures !Contains(WorkOsText, Token(n))
    {
      NoTokenWithoutBrace(WorkOsText, n);
    }
  }

  lemma FormTokens()
    ensures TokensDeclared(FormInstructions, FormParams)
  {
    FormBraces();
    NamePlain();
    EmailPlain();
    forall n | PlainName(n) && Contains(FormInstructions, Token(n))
      ensures FormParams[0].name == n || FormParams[1].name == n
    {
      TwoTokensOnly(FormBefore, "name", FormMiddle, "email", FormAfter, n);
    }
  }

  lemma SearchTokens()
    ensures TokensDeclared(SearchInstructions, SearchParams)
  {
    SearchBraces();
    QueryPlain();
    forall n | PlainName(n) && Contains(SearchInstructions, Token(n))
      ensures SearchParams[0].name == n
    {
      OneTokenOnly(SearchBefore, "query", SearchAfter, n);
    }
  }

  /** Every token in a seed's instructions names a parameter of that same seed. */
  lemma SeedTokensDeclared(stamps: seq<int>)
    requires |stamps| == 5
    ensures forall k :: 0 <= k < 5 ==> TokensDeclared(SeedTasks(stamps)[k].instructions, SeedTasks(stamps)[k].params)
  {
    var seeds := SeedTasks(stamps);
    forall k | 0 <= k < 5
      ensures TokensDeclared(seeds[k].instructions, seeds[k].params)
    {
      if k == 0 {
        DaytonaTokens();
      } else if k == 1 {
        CloudTokens();
      } else if k == 2 {
        WorkOsTokens();
      } else if k == 3 {
        FormTokens();
      } else {
        SearchTokens();
      }
    }
  }

  /** With no values bound, each seed's token is replaced by its default. */
  lemma DaytonaFilled()
    ensures Substitute(DaytonaInstructions, DaytonaParams, map[])
         == DaytonaBefore + "DAYTONA_EVENT_9AWONPO8" + DaytonaAfter
  {
    CouponPlain();
    DaytonaBraces();
    FillOneParam(DaytonaBefore, DaytonaParams[0], DaytonaAfter, "DAYTONA_EVENT_9AWONPO8");
  }

  lemma CloudFilled()
    ensures Substitute(CloudInstructions, CloudParams, map[]) == CloudBefore + "HACKSPRINT" + CloudAfter
  {
    CouponPlain();
    CloudBraces();
    FillOneParam(CloudBefore, CloudParams[0], CloudAfter, "HACKSPRINT");
  }

  lemma FormFilled()
    ensures Substitute(FormInstructions, FormParams, map[])
         == FormBefore + "Demo User" + FormMiddle + "demo@superuser.ai" + FormAfter
  {
    FormParamsFacts();
    FormBraces();
    DemoUserBraces();
    FillTwoParams(FormBefore, FormParams[0], FormMiddle, FormParams[1], FormAfter, "Demo User", "demo@superuser.ai");
  }

  lemma DemoUserBraces() ensures '{' !in "Demo User" { }

  lemma SearchFilled()
    ensures Substitute(SearchInstructions, SearchParams, map[]) == SearchBefore + "browser automation" + SearchAfter
  {
    QueryPlain();
    SearchBraces();
    FillOneParam(SearchBefore, SearchParams[0], SearchAfter, "browser automation");
  }

  /** A parameter's default fills its one token in brace-free text. */
  lemma FillOneParam(b: string, p: TaskParam, a: string, v: string)
    requires PlainName(p.name) && '{' !in b && '{' !in a
    requires p.value == Some(v) && v != ""
    ensures PlainParams([p])
    ensures Substitute(b + Token(p.name) + a, [p], map[]) == b + v + a
  {
    NoTokenWithoutBrace(a, p.name);
    FillToken(b, p.name, a, v);
    assert [p][1..] == [];
  }

  /** Two parameters' defaults fill their tokens in brace-free text, in turn. */
  lemma FillTwoParams(b: string, p1: TaskParam, m: string, p2: TaskParam, a: string, v1: string, v2: string)
    requires PlainName(p1.name) && PlainName(p2.name) && p1.name != p2.name
    requires '{' !in b && '{' !in m && '{' !in a && '{' !in v1
    requires p1.value == Some(v1) && v1 != "" && p2.value == Some(v2) && v2 != ""
    ensures PlainParams([p1, p2])
    ensures Substitute(b + Token(p1.name) + m + Token(p2.name) + a, [p1, p2], map[]) == b + v1 + m + v2 + a
  {
    var rest := m + Token(p2.name) + a;
    AppendAssoc(b + Token(p1.name), m, Token(p2.name));
    AppendAssoc(b + Token(p1.name), m + Token(p2.name), a);
    if Contains(rest, Token(p1.name)) {
      OneTokenOnly(m, p2.name, a, p1.name);
    }
    FillToken(b, p1.name, rest, v1);
    var once := b + v1 + m;
    AppendAssoc(b + v1, m + Token(p2.name), a);
    AppendAssoc(b + v1, m, Token(p2.name));
    assert [p1, p2][1..] == [p2];
    FillOneParam(once, p2, a, v2);
    NotInJoin3(b, v1, m);
  }

  lemma NotInJoin3(x: string, y: string, z: string)
    requires '{' !in x && '{' !in y && '{' !in z
    ensures '{' !in x + y + z
  {
  }

  lemma DefaultValueBraces()
    ensures '{' !in "DAYTONA_EVENT_9AWONPO8" && '{' !in "HACKSPRINT"
    ensures '{' !in "demo@superuser.ai" && '{' !in "browser automation"
  {
  }

  /** Every seed parameter has a default, so running a seed with no values bound
      leaves no brace, and so no token, in its instructions. */
  lemma SeedsFillWithDefaults(stamps: seq<int>)
    requires |stamps| == 5
    ensures forall k :: 0 <= k < 5 ==>
              PlainParams(SeedTasks(stamps)[k].params)
              && '{' !in Substitute(SeedTasks(stamps)[k].instructions, SeedTasks(stamps)[k].params, map[])
  {
    var seeds := SeedTasks(stamps);
    SeedParams(stamps);
    forall k | 0 <= k < 5
      ensures '{' !in Substitute(seeds[k].instructions, seeds[k].params, map[])
    {
      if k == 0 {
        DaytonaFilledClear();
      } else if k == 1 {
        CloudFilledClear();
      } else if k == 2 {
        WorkOsTextBraces();
      } else if k == 3 {
        FormFilledClear();
      } else {
        SearchFilledClear();
      }
    }
  }

  lemma DaytonaFilledClear()
    ensures PlainParams(DaytonaParams) && '{' !in Substitute(DaytonaInstructions, DaytonaParams, map[])
  {
    CouponPlain();
    DaytonaFilled();
    DaytonaBraces();
    DefaultValueBraces();
    NotInJoin3(DaytonaBefore, "DAYTONA_EVENT_9AWONPO8", DaytonaAfter);
  }

  lemma CloudFilledClear()
    ensures PlainParams(CloudParams) && '{' !in Substitute(CloudInstructions, CloudParams, map[])
  {
    CouponPlain();
    CloudFilled();
    CloudBraces();
    DefaultValueBraces();
    NotInJoin3(CloudBefore, "HACKSPRINT", CloudAfter);
  }

  lemma FormFilledClear()
    ensures PlainParams(FormParams) && '{' !in Substitute(FormInstructions, FormParams, map[])
  {
    FormParamsFacts();
    FormFilled();
    FormBraces();
    DefaultValueBraces();
    DemoUserBraces();
    NotInJoin3(FormBefore, "Demo User", FormMiddle);
    NotInJoin3(FormBefore + "Demo User" + FormMiddle, "demo@superuser.ai", FormAfter);
  }

  lemma SearchFilledClear()
    ensures PlainParams(SearchParams) && '{' !in Substitute(SearchInstructions, SearchParams, map[])
  {
    QueryPlain();
    SearchFilled();
    SearchBraces();
    DefaultValueBraces();
    NotInJoin3(SearchBefore, "browser automation", SearchAfter);
  }
}
