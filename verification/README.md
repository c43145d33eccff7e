# Browser-automation applets: task repository, planner and tasks endpoint

This project models, in Dafny, the core of a marketplace for browser-automation
"applets". A task names a website, free-text instructions with `{{param}}`
placeholders, a list of parameters with defaults, a language model and a publication
status. The model covers these parts:

- `Store` is the in-memory task repository (`TaskStore`). It is a JavaScript `Map` from
  ids to tasks, seeded with five built-in tasks, and it keeps insertion order. It is
  modelled as an insertion-ordered key list plus a map. Listing sorts newest first with
  a stable sort.
- `Seeds` holds the five seed tasks with their exact texts, ids and parameters.
- `Substitution` is the placeholder filling done before planning. `Planner` holds the
  planning prompt and its three slot replacements, the keyword-driven mock planner, and
  the choice between the mock plan and a language model's answer. `Json` is the
  `JSON.stringify` output for the parameter list that the prompt embeds.
- `JsReplace` gives the replacement-pattern semantics of JavaScript's
  `String.prototype.replace`, following section 22.1.3.19.1 of ECMAScript 2023
  (GetSubstitution). `Strings` holds the literal string operations the corrected model
  uses.
- `Config` holds the environment-derived settings, `getApiKey` and
  `shouldUseRealAutomation`.
- `Executor` holds the conversion of a plan into numbered instructions and the mock
  execution.
- `TasksRoute` is the `/api/tasks` endpoint. POST validates the body and creates a task
  with a share link and an embed snippet. GET lists the tasks.

Everything is pure: each operation takes the repository, the environment, the clock
reading or the random id suffix as a parameter and returns its result. Language-model
providers are an oracle parameter.

Behaviour of the code worth knowing, which the model keeps:

- `updateTask` spreads the patch over the stored task, so a patch can change `id` and
  `createdAt`. The merged task is still stored under the id it was looked up by, so its
  `id` field can differ from its key (`Store.UpdateCanRenameWithoutRekeying`).
- `Array.prototype.sort` is stable, so tasks with equal timestamps keep insertion order
  in the listing (`Store.SortIsStable`, `Store.GetAllTasks`).
- `createTask` spreads the request body after the generated id, so a body that carries
  an `id` keeps it. When that id is already stored, the POST replaces the stored task
  (`TasksRoute.PostWithTakenIdOverwrites`).

## Model

| member | source | states |
|---|---|---|
| Store.Put | src/lib/store.ts:15 | `Map.set`: the value is replaced; a new key goes to the end of the insertion order and an existing key keeps its place; keys and order stay in one-to-one correspondence |
| Store.PutAll | src/lib/store.ts:13-17 | storing a sequence of tasks one by one keeps the repository well formed |
| Store.PutAllOrder | src/lib/store.ts:13-17 | tasks with distinct new ids are appended to the insertion order in sequence |
| Store.PutAllKeeps | src/lib/store.ts:13-17 | a key that no later task uses keeps its stored task |
| Store.PutAllHolds | src/lib/store.ts:13-17 | with distinct ids, every task ends up stored under its own id |
| Store.InitialStoreHoldsSeeds | src/lib/store.ts:8-17 | `InitialStore`: after construction the repository holds exactly the five seeds, each under its own id, in declaration order |
| Store.InitiallyAllPublished | src/lib/store.ts:53-55 | right after construction the published listing is the whole listing |
| Store.PublishedTasksListed | src/lib/store.ts:13-17 | distinct published tasks put into an empty repository are all in its published listing |
| Store.ListingAllPublished | src/lib/store.ts:53-55 | when every stored task is published the published listing holds the whole listing |
| Store.PutAllFromEmpty | src/lib/store.ts:13-17 | tasks with distinct ids put into an empty repository are listed in their own order, each under its id |
| Store.PutAllFromEmptyKeys | src/lib/store.ts:13-17 | the keys of that repository are exactly the tasks' ids, position by position |
| Store.Ids | src/lib/store.ts:14-16 | the id list has one entry per task |
| Store.IdsAt | src/lib/store.ts:14-16 | entry k of the id list is task k's id |
| Store.NewId | src/lib/store.ts:20-22 | without a body id the new id is `tsk_` followed by the drawn suffix |
| Store.CreateTask | src/lib/store.ts:19-28 | the new task has the request's fields, the chosen id and the creation time; it is retrievable; every other id is unchanged; a new id is appended to the order |
| Store.GetTask | src/lib/store.ts:30-32 | present exactly when the id is a key, and then the stored task |
| Store.Values | src/lib/store.ts:35 | the stored tasks in insertion order, one per key |
| Store.Insert | src/lib/store.ts:35-37 | inserting into a newest-first list keeps it newest first and adds exactly the task (multiset) |
| Store.SortNewestFirst | src/lib/store.ts:35-37 | the result is newest first and a permutation of the input |
| Store.SortKeepsSorted | src/lib/store.ts:35-37 | a list already newest first, including ties, is returned unchanged |
| Store.InsertStable | src/lib/store.ts:35-37 | inserting a task puts it first among the tasks with its timestamp and leaves their order otherwise unchanged |
| Store.SortIsStable | src/lib/store.ts:35-37 | the sort is stable: for every timestamp, the tasks carrying it come out in their input order |
| Store.GetAllTasks | src/lib/store.ts:34-38 | the listing is newest first, a permutation of the stored tasks, and tasks with equal timestamps appear in insertion order |
| Store.ListingHoldsStored | src/lib/store.ts:34-38 | a task is listed exactly when some key stores it |
| Store.Merge | src/lib/store.ts:44 | an empty patch changes nothing |
| Store.MergeFacts | src/lib/store.ts:44 | merging is idempotent; for each of the eight fields, one the patch leaves out keeps its value and one it carries wins, including `id` and `createdAt` |
| Store.UpdateTask | src/lib/store.ts:40-47 | an unknown id gives nothing and no change; otherwise the merged task is stored under the same key; order, keys and every other task are unchanged |
| Store.UpdateCanRenameWithoutRekeying | src/lib/store.ts:44-45 | a patch carrying another id leaves the task under its old key while its `id` field names the other one |
| Store.Without | src/lib/store.ts:50 | removing a key from the order keeps every other key in its relative order, drops exactly that key, keeps the keys distinct, and changes nothing for an absent key |
| Store.WithoutStep | src/lib/store.ts:50 | one step of `Without`: when removing the key from the tail leaves the tail's other keys in order, removing it from the whole order leaves the keys before it followed by those after it |
| Store.DeleteTask | src/lib/store.ts:49-51 | reports whether the id was present; afterwards it is absent, every other id is unchanged and the insertion order of the rest is kept; an absent id changes nothing |
| Store.PublishedOnly | src/lib/store.ts:54 | keeps exactly the published tasks, each as many times as it occurs |
| Store.PublishedIsSubsequence | src/lib/store.ts:54 | the filter keeps the listing's order |
| Store.GetPublishedTasks | src/lib/store.ts:53-55 | exactly the listed published tasks, each as many times as listed, newest first, in the listing's order |
| Store.SubsequenceKeepsOrder | src/lib/store.ts:53-55 | any subsequence of a newest-first list is newest first |
| Store.SubsequenceMembers | src/lib/store.ts:53-55 | a subsequence's elements come from the list |
| Seeds.SeedTasks | src/lib/seeds.ts:3-103 | `DaytonaSeed` … `SearchSeed` in declaration order: five seeds, each stamped with its own clock reading |
| Seeds.SeedIdentity | src/lib/seeds.ts:3-103 | the seed ids are distinct and start with `tsk_`; every seed is published and names a supported model |
| Seeds.SeedIdsDistinct | src/lib/seeds.ts:3-103 | no two seeds share an id |
| Seeds.SeedIdsPrefixed | src/lib/seeds.ts:3-103 | every seed id starts with `tsk_` |
| Seeds.SeedParams | src/lib/seeds.ts:20-26 | every seed's parameter names are plain and distinct, and each parameter has a default |
| Seeds.PlainSeedNames | src/lib/seeds.ts:22 | the seed parameter names contain no pattern metacharacter |
| Seeds.OneTokenOnly | src/lib/seeds.ts:9-19 | text with a single `{{e}}` and no other brace holds no other placeholder |
| Seeds.TwoTokensOnly | src/lib/seeds.ts:71 | text with the two placeholders and no other brace holds no third one |
| Seeds.DaytonaTokens | src/lib/seeds.ts:9-26 | every placeholder of the first seed is declared |
| Seeds.CloudTokens | src/lib/seeds.ts:35-52 | every placeholder of the second seed is declared |
| Seeds.WorkOsTokens | src/lib/seeds.ts:61-62 | the third seed has no placeholder |
| Seeds.FormTokens | src/lib/seeds.ts:71-83 | both placeholders of the form seed are declared |
| Seeds.SearchTokens | src/lib/seeds.ts:92-99 | the search seed's placeholder is declared |
| Seeds.SeedTokensDeclared | src/lib/seeds.ts:3-103 | every placeholder in every seed's instructions is a declared parameter |
| Seeds.DaytonaFilled | src/lib/seeds.ts:9-26 | with no bindings the coupon placeholder becomes its default code |
| Seeds.CloudFilled | src/lib/seeds.ts:35-52 | with no bindings the coupon placeholder becomes `HACKSPRINT` |
| Seeds.FormFilled | src/lib/seeds.ts:71-83 | with no bindings the name and email placeholders become their defaults |
| Seeds.SearchFilled | src/lib/seeds.ts:92-99 | with no bindings the query placeholder becomes its default |
| Seeds.SeedsFillWithDefaults | src/lib/seeds.ts:3-103 | with no bindings no seed's instructions keep a placeholder brace |
| Seeds.FillOneParam | src/lib/planner.ts:27-30 | one parameter's default fills its single placeholder in brace-free text |
| Seeds.FillTwoParams | src/lib/planner.ts:27-30 | two distinct parameters' defaults fill their placeholders in turn |
| Substitution.Token | src/lib/planner.ts:29 | the placeholder is the name between two pairs of braces |
| Substitution.ResolveValue | src/lib/planner.ts:28 | a non-empty binding wins, then a non-empty default; the value is empty exactly when both are missing or empty |
| Substitution.SubstituteOne | src/lib/planner.ts:27-30 | one parameter replaces every occurrence of its placeholder (split on the token, join with the value) |
| Substitution.SubstituteLast | src/lib/planner.ts:27-30 | `Substitute`: parameters are applied in declaration order, each to the previous result |
| Substitution.ReplaceAllAbsent | src/lib/planner.ts:29 | a text without the placeholder is unchanged |
| Substitution.SubstituteNoTokens | src/lib/planner.ts:27-30 | instructions without declared placeholders come back unchanged |
| Substitution.SubstituteIdempotent | src/lib/planner.ts:27-30 | substituting again changes nothing once no declared placeholder is left |
| Substitution.SubstituteNotAlwaysIdempotent | src/lib/planner.ts:27-30 | nested braces can form a new placeholder, so a second pass can change the text |
| Substitution.NestedTokenPass | src/lib/planner.ts:29 | one global replace of `{{p}}` in `{{{{p}}}}` leaves `{{p}}` |
| Substitution.UndeclaredTokenKept | src/lib/planner.ts:27-30 | a placeholder whose name is not declared survives substitution |
| Substitution.ReplaceKeepsOtherToken | src/lib/planner.ts:29 | replacing one placeholder never destroys another one |
| Substitution.TokensApart | src/lib/planner.ts:29 | two different placeholders never overlap |
| Substitution.SameStartSameName | src/lib/planner.ts:29 | two placeholders at the same position have the same name |
| Substitution.StartsPast | src/lib/planner.ts:29 | a placeholder starting after another starts past its end |
| Substitution.ReplaceAllAt | src/lib/planner.ts:29 | a global replace rewrites the first match and continues after it |
| Substitution.KeptBefore | src/lib/planner.ts:29 | text before the first match survives the replace |
| Substitution.KeptAfter | src/lib/planner.ts:29 | text surviving in the rest survives in the whole |
| Substitution.NoTokenWithoutBrace | src/lib/planner.ts:29 | text without `{` holds no placeholder |
| Substitution.TokenAfterPrefix | src/lib/planner.ts:29 | in `b{{e}}a` with brace-free `b`, a placeholder is `{{e}}` itself or lies in `a` |
| Substitution.FillToken | src/lib/planner.ts:29 | in `b{{n}}a` with brace-free `b` and no `{{n}}` in `a`, the replace gives `b v a` |
| Substitution.AsWrittenAgreesWithoutDollar | src/lib/planner.ts:27-30 | when no value holds `$`, the code as written (`SubstituteAsWritten`) and the literal substitution (`Substitute`) agree |
| Substitution.DollarValueExpanded | src/lib/planner.ts:29 | the value `$&` leaves the placeholder in place as written; the literal substitution inserts `$&` |
| Substitution.MatchTemplateKeepsToken | src/lib/planner.ts:29 | a `$&` replacement puts the match back |
| Substitution.LiteralInsertsValue | src/lib/planner.ts:29 | a literal replace inserts `$&` as text |
| JsReplace.ExpandPlain | src/lib/planner.ts:29 | `Expand`: a replacement without `$` expands to itself |
| JsReplace.ReplaceAllFromPlain | src/lib/planner.ts:29 | without `$`, the pattern-expanding global replace is the literal one |
| JsReplace.ReplaceAllPlain | src/lib/planner.ts:29 | without `$`, the pattern-expanding global replace (`JsReplace.ReplaceAll`) is the literal one |
| JsReplace.ReplaceFirstPlain | src/lib/planner.ts:33-35 | without `$`, the pattern-expanding single replace (`JsReplace.ReplaceFirst`) is the literal one |
| Json.EscapeChar | src/lib/planner.ts:35 | every character escapes to at least one character |
| Json.UnescapeEscapeChar | src/lib/planner.ts:35 | decoding one escape gives back its character |
| Json.UnescapeHexEscape | src/lib/planner.ts:35 | a control character written `\u00XX` decodes back to itself |
| Json.UnescapeEscape | src/lib/planner.ts:35 | decoding the escaped text gives back the original characters |
| Json.QuoteRoundTrip | src/lib/planner.ts:35 | `Quote`: a quoted string literal decodes to its contents |
| Json.EscapePlain | src/lib/planner.ts:35 | text without a quote, backslash or control character is written unescaped |
| Json.QuotePlainWord | src/lib/planner.ts:35 | a word of lower-case letters and spaces is quoted as itself between double quotes |
| Json.EscapeHasNoControl | src/lib/planner.ts:35 | escaping never writes a line break or other control character |
| Json.HexValueOfDigit | src/lib/planner.ts:35 | a written hex digit reads back as its value |
| Json.ParamJson | src/lib/planner.ts:35 | a parameter's object opens with its `name` key and quoted name and closes with `}` |
| Json.ParamJsonMembers | src/lib/planner.ts:35 | a parameter's object is its `name` member, then its `value` member exactly when it has a value, then `"required":true` or `"required":false` exactly when the flag is set, then `}`; positions and length fix the text |
| Json.ParamsJsonSnoc | src/lib/planner.ts:35 | one more parameter appends its object before the closing bracket, after a comma unless the list was empty, so elements appear in list order |
| Strings.JoinSnoc | src/lib/planner.ts:35 | joining one more part puts the separator before it |
| Json.ParamsJson | src/lib/planner.ts:35 | the parameter list is a bracketed array, `[]` exactly when there are no parameters |
| Json.ParamsJsonHasEach | src/lib/planner.ts:35 | every parameter's object appears whole in the list's JSON |
| Json.SingleParamJson | src/lib/planner.ts:35 | a list of one parameter is its object in brackets |
| Json.RequiredParamJson | src/lib/planner.ts:35 | a required parameter with a plain name and value is written `[{"name":"…","value":"…","required":true}]`, the shape of the search seed's list |
| Strings.JoinHasPart | src/lib/planner.ts:35 | every part occurs whole in the joined text |
| Planner.PromptLayout | src/lib/planner.ts:3-36 | `BuildPlanningPrompt`: the prompt is the template with website, substituted instructions and parameter JSON in the three slots |
| Planner.FillSlots | src/lib/planner.ts:32-35 | three first-occurrence replacements fill the three slots in order |
| Planner.FillFirst | src/lib/planner.ts:33 | the website slot is the first match in the template |
| Planner.FillSecond | src/lib/planner.ts:34 | the instructions slot is found after the inserted website |
| Planner.FillThird | src/lib/planner.ts:35 | the parameters slot is found after the inserted instructions |
| Planner.FillSlot | src/lib/planner.ts:33-35 | a first-occurrence replace rewrites the slot when no earlier match exists |
| Planner.SlotFound | src/lib/planner.ts:33-35 | the first match of the slot is where it was placed |
| Planner.ClearHasNoOccurrence | src/lib/planner.ts:33-35 | no match can start in a prefix clear of the slot |
| Planner.ClearWithoutBrace | src/lib/planner.ts:33-35 | a brace-free prefix is clear of every slot |
| Planner.ClearExtend | src/lib/planner.ts:33-35 | a clear prefix stays clear after inserted text and a brace-free template line |
| Planner.AgreesPrefix | src/lib/planner.ts:33-35 | a partial match in a longer text is a partial match in the prefix |
| Planner.MiddleStart | src/lib/planner.ts:33-35 | no match can start inside inserted text that holds none |
| Planner.HeadBraces | src/lib/planner.ts:3-6 | the template before the website slot has no brace |
| Planner.MidBraces | src/lib/planner.ts:6-8 | the template lines between the slots have no brace |
| Planner.WebsiteTemplateExpanded | src/lib/planner.ts:33 | a website `$&` leaves the website slot in the prompt as written; the literal replace inserts it |
| Planner.MatchTemplateInSlot | src/lib/planner.ts:33 | after any brace-free text, `$&` puts the slot back under the runtime's replace and is inserted by the literal one |
| Planner.MatchKeepsText | src/lib/planner.ts:33-35 | a `$&` replacement at a slot leaves the text unchanged |
| Planner.AsWrittenPromptAgrees | src/lib/planner.ts:24-36 | without `$` in the inserted texts the prompt as written (`BuildPlanningPromptAsWritten`) equals the literal one |
| Planner.Opt | src/lib/planner.ts:52-71 | a conditional step is present exactly when its condition holds |
| Planner.IncreasingAppend | src/lib/planner.ts:52-71 | appending a later step kind keeps the fixed step order |
| Planner.MockSteps | src/lib/planner.ts:40-71 | navigate and wait first, then each optional step exactly when asked for, in a fixed order |
| Planner.GenerateMockPlan | src/lib/planner.ts:38-77 | two steps plus one per keyword test that holds (`WantsClick`, `WantsType`, `WantsCapture`): navigate to the website, wait, then click, type and capture exactly when their keywords occur (case-insensitively); the duration is three seconds per step |
| Planner.MockPlanMinimal | src/lib/planner.ts:40-49 | without keywords the plan is navigate and wait, six seconds |
| Planner.ToLowerIdempotent | src/lib/planner.ts:52 | lower-casing twice is lower-casing once |
| Planner.MockPlanIgnoresCase | src/lib/planner.ts:52-67 | lower-casing the instructions does not change the plan |
| Planner.MockPlanDependsOnWebsiteAndInstructions | src/lib/planner.ts:38-77 | the plan depends on the website and instructions only |
| Planner.ProviderFor | src/lib/planner.ts:102-113 | a provider exists exactly for the three supported model names |
| Planner.ProviderForInjective | src/lib/planner.ts:102-113 | different model names go to different providers |
| Planner.CallLlmApi | src/lib/planner.ts:102-113 | an unsupported model gives no plan; otherwise the plan is the selected provider's answer |
| Planner.GeneratePlan | src/lib/planner.ts:79-100 | any plan other than the mock one is the language model's answer, and only with a key and real automation on |
| Planner.MockWithoutKeyOrSwitch | src/lib/planner.ts:85-90 | without a key, or with real automation off, the plan is the mock one |
| Planner.UnknownModelMock | src/lib/planner.ts:85-90 | an unsupported model always gets the mock plan |
| Planner.ModelDecides | src/lib/planner.ts:92-99 | with a key and real automation on, the plan is the model's answer to the literal prompt, or the mock one when the call fails |
| Planner.GeneratePlanAsWritten | src/lib/planner.ts:79-100 | as the runtime runs it: any plan other than the mock one is the model's answer to the prompt built with pattern-expanding replaces |
| Planner.ModelDecidesAsWritten | src/lib/planner.ts:92-99 | with a key and real automation on, the runtime's plan is the model's answer to that prompt, or the mock one when the call fails |
| Planner.GeneratePlanAgrees | src/lib/planner.ts:79-100 | when no inserted text holds `$`, the runtime's planner and the literal one return the same plan whatever the model answers |
| Config.Load | src/lib/config.ts:3-28 | real automation excludes mock data; the cloud URL is fixed |
| Config.KeysDefaultToEmpty | src/lib/config.ts:6-20 | an unset key or URL variable reads as empty |
| Config.FlagSpellings | src/lib/config.ts:17-18 | real automation is on only for `true`, headed mode only for `false` |
| Config.GetApiKey | src/lib/config.ts:31-42 | a name outside the supported models gets the empty key |
| Config.ApiKeyPerModel | src/lib/config.ts:31-42 | each model reads its own provider's variable, and a non-empty key implies a supported model |
| Config.ShouldUseRealAutomationIff | src/lib/config.ts:26-47 | `ShouldUseRealAutomation`: real automation is chosen exactly when the toggle is non-empty or the process is not in development |
| Config.RealAutomationCases | src/lib/config.ts:26-47 | outside development it is always chosen; in development the toggle `false` still chooses it |
| Executor.OrElse | src/lib/browser-executor.ts:73-79 | the value if present and non-empty, else the fallback |
| Executor.StepLine | src/lib/browser-executor.ts:68-84 | each line starts with the one-based step number and `. ` |
| Executor.StepLines | src/lib/browser-executor.ts:68-85 | one line per step, numbered by position |
| Executor.ConvertPlanToInstructions | src/lib/browser-executor.ts:67-88 | the text starts with the fixed header and ends with the fixed trailer |
| Executor.LineNumber | src/lib/browser-executor.ts:68-84 | the digits before each line's `. ` read back as its one-based position |
| Executor.IntegerHasNoBreak | src/lib/browser-executor.ts:77 | a written number holds no line break |
| Executor.DescribeHasNoBreak | src/lib/browser-executor.ts:69-84 | a step with break-free fields describes itself on one line |
| Executor.StepLineHasNoBreak | src/lib/browser-executor.ts:68-84 | a step line holds no break |
| Executor.OneLinePerStep | src/lib/browser-executor.ts:67-88 | splitting the body at line breaks gives back exactly the step lines |
| Executor.DescribeKinds | src/lib/browser-executor.ts:69-84 | `Describe`: each kind's sentence, with a non-empty selector printed as given and a missing or empty one falling back to the fixed phrase, an absent URL printed `undefined`, a non-zero timeout printed in milliseconds and an unknown kind printed after `Execute` |
| Executor.DescribeUntargetedType | src/lib/browser-executor.ts:74-75 | typing without a selector goes "into the input field" |
| Executor.DescribeUntargetedAssert | src/lib/browser-executor.ts:78-79 | a text check without a selector is about "the element" |
| Executor.DescribeReadsBack | src/lib/browser-executor.ts:69-84 | the step's kind can be read back from the opening words of its sentence, so no two kinds share a sentence |
| Executor.DescribeDefaultWait | src/lib/browser-executor.ts:77 | a wait with no timeout or a zero timeout waits 2000ms |
| Executor.WaitLineHasNoBreak | src/lib/browser-executor.ts:77 | a wait line holds no break, whatever its timeout |
| Executor.DefaultWait | src/lib/browser-executor.ts:77 | the default wait is written `2000` |
| Executor.ExecutePlanMock | src/lib/browser-executor.ts:494-514 | success with the given plan, one screenshot and the four fixed log lines, each stated in order |
| Executor.MockRunIgnoresPlan | src/lib/browser-executor.ts:494-514 | the mock result differs between plans only in the plan it echoes |
| TasksRoute.ParseShareLink | src/app/api/tasks/route.ts:21 | a parsed id builds the same link back |
| TasksRoute.ParseEmbedCode | src/app/api/tasks/route.ts:22 | a parsed id builds the same snippet back |
| TasksRoute.ShareLinkRoundTrip | src/app/api/tasks/route.ts:21 | `ShareLink`: the share link names the task id |
| TasksRoute.EmbedCodeRoundTrip | src/app/api/tasks/route.ts:22 | `EmbedCode`: the embed snippet names the task id |
| TasksRoute.ToRequest | src/app/api/tasks/route.ts:10-17 | a validated body passes its fields on unchanged and non-empty |
| TasksRoute.Post | src/app/api/tasks/route.ts:5-28 | 400 with the fixed message and no change exactly when a required field is missing or empty; otherwise the task is stored, timestamped, and both links name its id |
| TasksRoute.PostIsCreateTask | src/app/api/tasks/route.ts:17-28 | a valid POST is exactly `createTask` plus the two links |
| TasksRoute.OnlyFourFieldsChecked | src/app/api/tasks/route.ts:10 | an empty status, an empty parameter list or an unsupported model is accepted |
| TasksRoute.PostWithTakenIdOverwrites | src/app/api/tasks/route.ts:17 | a body carrying a stored id replaces that task in place |
| TasksRoute.PostWithoutIdAppends | src/app/api/tasks/route.ts:17-21 | without an id the task gets `tsk_` plus the suffix, is appended and is linked under that id |
| TasksRoute.Get | src/app/api/tasks/route.ts:38-41 | exactly the repository's listing: every stored task once, newest first, equal timestamps in insertion order |
| TasksRoute.CreatedIsListed | src/app/api/tasks/route.ts:5-41 | a task created by POST appears in the next GET |
| Strings.IndexOfFrom | src/lib/planner.ts:33-35 | the first occurrence at or after a position, or none |
| Strings.IndexOfIsFirst | src/lib/planner.ts:33-35 | an occurrence with none before it is the first |
| Strings.ReplaceFirst | src/lib/planner.ts:33-35 | text without the pattern is unchanged |
| Strings.ReplaceAllIsSplitJoin | src/lib/planner.ts:29 | a global literal replace is split on the pattern then join with the value |
| Strings.ReplaceAllSkipsPrefix | src/lib/planner.ts:29 | a prefix without a match is copied unchanged |
| Strings.ReplaceFromMatch | src/lib/planner.ts:29 | from an occurrence on, the value then the rest rewritten |
| Strings.JoinCons | src/lib/browser-executor.ts:85 | joining with a first part in front puts the separator after it |
| Strings.JoinSplit | src/lib/browser-executor.ts:85 | joining the pieces of a split gives back the text |
| Strings.SplitJoin | src/lib/browser-executor.ts:85 | splitting lines joined with a separator they lack gives back the lines |
| Strings.NatToString | src/lib/browser-executor.ts:71 | a decimal numeral without leading zero |
| Strings.ParseNatToString | src/lib/browser-executor.ts:71 | a written number reads back as itself |
| Strings.IntToString | src/lib/browser-executor.ts:77 | a numeral that starts with `-` exactly for negative numbers, whose digits read back as the number's magnitude |
| Types.KindOfTag | src/lib/browser-executor.ts:69-84 | a step tag is an unknown kind exactly when it is none of the six names the switch handles, and then keeps the tag |
| Strings.ToLower | src/lib/planner.ts:52 | lower-casing keeps the length and maps each character |

## Left out

- Real browser automation, the cloud service, its live view and the streaming endpoints
  are not modelled. Only the plan-to-instructions conversion and the mock execution are.
- The HTTP calls to the three language-model providers and the parsing of their answers
  are not modelled. They are the `Oracle` parameter of `Planner.GeneratePlan`: it returns
  None for a failed call, an HTTP error or unparseable JSON.
- The two-second delay of the mock execution and all logging are left out.
- `nanoid(8)` and `new Date()` are not modelled. The random suffix and the clock reading
  are parameters. Timestamps are millisecond integers instead of ISO strings; the
  listing compares them as the ISO strings' parsed times would.
- The 500 answers of the tasks endpoint are not modelled: the repository operations are
  total, and an unparseable body is not modelled.
- Request bodies whose fields are not strings, and patches whose fields are `undefined`
  rather than absent, are not modelled.
- Binding keys that are inherited object properties (`paramValues["constructor"]`) are
  not modelled.
- Substitution.Substitute: parameter names are required to be free of regular-expression
  metacharacters. The source builds a `RegExp` from the name, which misbehaves or
  throws for other names.
- Planner.GeneratePlan: requires plain parameter names for the same reason. Its
  contract does not name the provider's answer beyond the oracle. It asks the model
  with the literal prompt (`BuildPlanningPrompt`), not the one the runtime builds;
  `Planner.GeneratePlanAsWritten` is the runtime's version, and the two return the same
  plan when no inserted text holds `$` (`Planner.GeneratePlanAgrees`).
- Planner.ModelDecides: is stated for the literal prompt; the runtime's prompt is
  covered by `Planner.ModelDecidesAsWritten`.
- Executor.Describe: a timeout is an optional integer. In the source it is a JavaScript
  number, which a template literal may print as `1.5` or `1e+21`; fractional and very
  large timeouts are not modelled.
- TasksRoute.ToRequest: `createTask` spreads every field of the body into the task. The
  model keeps only the fields a task has, so extra body fields are not carried.
- Strings.ToLower: covers ASCII letters and the Kelvin sign, which are the only
  characters whose lower case can form the ASCII keywords the mock planner looks for.
  Other Unicode case mappings are not modelled.
- Json.ParamJson: writes the keys in declaration order, as the seed and request
  objects carry them. Objects with other key orders are not modelled. Strings are
  sequences of Unicode scalar values, so the lone surrogates that `JSON.stringify`
  escapes cannot occur.
- Config.Load: the environment is read once per call to `Load`. The source reads it once
  at module load.

## Findings

| source | as written | input that shows it | evidently intended | confidence | as-written member | corrected member |
|---|---|---|---|---|---|---|
| src/lib/planner.ts:29 | the value is passed as a `replace` replacement string, so `$&`, `` $` ``, `$'` and `$$` in it are expanded | binding `code` to `$&` for the instructions `Use {{code}}` leaves `Use {{code}}` | the value is inserted literally, giving `Use $&` | not executed | Substitution.DollarValueExpanded | Substitution.SubstituteOne |
| src/lib/planner.ts:33-35 | the website, instructions and parameter JSON are replacement strings, so `$` patterns in them are expanded | a website `$&` leaves `{website}` in the prompt | the website text appears in the prompt | not executed | Planner.WebsiteTemplateExpanded | Planner.PromptLayout |
