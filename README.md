# JIRA filter widget: a Dafny model of its core

The widget shows, on the desktop, the issues of a saved JIRA filter and,
optionally, the pages of a Confluence space or one Confluence page. Its whole
logic lives in `index.jsx`. This project models the parts of it that decide
what the widget shows:

- **the reducer** `updateState`, which folds the fetch and tab-switch events
  into the widget state (module `Reducer`);
- **the request setup**: the merged configuration, the JIRA search URL and
  its query, the Confluence content URL and its query chosen by mode, the
  Basic authorisation header, and how each fetch branch settles into the
  `{data}` or `{error}` the reducer receives, including the wrapping of a
  single page as `{results: [page]}` (module `Requests`);
- **the page fallbacks**: which of the content API's fields each listed page
  shows as its last-update time, its author and its space (module `Pages`);
- **the status classifier** that colours an issue's status badge (module
  `Status`);
- **`convertToMarkdownHTML`**, the chain of global regular-expression
  replacements that turns Confluence storage-format markup into display HTML
  (modules `StorageFormat`, `StorageFacts` and `Whitespace`).

JavaScript values are modelled by `Js.Value` with the language's truthiness,
`||`, `.`, `?.` and `String()` written out. Object spread followed by
overrides is map override. A global `replace` is a left-to-right scan that
tries the pattern at each index, replaces a match and resumes after it;
`StorageFormat.MatchAt` settles each modelled pattern the way a backtracking
matcher does:

- a greedy `[^>]*` stops at the first `>`;
- a lazy `(.*?)` stops at the first closing literal;
- a greedy `[^>]*` in front of an attribute name tries the rightmost
  occurrence of the name first.

The `i` flag is ASCII case folding, because without the `u` flag no other
character folds onto an ASCII letter.

The browser's date parsing and `ko-KR` formatting (`StorageFormat.DateHost`),
`btoa`, the serialised URL, and the exception the logging step throws are
parameters.

Two behaviours are modelled as the code has them:

- the state an unrecognised event builds from nothing is
  `{jira: {issues: []}, confluence: {results: []}, activeTab: 'confluence'}`
  (`Reducer.INITIAL`, index.jsx:685-689);
- the Confluence branch fails with the logging step's exception when the
  response is nullish or its storage value is not a string
  (`Requests.DebugScanThrows`).

## Model

| member | source | states |
|---|---|---|
| Js.Or | index.jsx:668-669 | `a \|\| b` is `a` when `a` is truthy and `b` otherwise; the result is truthy iff either operand is |
| Js.OrAll | index.jsx:672 | a chain of `\|\|` yields one of its operands, truthy iff some operand is |
| Js.OrAllPicksFirstTruthy | index.jsx:1059-1073 | the chain yields the first truthy operand, or the last when none is |
| Js.PathThroughNullish | index.jsx:1060-1074 | an optional chain through a nullish value ends in `undefined` |
| Base.NatToDecimal | index.jsx:29 | a status code prints as a non-empty string of digits without a leading zero |
| Base.NatToDecimalValue | index.jsx:29 | the printed digits read back as the number printed |
| Base.IntToDecimal | index.jsx:590-591 | `String` of an integer starts with `-` exactly when it is negative |
| Reducer.UpdateState | index.jsx:663-691 | each recognised event keeps every field it does not write and adds exactly the fields it writes; an unrecognised event returns the previous state, or the initial state when there is none; a failed fetch needs a non-nullish error |
| Reducer.PreviousTab | index.jsx:672 | `previousState?.activeTab` is the previous tab when there is one, otherwise `undefined` |
| Reducer.ErrorMessage | index.jsx:670-671 | a branch's error message is `null` for a falsy error and the error's `message` otherwise |
| Reducer.Written | index.jsx:665-683 | only the unrecognised event writes no field |
| Reducer.SwitchTabOnlyTab | index.jsx:679-683 | a tab switch sets `activeTab` and leaves every other field as it was |
| Reducer.FetchFailedOnlyError | index.jsx:674-678 | a failed fetch sets `error` to the error's message and leaves every other field as it was |
| Reducer.FetchSucceededFields | index.jsx:665-671 | a successful fetch stores each branch's data or its empty collection (always truthy) and each branch's error message or `null` |
| Reducer.FetchSucceededTab | index.jsx:672 | the new tab is the event's, else the previous one, else `'confluence'`, and is never falsy |
| Reducer.ErrorIsSticky | index.jsx:665-683 | once `error` is set, no event other than another failure changes it |
| Reducer.SwitchTabIdempotent | index.jsx:679-683 | switching to the same tab twice is switching once |
| Reducer.UnrecognisedKeepsState | index.jsx:684-689 | an unrecognised event is the identity on states and idempotent |
| Reducer.RefreshEvent | index.jsx:107-112 | the refresh dispatches both branch results and the tab the configuration prefers, always truthy |
| Reducer.RefreshOverridesSwitch | index.jsx:107-112 | after a tab switch, the next refresh sets the tab back to the configured one |
| Requests.MergeConfig | index.jsx:5-15 | the merged configuration has the defaults' and the settings' fields; each setting wins over its default |
| Requests.Setting | index.jsx:15 | a configuration field, or `undefined` when it is absent |
| Requests.QueryLookup | index.jsx:628 | looking a name up in the search parameters gives the `String` of the value of the first field with that name |
| Requests.QueryLookupNone | index.jsx:628 | a name is missing from the search parameters iff no field has it |
| Requests.Lookup | index.jsx:628 | the value found for a key is that of a parameter with the key; none is found only when no parameter has it |
| Requests.IssueFieldsJoined | index.jsx:592 | the five issue fields joined with commas |
| Requests.JiraParams | index.jsx:588-593 | the search asks for the saved filter, the configured page window and the five issue fields |
| Requests.JiraQueryWindow | index.jsx:590-591 | the search query carries the configured `startAt` and `maxResults` |
| Requests.ConfluenceUrlShape | index.jsx:585-642 | both base URLs start with the proxy and the domain; a single page is fetched from the content collection's URL followed by `/` and the page id, and only then does the URL differ from the collection's |
| Requests.ConfluenceParams | index.jsx:631-650 | a single page asks only for its expansions; the listing names space, limit, expansions, order and type; the single-page case is exactly the one-parameter query |
| Requests.BodyOnlyForSinglePage | index.jsx:638-646 | the expansion asks for `body.storage` exactly when a single page is fetched |
| Requests.ListingQuery | index.jsx:643-649 | the listing query names the configured space and limit |
| Requests.DefaultRequests | index.jsx:5-15 | with no settings beyond domain and filter, ten pages of space `DEV` and twenty issues from the first are fetched |
| Requests.DefaultSettings | index.jsx:5-13 | the default page id, space, limit and page window |
| Requests.AuthHeaders | index.jsx:654-661 | an `Authorization` header exists exactly when both credentials are truthy, and it is the only header |
| Requests.AuthHeaderValue | index.jsx:656-658 | for any truthy user name and password, of whatever kind, the header is `Basic ` followed by the encoding of their `String` forms joined by `:` |
| Requests.Url.constructor | index.jsx:585-587 | a new URL keeps its address and has an empty query |
| Requests.Url.SetSearch | index.jsx:628 | setting the query replaces it and keeps the address |
| Requests.RequestOptions.constructor | index.jsx:654 | the options start without headers |
| Requests.RequestOptions.SetHeaders | index.jsx:660 | setting the headers stores them |
| Requests.JiraSetup | index.jsx:585-628 | the JIRA URL is new, has the search address and carries the search query of the configuration |
| Requests.ConfluenceSetup | index.jsx:631-652 | the content URL is new, has the address the mode selects and carries that mode's query |
| Requests.OptionsSetup | index.jsx:654-661 | the options object is new and holds the authorisation headers exactly as the credentials determine |
| Requests.Setup | index.jsx:585-661 | the two URLs and the options object are new and distinct, and equal the address, query and header functions of the configuration |
| Requests.HttpError | index.jsx:29 | an HTTP failure is an error object with a string `message`; its text is stated by Requests.JiraBranch |
| Requests.JiraBranch | index.jsx:26-34 | an answered `ok` fetch gives its data; a non-`ok` one the message `JIRA: status text - url`; a rejected one its error |
| Requests.ConfluenceBranch | index.jsx:37-102 | disabled gives empty results; non-`ok` gives the `Confluence:` message; a throwing logging step gives its exception; a rejection gives its error; otherwise the data, wrapped as `{results: [data]}` for a single page |
| Requests.DisabledRefresh | index.jsx:102-112 | with Confluence disabled a refresh stores empty results, no Confluence error and the `jira` tab |
| Requests.SinglePageReachesState | index.jsx:95-112 | a single bodiless page reaches the state as `{results: [page]}` with no Confluence error |
| Pages.LastUpdatedCandidates | index.jsx:1059-1065 | five places are tried for the last-update time |
| Pages.AuthorCandidates | index.jsx:1066-1073 | six candidates for the author, the last being `'Unknown'` |
| Pages.Facts | index.jsx:1059-1074 | the time is one of its candidates and truthy iff some candidate is; the author is a candidate and always truthy; the space is the page's truthy key, else the configured one |
| Pages.LastUpdatedPriority | index.jsx:1059-1065 | the time shown is the first truthy candidate in the listed order |
| Pages.AuthorPriority | index.jsx:1066-1073 | the author shown is the first truthy candidate in the listed order |
| Pages.HistoryWins | index.jsx:1060-1067 | a page whose history records its last update shows that time and editor, whatever its version says |
| Pages.UnknownAuthor | index.jsx:1066-1073 | a page with no history, version or creator shows `'Unknown'` |
| Status.IncludesAny | index.jsx:520-546 | a name matches a keyword group iff it contains some keyword of it |
| Status.IncludesAnyAppend | index.jsx:520-546 | matching the union of two groups is matching either |
| Status.Classify | index.jsx:518-557 | each colour is chosen exactly when its group matches and no earlier group does; the neutral colour exactly when no keyword occurs; a missing status is neutral |
| Status.ClassifyIgnoresCase | index.jsx:519 | a status classifies alike in upper, lower or mixed case |
| Status.RedundantKeywords | index.jsx:531-546 | `in progress` and `reviewing` add nothing to their groups |
| Status.InProgressClassified | index.jsx:520-535 | a name that mentions no done word and mentions `progress` gets the in-progress colour |
| Status.InProgressExample | index.jsx:531-535 | an illustration of Status.InProgressClassified: `In Progress` gets the in-progress colour |
| Text.LowerCharFolds | index.jsx:519 | lower-casing leaves no ASCII capital and is idempotent, and two characters lower-case alike iff they are equal or an ASCII case pair |
| Text.LowerOfUpper | index.jsx:519 | lowering an upper-cased string equals lowering the string |
| Text.IndexOf | index.jsx:772 | the index found holds the character and is at or after the start |
| Text.IndexOfFirst | index.jsx:772 | no earlier index holds the character; none found means none occurs |
| Text.Find | index.jsx:769 | the index found holds an occurrence of the pattern |
| Text.FindFirst | index.jsx:769 | no earlier index holds an occurrence; none found means none occurs |
| Text.IncludesAt | index.jsx:521-545 | `includes` holds when the pattern occurs at some index |
| Text.ContainsInner | index.jsx:531-546 | a text with a longer keyword contains each part of it |
| Text.NotContains | index.jsx:646 | a text missing one of the pattern's characters does not contain it |
| StorageFormat.FirstValueParameterLeftmost | index.jsx:772 | a value parameter found is the one at some index, and no earlier index holds one |
| StorageFormat.FirstValueParameterNone | index.jsx:772 | none is found exactly when no index holds a value parameter |
| StorageFormat.TaskStatusText | index.jsx:881-884 | the checked glyph exactly for the status `complete`, the unchecked glyph for any other |
| StorageFormat.MatchAt | index.jsx:769-894 | every match ends after it starts and within the text, so each pass terminates |
| StorageFormat.ConvertToMarkdownHtml | index.jsx:760-936 | missing or empty input gives `""`; every output has no double whitespace, no whitespace alone between tags, and no leading or trailing whitespace |
| StorageFacts.ReplaceFromNoMatch | index.jsx:764-928 | a pass whose pattern matches nowhere returns the text unchanged |
| StorageFacts.ReplaceWhole | index.jsx:764-928 | a match that spans the text is replaced by its replacement alone |
| StorageFacts.LiteralAbsent | index.jsx:871-928 | a literal pass leaves alone a text lacking one of its characters |
| StorageFacts.LiteralWhole | index.jsx:871-894 | a literal pass turns its own pattern, in any case under the `i` flag, into its replacement |
| StorageFacts.SingleCharRemoved | index.jsx:917-918 | a single-character pass leaves no occurrence of the character |
| StorageFacts.LiteralKeepsAbsent | index.jsx:917-928 | a literal pass never introduces a character its replacement lacks |
| StorageFacts.LazyElementWhole | index.jsx:769 | an element whose body holds no earlier closing tag is matched whole |
| StorageFacts.TextElementWhole | index.jsx:875-881 | an element whose text holds no `<` is matched whole |
| StorageFacts.TimeElementAt | index.jsx:792 | the time pattern matches a plain `time` element from its start to its end, with the time-element text as its replacement |
| StorageFacts.TimeElementWhole | index.jsx:792 | a plain `time` element is replaced by the time-element text of its `datetime` and content |
| StorageFacts.TimeElementVisibleText | index.jsx:794-796 | a `time` element with visible text becomes a date span with that text |
| StorageFacts.DateSpanAt | index.jsx:812-815 | the class-date pattern matches a whole `confluence-date` span from its start to its end, with the same span as its replacement |
| StorageFacts.DateSpanStable | index.jsx:812-815 | a `confluence-date` span whose text holds no `<` goes through the class-date pass unchanged |
| StorageFacts.TaskStatusElement | index.jsx:881-884 | a task-status element becomes the checked glyph exactly for `complete` |
| StorageFacts.AfterFirstOccurrence | index.jsx:889 | whatever follows some occurrence of a pattern also follows the first occurrence the search finds |
| StorageFacts.NoInputPass | index.jsx:889-890 | a text without `i` in either case holds no input tag, so both input passes leave it unchanged |
| StorageFacts.CheckedAfterFirstType | index.jsx:889 | `checked` after any checkbox type attribute is also after the first one |
| StorageFacts.CheckedInputTag | index.jsx:889 | a checkbox input with `checked` after its type becomes the checked glyph |
| StorageFacts.UncheckedInputKept | index.jsx:889 | the checked pass leaves a checkbox input without `checked` alone |
| StorageFacts.CheckboxInputTag | index.jsx:890 | any checkbox input becomes the unchecked glyph |
| StorageFacts.InputCheckbox | index.jsx:889-890 | through both passes a checkbox input becomes the checked glyph iff `checked` follows its type, and the unchecked one otherwise |
| StorageFacts.TaskPassesUntouched | index.jsx:881-894 | the task and checkbox passes leave alone every text without `:`, without `i` in either case and without `[` |
| StorageFacts.TaskGlyphsStable | index.jsx:881-894 | both glyph spans go through the task and checkbox passes unchanged |
| StorageFacts.BracketChecked | index.jsx:893-894 | `[x]` and `[X]` become the checked glyph |
| StorageFacts.BracketUnchecked | index.jsx:893-894 | `[ ]` becomes the unchecked glyph |
| StorageFacts.MacroElement | index.jsx:769 | a date, time or datetime macro named in its opening tag is replaced by its macro text |
| StorageFacts.ValueParameterPresent | index.jsx:772-774 | a body that is one value parameter element, its text free of `<`, yields that text |
| StorageFacts.MacroWithoutValue | index.jsx:769-789 | a macro whose body yields no value parameter, whatever other parameters it has, becomes its placeholder span |
| StorageFacts.MacroWithoutParameters | index.jsx:769-789 | a macro whose body holds no `<ac:parameter` tag at all becomes its placeholder span |
| StorageFacts.MacroWithValue | index.jsx:772-788 | a macro with a value becomes its formatted value if it parses, else its placeholder |
| StorageFacts.FullWidthParensRemoved | index.jsx:917-928 | no full-width parenthesis survives the character passes |
| StorageFacts.DoublyEncodedLt | index.jsx:922-923 | an illustration of the decoding order: `&amp;lt;` decodes all the way to `<`, because `&amp;` is decoded before `&lt;` |
| StorageFacts.DoublyEncodedNbsp | index.jsx:921-922 | an illustration of the decoding order: `&amp;nbsp;` decodes only to `&nbsp;`, because `&nbsp;` is decoded before `&amp;` |
| Whitespace.SkipWs | index.jsx:931 | the index ends a run of whitespace |
| Whitespace.Trim | index.jsx:933 | trimming gives a slice without leading or trailing whitespace, empty iff the text is all whitespace |
| Whitespace.CollapseWs | index.jsx:931 | collapsing is empty iff the text is, and starts with whitespace iff the text does |
| Whitespace.CloseTagGaps | index.jsx:932 | removing gaps is empty iff the text is, and keeps the first character |
| Whitespace.CollapseWsProperties | index.jsx:931 | collapsing leaves no double whitespace and only plain spaces, and keeps every other character in order |
| Whitespace.CloseTagGapsKeepsNonWs | index.jsx:932 | removing gaps keeps every non-whitespace character in order |
| Whitespace.CloseTagGapsClosesAll | index.jsx:932 | after collapsing, removing gaps leaves no gap and no double whitespace |
| Whitespace.TrimKeepsNonWs | index.jsx:933 | trimming keeps every non-whitespace character |
| Whitespace.NormalizeProperties | index.jsx:931-933 | the final step leaves the text normalised, with no whitespace alone between tags, and keeps every non-whitespace character in order |
| Whitespace.NormalizeIdempotent | index.jsx:931-933 | normalising twice is normalising once |

## Left out

- Rendering: the styled components, the JSX layout, the tab bar and the refresh interval are presentation, not logic.
- The fetch orchestration: promises, `Promise.all` and its rejection handler (index.jsx:105-114) are concurrency. The model takes each branch's settled outcome as a value.
- Logging: the `console.log` calls are I/O. Only the throwing behaviour of the Confluence logging step is modelled.
- Date parsing and `ko-KR` formatting are left to the `DateHost` parameter, because the locale formatting belongs to the browser.
- `btoa` is a parameter. It throws on characters outside Latin-1, and the model does not capture that.
- URL serialisation and percent-encoding are a parameter (`href`), and so is the query string. The query is modelled as its list of name and value pairs.
- `StorageFormat.OpaquePasses` has three parameters, covering index.jsx:766, 878-880 and 897-912. They are parameters rather than string functions:
  - `stripScriptAndStyle`: the script and style removal (index.jsx:766), which uses a backreference;
  - `stripStrayIds`: the task-id and UUID removal (index.jsx:878-880), which uses word boundaries;
  - `unwrapMarkup`: the unwrapping of other macros, layouts and `ac:` tags and the page-link rewrite (index.jsx:897-912), which use look-ahead and backreferences.
- StorageFormat.TaskBodyAt: the task-body pass (index.jsx:885) is modelled and ordered in the chain, but has no lemma of its own.
- The rewrites of `(` and `)` to themselves (index.jsx:915-916) are identities and are omitted.
- StorageFacts.TimeElementWhole: like StorageFacts.TimeElementAt, covers only the plain shape of the element, in which `datetime` is the first attribute and no other attribute repeats it.
- StorageFormat.DataDateText: only the replacement text is stated. No lemma places a whole `data-date` element, though `MatchAt` models the pattern. The class-date pattern is placed only on the `confluence-date` spans the model itself emits (StorageFacts.DateSpanAt).
- StorageFacts.InputCheckbox: states the checkbox passes on one input tag, not inside a longer text.
- Numbers are integers: NaN, fractions and `Infinity` do not occur in the values the model handles.
- `toLowerCase` is ASCII case folding (`Text.Lower`). This is exact for the keywords, which are lower-case ASCII or Hangul, but not for non-ASCII capitals in a status name.
- Status.Classify: returns a category rather than the colour strings it selects.
