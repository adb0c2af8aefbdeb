/**
 * The widget's requests and the shape of what they bring back: the merged
 * configuration, the JIRA search and Confluence content URLs with their
 * query parameters, the Basic authorisation header, and the settled result
 * of each fetch branch as the reducer receives it.
 */
module Requests {
  import opened Base
  import opened Text
  import opened Js
  import opened Reducer

  /** The configuration object: the settings file's fields over the built-in defaults. */
  type Config = map<string, Value>

  /** The built-in defaults, in the order they are declared. */
  const DEFAULTS: Config := map[
    "startAt" := Num(0),
    "maxResults" := Num(20),
    "confluence_enabled" := Bool(false),
    "confluence_space_key" := Str("DEV"),
    "confluence_page_id" := Null,
    "confluence_mode" := Str("space_pages"),
    "confluence_max_results" := Num(10)]

  /** `Object.assign({}, defaults, settings)`: every setting the file gives wins over its default. */
  function MergeConfig(settings: Config): (c: Config)
    ensures c.Keys == DEFAULTS.Keys + settings.Keys
    ensures forall k | k in settings :: c[k] == settings[k]
    ensures forall k | k in DEFAULTS && k !in settings :: c[k] == DEFAULTS[k]
  {
    DEFAULTS + settings
  }

  /** `config.key`: a field of the configuration, `undefined` when it has none. */
  function Setting(config: Config, key: string): (v: Value)
    ensures key in config ==> v == config[key]
    ensures key !in config ==> v == Undefined
  {
    Get(Obj(config), key)
  }

  /** The local CORS proxy every request goes through. */
  const PROXY := "http://127.0.0.1:41417/https://"
  const ISSUE_FIELDS: seq<string> := ["summary", "status", "issuetype", "assignee", "duedate"]
  const PAGE_EXPAND := "version,space,history.lastUpdated,body.storage"
  const LISTING_EXPAND := "version,space,history.lastUpdated"

  /** `${config.jira_domain}`: the domain as a template literal prints it. */
  function Domain(config: Config): string {
    ToStr(Setting(config, "jira_domain"))
  }

  /** `new URLSearchParams(params)`: each field in order, its value converted with `String`. */
  function Query(params: seq<(string, Value)>): (q: seq<(string, string)>)
    ensures |q| == |params|
    ensures forall i | 0 <= i < |params| :: q[i] == (params[i].0, ToStr(params[i].1))
  {
    seq(|params|, i requires 0 <= i < |params| => (params[i].0, ToStr(params[i].1)))
  }

  /** The value of the first field named `key`, if any. */
  function Lookup(q: seq<(string, string)>, key: string): (r: Option<string>)
    ensures r.Some? ==> exists i | 0 <= i < |q| :: q[i] == (key, r.value)
    ensures r.None? ==> forall i | 0 <= i < |q| :: q[i].0 != key
    decreases |q|
  {
    if q == [] then None
    else if q[0].0 == key then Some(q[0].1)
    else
      var r := Lookup(q[1..], key);
      assert forall i | 1 <= i < |q| :: q[i] == q[1..][i - 1];
      r
  }

  /** Dropping the first field of the parameters drops the first field of the query. */
  lemma QueryTail(params: seq<(string, Value)>)
    requires |params| > 0
    ensures Query(params)[1..] == Query(params[1..])
  {
  }

  /** Looking a key up in the query gives the `String` of the value of the first field with that key. */
  lemma {:induction false} QueryLookup(params: seq<(string, Value)>, key: string, i: nat)
    requires i < |params| && params[i].0 == key
    requires forall j | 0 <= j < i :: params[j].0 != key
    ensures Lookup(Query(params), key) == Some(ToStr(params[i].1))
    decreases i
  {
    if i > 0 {
      QueryTail(params);
      assert params[0].0 != key;
      QueryLookup(params[1..], key, i - 1);
    }
  }

  /** Looking a key up in the query finds nothing exactly when no field has that key. */
  lemma {:induction false} QueryLookupNone(params: seq<(string, Value)>, key: string)
    ensures Lookup(Query(params), key).None? <==> forall j | 0 <= j < |params| :: params[j].0 != key
    decreases |params|
  {
    if |params| > 0 {
      QueryTail(params);
      QueryLookupNone(params[1..], key);
      if params[0].0 != key {
        assert forall j | 1 <= j < |params| :: params[j] == params[1..][j - 1];
      }
    }
  }

  // ---------------------------------------------------------------------------
  // JIRA

  /** The issue fields asked for, joined with commas. */
  lemma IssueFieldsJoined()
    ensures Join(ISSUE_FIELDS, ",") == "summary,status,issuetype,assignee,duedate"
  {
    JoinFive(ISSUE_FIELDS, ",");
    var s := "summary" + "," + "status";
    assert s == "summary,status";
    s := s + "," + "issuetype";
    assert s == "summary,status,issuetype";
    s := s + "," + "assignee";
    assert s == "summary,status,issuetype,assignee";
    s := s + "," + "duedate";
    assert s == "summary,status,issuetype,assignee,duedate";
  }

  lemma JoinFive(xs: seq<string>, sep: string)
    requires |xs| == 5
    ensures Join(xs, sep) == xs[0] + sep + xs[1] + sep + xs[2] + sep + xs[3] + sep + xs[4]
  {
    var t := xs[1..];
    assert t[0] == xs[1] && t[1..][0] == xs[2] && t[1..][1..][0] == xs[3] && t[1..][1..][1..] == [xs[4]];
    assert Join(t[1..][1..], sep) == xs[3] + sep + xs[4];
    assert Join(t[1..], sep) == xs[2] + sep + xs[3] + sep + xs[4];
    assert Join(t, sep) == xs[1] + sep + xs[2] + sep + xs[3] + sep + xs[4];
  }

  function JiraBase(config: Config): string {
    PROXY + Domain(config) + "/rest/api/3/search/jql"
  }

  /** The search parameters: the saved filter, the page window and five issue fields. */
  function JiraParams(config: Config): (ps: seq<(string, Value)>)
    ensures |ps| == 4
    ensures ps[0] == ("jql", Str("filter = " + ToStr(Setting(config, "jira_filter"))))
    ensures ps[1] == ("startAt", Setting(config, "startAt")) && ps[2] == ("maxResults", Setting(config, "maxResults"))
    ensures ps[3] == ("fields", Str("summary,status,issuetype,assignee,duedate"))
  {
    IssueFieldsJoined();
    [("jql", Str("filter = " + ToStr(Setting(config, "jira_filter")))),
     ("startAt", Setting(config, "startAt")),
     ("maxResults", Setting(config, "maxResults")),
     ("fields", Str(Join(ISSUE_FIELDS, ",")))]
  }

  // ---------------------------------------------------------------------------
  // Confluence

  /** One page by id: the mode is exactly `'specific_page'` and the page id is truthy. */
  predicate IsSpecificPage(config: Config) {
    Setting(config, "confluence_mode") == Str("specific_page") && Truthy(Setting(config, "confluence_page_id"))
  }

  function ContentBase(config: Config): string {
    PROXY + Domain(config) + "/wiki/rest/api/content"
  }

  /** The content URL: the page's own URL for one page, the content collection otherwise. */
  function ConfluenceBase(config: Config): (u: string)
    ensures IsSpecificPage(config) ==> u == ContentBase(config) + "/" + ToStr(Setting(config, "confluence_page_id"))
    ensures !IsSpecificPage(config) ==> u == ContentBase(config)
  {
    if IsSpecificPage(config) then ContentBase(config) + "/" + ToStr(Setting(config, "confluence_page_id"))
    else ContentBase(config)
  }

  /**
   * Both requests go through the local proxy to the configured domain; the
   * single-page URL is the listing URL followed by `/` and the page id, and
   * the listing URL itself is used exactly when no single page is asked for.
   */
  lemma ConfluenceUrlShape(config: Config)
    ensures PROXY + Domain(config) <= JiraBase(config) && PROXY + Domain(config) <= ConfluenceBase(config)
    ensures ContentBase(config) <= ConfluenceBase(config)
    ensures IsSpecificPage(config) ==>
      ConfluenceBase(config)[|ContentBase(config)|..] == "/" + ToStr(Setting(config, "confluence_page_id"))
    ensures ConfluenceBase(config) == ContentBase(config) <==> !IsSpecificPage(config)
  {
    var pre := PROXY + Domain(config);
    Extends(pre, "/rest/api/3/search/jql");
    Extends(pre, "/wiki/rest/api/content");
    var tail := "/" + ToStr(Setting(config, "confluence_page_id"));
    Extends(ContentBase(config), tail);
    PrefixTrans(pre, ContentBase(config), ConfluenceBase(config));
  }

  /** A text extended by a suffix starts with the text and continues with the suffix. */
  lemma Extends(a: string, b: string)
    ensures a <= a + b && (a + b)[|a|..] == b && |a + b| == |a| + |b|
  { }

  lemma PrefixTrans(a: string, b: string, c: string)
    requires a <= b && b <= c
    ensures a <= c
  {
    assert c[..|a|] == c[..|b|][..|a|];
  }

  /**
   * The content parameters: one page asks only for its expansions, body
   * included; the listing asks for a space's pages, newest first, up to a
   * limit, without bodies.
   */
  function ConfluenceParams(config: Config): (ps: seq<(string, Value)>)
    ensures IsSpecificPage(config) <==> |ps| == 1
    ensures IsSpecificPage(config) ==> ps == [("expand", Str(PAGE_EXPAND))]
    ensures !IsSpecificPage(config) ==> ps == [
      ("spaceKey", Setting(config, "confluence_space_key")),
      ("limit", Setting(config, "confluence_max_results")),
      ("expand", Str(LISTING_EXPAND)),
      ("orderby", Str("history.lastUpdated desc")),
      ("type", Str("page"))]
  {
    if IsSpecificPage(config) then [("expand", Str(PAGE_EXPAND))]
    else [
      ("spaceKey", Setting(config, "confluence_space_key")),
      ("limit", Setting(config, "confluence_max_results")),
      ("expand", Str(LISTING_EXPAND)),
      ("orderby", Str("history.lastUpdated desc")),
      ("type", Str("page"))]
  }

  /** Page bodies are asked for exactly when a single page is fetched: the listing never brings a body. */
  lemma BodyOnlyForSinglePage(config: Config)
    ensures var expand := Lookup(Query(ConfluenceParams(config)), "expand");
      && expand.Some?
      && (Contains(expand.value, "body.storage", false) <==> IsSpecificPage(config))
  {
    var q := Query(ConfluenceParams(config));
    if IsSpecificPage(config) {
      assert q[0] == ("expand", PAGE_EXPAND);
      PageExpandHasBody(PAGE_EXPAND);
    } else {
      assert q[0].0 != "expand" && q[1].0 != "expand" && q[2] == ("expand", LISTING_EXPAND);
      assert q[1..][1..][0] == q[2];
      ListingExpandHasNoBody(LISTING_EXPAND);
    }
  }

  lemma PageExpandHasBody(s: string)
    requires s == PAGE_EXPAND
    ensures Contains(s, "body.storage", false)
  {
    assert s[34..34 + |"body.storage"|] == "body.storage";
    IncludesAt(s, "body.storage", 34);
  }

  lemma ListingExpandHasNoBody(s: string)
    requires s == LISTING_EXPAND
    ensures !Contains(s, "body.storage", false)
  {
    assert 'b' !in s;
    NotContains(s, "body.storage", 0);
  }

  // ---------------------------------------------------------------------------
  // Authorisation

  /** The headers of every request: a Basic authorisation header when both credentials are truthy, none otherwise. */
  function AuthHeaders(config: Config, btoa: string -> string): (h: Option<map<string, string>>)
    ensures h.Some? <==> Truthy(Setting(config, "username")) && Truthy(Setting(config, "password"))
    ensures h.Some? ==> h.value.Keys == {"Authorization"}
  {
    var user := Setting(config, "username");
    var password := Setting(config, "password");
    if Truthy(user) && Truthy(password) then
      Some(map["Authorization" := "Basic " + btoa(ToStr(user) + ":" + ToStr(password))])
    else None
  }

  /**
   * For truthy credentials of any kind, the header is `Basic ` followed by the
   * encoding of `username:password`, each printed as a template literal
   * prints it; string credentials appear as they are.
   */
  lemma AuthHeaderValue(config: Config, btoa: string -> string, user: Value, password: Value)
    requires Setting(config, "username") == user && Setting(config, "password") == password
    requires Truthy(user) && Truthy(password)
    ensures AuthHeaders(config, btoa) == Some(map["Authorization" := "Basic " + btoa(ToStr(user) + ":" + ToStr(password))])
    ensures user.Str? && password.Str? ==>
      AuthHeaders(config, btoa) == Some(map["Authorization" := "Basic " + btoa(user.s + ":" + password.s)])
  {
  }

  // ---------------------------------------------------------------------------
  // Building the requests

  /** A `URL` object: the address it was built from and the query its `search` was last set to. */
  class Url {
    var base: string
    var search: seq<(string, string)>

    constructor(base: string)
      ensures this.base == base && search == []
    {
      this.base := base;
      search := [];
    }

    /** `url.search = params`. */
    method SetSearch(params: seq<(string, string)>)
      modifies this
      ensures base == old(base) && search == params
    {
      search := params;
    }
  }

  /** The `opts` object handed to `fetch`. */
  class RequestOptions {
    var headers: Option<map<string, string>>

    constructor()
      ensures headers.None?
    {
      headers := None;
    }

    /** `opts.headers = headers`. */
    method SetHeaders(headers: map<string, string>)
      modifies this
      ensures this.headers == Some(headers)
    {
      this.headers := Some(headers);
    }
  }

  /** The JIRA search URL and its query. */
  method JiraSetup(config: Config) returns (jiraUrl: Url)
    ensures fresh(jiraUrl)
    ensures jiraUrl.base == JiraBase(config) && jiraUrl.search == Query(JiraParams(config))
  {
    jiraUrl := new Url(JiraBase(config));
    var params := [
      ("jql", Str("filter = " + ToStr(Setting(config, "jira_filter")))),
      ("startAt", Setting(config, "startAt")),
      ("maxResults", Setting(config, "maxResults")),
      ("fields", Str(Join(ISSUE_FIELDS, ",")))];
    assert params == JiraParams(config);
    jiraUrl.SetSearch(Query(params));
  }

  /** The content URL chosen by mode, and its query. */
  method ConfluenceSetup(config: Config) returns (confluenceUrl: Url)
    ensures fresh(confluenceUrl)
    ensures confluenceUrl.base == ConfluenceBase(config) && confluenceUrl.search == Query(ConfluenceParams(config))
  {
    var confluenceParams: seq<(string, Value)> := [];
    if Setting(config, "confluence_mode") == Str("specific_page") && Truthy(Setting(config, "confluence_page_id")) {
      confluenceUrl := new Url(ContentBase(config) + "/" + ToStr(Setting(config, "confluence_page_id")));
      confluenceParams := [("expand", Str(PAGE_EXPAND))];
    } else {
      confluenceUrl := new Url(ContentBase(config));
      confluenceParams := [
        ("spaceKey", Setting(config, "confluence_space_key")),
        ("limit", Setting(config, "confluence_max_results")),
        ("expand", Str(LISTING_EXPAND)),
        ("orderby", Str("history.lastUpdated desc")),
        ("type", Str("page"))];
    }
    assert confluenceParams == ConfluenceParams(config);
    confluenceUrl.SetSearch(Query(confluenceParams));
  }

  /** The options object, authorised when both credentials are truthy. */
  method OptionsSetup(config: Config, btoa: string -> string) returns (opts: RequestOptions)
    ensures fresh(opts)
    ensures opts.headers == AuthHeaders(config, btoa)
  {
    opts := new RequestOptions();
    var user := Setting(config, "username");
    var password := Setting(config, "password");
    if Truthy(user) && Truthy(password) {
      var auth := btoa(ToStr(user) + ":" + ToStr(password));
      opts.SetHeaders(map["Authorization" := "Basic " + auth]);
    }
  }

  /**
   * The module-level request setup: the JIRA URL and its query, the content
   * URL chosen by mode and its query, and the shared options object,
   * authorised when both credentials are set.
   */
  method Setup(config: Config, btoa: string -> string) returns (jiraUrl: Url, confluenceUrl: Url, opts: RequestOptions)
    ensures fresh(jiraUrl) && fresh(confluenceUrl) && fresh(opts) && jiraUrl != confluenceUrl
    ensures jiraUrl.base == JiraBase(config) && jiraUrl.search == Query(JiraParams(config))
    ensures confluenceUrl.base == ConfluenceBase(config) && confluenceUrl.search == Query(ConfluenceParams(config))
    ensures opts.headers == AuthHeaders(config, btoa)
  {
    jiraUrl := JiraSetup(config);
    confluenceUrl := ConfluenceSetup(config);
    opts := OptionsSetup(config, btoa);
  }

  /** The listing query names the configured space and limit. */
  lemma ListingQuery(config: Config)
    requires !IsSpecificPage(config)
    ensures Lookup(Query(ConfluenceParams(config)), "spaceKey") == Some(ToStr(Setting(config, "confluence_space_key")))
    ensures Lookup(Query(ConfluenceParams(config)), "limit") == Some(ToStr(Setting(config, "confluence_max_results")))
  {
    var q := Query(ConfluenceParams(config));
    assert q[0].0 == "spaceKey" && q[1].0 == "limit";
    assert q[1..][0].0 == "limit";
  }

  /** The search query names the configured page window. */
  lemma JiraQueryWindow(config: Config)
    ensures Lookup(Query(JiraParams(config)), "startAt") == Some(ToStr(Setting(config, "startAt")))
    ensures Lookup(Query(JiraParams(config)), "maxResults") == Some(ToStr(Setting(config, "maxResults")))
  {
    var q := Query(JiraParams(config));
    assert q[0].0 == "jql" && q[1].0 == "startAt" && q[2].0 == "maxResults";
    assert q[1..][0].0 == "startAt";
    assert q[1..][1..][0].0 == "maxResults";
  }

  /** With no settings beyond the domain and filter, the widget lists ten pages of space `DEV` and fetches twenty issues from the first. */
  lemma DefaultRequests(settings: Config)
    requires forall k | k in DEFAULTS :: k !in settings
    ensures var config := MergeConfig(settings);
      && !IsSpecificPage(config)
      && Lookup(Query(ConfluenceParams(config)), "spaceKey") == Some("DEV")
      && Lookup(Query(ConfluenceParams(config)), "limit") == Some("10")
      && Lookup(Query(JiraParams(config)), "startAt") == Some("0")
      && Lookup(Query(JiraParams(config)), "maxResults") == Some("20")
  {
    var config := MergeConfig(settings);
    DefaultSettings(settings, config);
    ListingQuery(config);
    JiraQueryWindow(config);
    TwoDigits();
  }

  lemma DefaultSettings(settings: Config, config: Config)
    requires forall k | k in DEFAULTS :: k !in settings
    requires config == MergeConfig(settings)
    ensures Setting(config, "confluence_page_id") == Null
    ensures Setting(config, "confluence_space_key") == Str("DEV")
    ensures Setting(config, "confluence_max_results") == Num(10)
    ensures Setting(config, "startAt") == Num(0) && Setting(config, "maxResults") == Num(20)
  {
    assert "confluence_page_id" in DEFAULTS && "confluence_space_key" in DEFAULTS;
    assert "confluence_max_results" in DEFAULTS && "startAt" in DEFAULTS && "maxResults" in DEFAULTS;
  }

  lemma TwoDigits()
    ensures ToStr(Num(10)) == "10" && ToStr(Num(20)) == "20" && ToStr(Num(0)) == "0" && ToStr(Str("DEV")) == "DEV"
  {
    assert NatToDecimal(1) == "1" && NatToDecimal(2) == "2";
  }

  // ---------------------------------------------------------------------------
  // Settled branches

  /**
   * How a fetch settled: rejected (network failure or a body that is not
   * JSON), or answered with a status and, when `ok`, the decoded body.
   */
  datatype FetchOutcome =
    | Rejected(error: Value)
    | Answered(ok: bool, status: nat, statusText: string, json: Value)

  /** `Error(`${origin}: ${status} ${statusText} - ${url}`)`. */
  function HttpError(origin: string, status: nat, statusText: string, href: string): (e: Value)
    ensures e.Obj? && "message" in e.props && e.props["message"].Str?
  {
    Obj(map["message" := Str(origin + ": " + NatToDecimal(status) + " " + statusText + " - " + href)])
  }

  /** The JIRA branch: the decoded issues, or the error it settled with. `href` is the URL as a string. */
  function JiraBranch(outcome: FetchOutcome, href: string): (b: BranchResult)
    ensures outcome.Answered? && outcome.ok ==> b == BranchResult(outcome.json, Undefined)
    ensures outcome.Answered? && !outcome.ok ==>
      (b.data == Undefined && ErrorMessage(b) == Str("JIRA: " + NatToDecimal(outcome.status) + " " + outcome.statusText + " - " + href))
    ensures outcome.Rejected? ==> b == BranchResult(Undefined, outcome.error)
  {
    match outcome
    case Rejected(error) => BranchResult(Undefined, error)
    case Answered(ok, status, statusText, json) =>
      if ok then BranchResult(json, Undefined)
      else BranchResult(Undefined, HttpError("JIRA", status, statusText, href))
  }

  /**
   * The logging step in the Confluence branch reads `data.body`, and when the
   * body has a truthy `storage` calls `match` on its `value`: it throws on
   * nullish data and on a storage value that is not a string.
   */
  predicate DebugScanThrows(data: Value) {
    Nullish(data) ||
    (var body := Get(data, "body");
     Truthy(body) && Truthy(Get(body, "storage")) && !Get(Get(body, "storage"), "value").Str?)
  }

  /**
   * The Confluence branch: empty results when Confluence is disabled; the
   * error it settled with; otherwise the decoded data, wrapped as
   * `{results: [data]}` for a single page. `typeError` is the exception the
   * logging step throws.
   */
  function ConfluenceBranch(config: Config, outcome: FetchOutcome, href: string, typeError: Value): (b: BranchResult)
    ensures !Truthy(Setting(config, "confluence_enabled")) ==> b == BranchResult(EMPTY_RESULTS, Undefined)
    ensures Truthy(Setting(config, "confluence_enabled")) && outcome.Answered? && outcome.ok && !DebugScanThrows(outcome.json) ==>
      b.error == Undefined &&
      (IsSpecificPage(config) ==> b.data == Obj(map["results" := Arr([outcome.json])])) &&
      (!IsSpecificPage(config) ==> b.data == outcome.json)
    ensures Truthy(Setting(config, "confluence_enabled")) && outcome.Answered? && !outcome.ok ==>
      (b.data == Undefined && ErrorMessage(b) == Str("Confluence: " + NatToDecimal(outcome.status) + " " + outcome.statusText + " - " + href))
    ensures Truthy(Setting(config, "confluence_enabled")) && outcome.Answered? && outcome.ok && DebugScanThrows(outcome.json) ==>
      b == BranchResult(Undefined, typeError)
    ensures Truthy(Setting(config, "confluence_enabled")) && outcome.Rejected? ==> b == BranchResult(Undefined, outcome.error)
  {
    if !Truthy(Setting(config, "confluence_enabled")) then BranchResult(EMPTY_RESULTS, Undefined)
    else
      match outcome
      case Rejected(error) => BranchResult(Undefined, error)
      case Answered(ok, status, statusText, json) =>
        if !ok then BranchResult(Undefined, HttpError("Confluence", status, statusText, href))
        else if DebugScanThrows(json) then BranchResult(Undefined, typeError)
        else if IsSpecificPage(config) then BranchResult(Obj(map["results" := Arr([json])]), Undefined)
        else BranchResult(json, Undefined)
  }

  /** With Confluence disabled, a refresh leaves empty page results and no Confluence error in the state. */
  lemma DisabledRefresh(config: Config, jira: BranchResult, outcome: FetchOutcome, href: string, typeError: Value, previous: Option<State>)
    requires !Truthy(Setting(config, "confluence_enabled"))
    ensures var r := UpdateState(RefreshEvent(jira, ConfluenceBranch(config, outcome, href, typeError), false), previous);
      r["confluence"] == EMPTY_RESULTS && r["confluenceError"] == Null && r["activeTab"] == Str("jira")
  {
    var c := ConfluenceBranch(config, outcome, href, typeError);
    FetchSucceededFields(jira, c, Str("jira"), previous);
    FetchSucceededTab(jira, c, Str("jira"), previous);
  }

  /**
   * A single page asked for by id reaches the state as the only element of
   * its results: a page object without a body passes the logging step and
   * is stored as `{results: [page]}`, with no Confluence error.
   */
  lemma SinglePageReachesState(config: Config, jira: BranchResult, page: map<string, Value>, status: nat, statusText: string,
                               href: string, typeError: Value, previous: Option<State>)
    requires Truthy(Setting(config, "confluence_enabled")) && IsSpecificPage(config)
    requires "body" !in page
    ensures var c := ConfluenceBranch(config, Answered(true, status, statusText, Obj(page)), href, typeError);
      var r := UpdateState(RefreshEvent(jira, c, true), previous);
      r["confluence"] == Obj(map["results" := Arr([Obj(page)])]) && r["confluenceError"] == Null
  {
    var c := ConfluenceBranch(config, Answered(true, status, statusText, Obj(page)), href, typeError);
    FetchSucceededFields(jira, c, Str("confluence"), previous);
  }
}
