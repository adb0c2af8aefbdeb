/**
 * `updateState(event, previousState)`: the widget's reducer. Every case
 * builds a fresh object by spreading the previous state and overriding some
 * of its fields; the state is therefore a map from field names to values,
 * and the spread followed by overrides is a map override.
 */
module Reducer {
  import opened Base
  import opened Js

  /** The widget state as an object: its own fields and their values. */
  type State = map<string, Value>

  /**
   * A settled fetch branch, `{type, data}` or `{type, error}`: the field the
   * branch did not set reads as `undefined`. The `type` tag is not read by
   * the reducer.
   */
  datatype BranchResult = BranchResult(data: Value, error: Value)

  /** The events the reducer distinguishes by their `type` field; any other `type` is `Unrecognised`. */
  datatype Event =
    | FetchSucceeded(jira: BranchResult, confluence: BranchResult, activeTab: Value)
    | FetchFailed(error: Value)
    | SwitchTab(tab: Value)
    | Unrecognised

  /** `event.error.message` throws on a nullish error; every other event is always handled. */
  predicate Handled(event: Event) {
    event.FetchFailed? ==> !Nullish(event.error)
  }

  const EMPTY_ISSUES: Value := Obj(map["issues" := Arr([])])
  const EMPTY_RESULTS: Value := Obj(map["results" := Arr([])])
  const DEFAULT_TAB: Value := Str("confluence")

  /** The state an unrecognised event yields when there is no previous state. */
  const INITIAL: State := map["jira" := EMPTY_ISSUES, "confluence" := EMPTY_RESULTS, "activeTab" := DEFAULT_TAB]

  /** `...previousState`: the fields of the previous state, none when there is none. */
  function Spread(previous: Option<State>): (r: State)
    ensures previous.None? ==> r == map[]
    ensures previous.Some? ==> r == previous.value
  {
    if previous.Some? then previous.value else map[]
  }

  /** `previousState?.activeTab`. */
  function PreviousTab(previous: Option<State>): (r: Value)
    ensures previous.Some? && "activeTab" in previous.value ==> r == previous.value["activeTab"]
    ensures !(previous.Some? && "activeTab" in previous.value) ==> r == Undefined
  {
    match previous
    case None => Undefined
    case Some(s) => OptGet(Obj(s), "activeTab")
  }

  /** `branch.error ? branch.error.message : null`. */
  function ErrorMessage(branch: BranchResult): (r: Value)
    ensures !Truthy(branch.error) ==> r == Null
    ensures Truthy(branch.error) && branch.error.Obj? && "message" in branch.error.props ==> r == branch.error.props["message"]
  {
    if Truthy(branch.error) then Get(branch.error, "message") else Null
  }

  /** The fields each kind of event writes over the spread previous state. */
  function Written(event: Event): (r: set<string>)
    ensures event.Unrecognised? <==> r == {}
  {
    match event
    case FetchSucceeded(_, _, _) => {"jira", "confluence", "jiraError", "confluenceError", "activeTab"}
    case FetchFailed(_) => {"error"}
    case SwitchTab(_) => {"activeTab"}
    case Unrecognised => {}
  }

  /** The fields a recognised event writes, with their new values. */
  function Writes(event: Event, previous: Option<State>): (m: State)
    requires Handled(event) && !event.Unrecognised?
    ensures m.Keys == Written(event)
  {
    match event
    case FetchSucceeded(jira, confluence, activeTab) =>
      map[
        "jira" := Or(jira.data, EMPTY_ISSUES),
        "confluence" := Or(confluence.data, EMPTY_RESULTS),
        "jiraError" := ErrorMessage(jira),
        "confluenceError" := ErrorMessage(confluence),
        "activeTab" := OrAll([activeTab, PreviousTab(previous), DEFAULT_TAB])]
    case FetchFailed(error) => map["error" := Get(error, "message")]
    case SwitchTab(tab) => map["activeTab" := tab]
  }

  /** Spreading `base` and then writing `m`: the fields of both, those of `m` winning. */
  lemma OverrideFields(base: State, m: State)
    ensures (base + m).Keys == base.Keys + m.Keys
    ensures forall k | k in m :: (base + m)[k] == m[k]
    ensures forall k | k in base && k !in m :: (base + m)[k] == base[k]
  {
  }

  /**
   * The reducer. Each recognised event keeps every field of the previous
   * state it does not write and adds exactly the fields it writes; an
   * unrecognised event gives back the previous state, or the initial one.
   */
  function UpdateState(event: Event, previous: Option<State>): (r: State)
    requires Handled(event)
    ensures !event.Unrecognised? ==> r.Keys == Spread(previous).Keys + Written(event)
    ensures !event.Unrecognised? ==>
      forall k | k in Spread(previous) && k !in Written(event) :: r[k] == Spread(previous)[k]
    ensures event.Unrecognised? && previous.Some? ==> r == previous.value
    ensures event.Unrecognised? && previous.None? ==> r == INITIAL
  {
    if event.Unrecognised? then
      if previous.Some? then previous.value else INITIAL
    else
      OverrideFields(Spread(previous), Writes(event, previous));
      Spread(previous) + Writes(event, previous)
  }

  // ---------------------------------------------------------------------------
  // One event at a time

  /** A tab switch sets `activeTab` to the event's tab and changes no other field. */
  lemma SwitchTabOnlyTab(tab: Value, previous: Option<State>)
    ensures var r := UpdateState(SwitchTab(tab), previous);
      && r["activeTab"] == tab
      && (forall k | k in r && k != "activeTab" :: k in Spread(previous) && r[k] == Spread(previous)[k])
      && (forall k | k in Spread(previous) :: k in r)
  {
  }

  /** A failed fetch records the error's message under `error` and changes no other field. */
  lemma FetchFailedOnlyError(error: Value, previous: Option<State>)
    requires !Nullish(error)
    ensures var r := UpdateState(FetchFailed(error), previous);
      && r["error"] == Get(error, "message")
      && (forall k | k in r && k != "error" :: k in Spread(previous) && r[k] == Spread(previous)[k])
      && (forall k | k in Spread(previous) :: k in r)
  {
  }

  /**
   * A successful fetch stores each branch's data, or its empty collection when
   * the branch has no data; each branch's error message, or `null`; and the
   * first truthy of the event's tab, the previous tab and `'confluence'`.
   */
  lemma FetchSucceededFields(jira: BranchResult, confluence: BranchResult, activeTab: Value, previous: Option<State>)
    ensures var r := UpdateState(FetchSucceeded(jira, confluence, activeTab), previous);
      && r["jira"] == (if Truthy(jira.data) then jira.data else EMPTY_ISSUES)
      && r["confluence"] == (if Truthy(confluence.data) then confluence.data else EMPTY_RESULTS)
      && r["jiraError"] == ErrorMessage(jira)
      && r["confluenceError"] == ErrorMessage(confluence)
      && Truthy(r["jira"]) && Truthy(r["confluence"])
  {
    var e := FetchSucceeded(jira, confluence, activeTab);
    OverrideFields(Spread(previous), Writes(e, previous));
  }

  /** The tab after a successful fetch: the event's, else the previous state's, else `'confluence'`; never falsy. */
  lemma FetchSucceededTab(jira: BranchResult, confluence: BranchResult, activeTab: Value, previous: Option<State>)
    ensures var tab := UpdateState(FetchSucceeded(jira, confluence, activeTab), previous)["activeTab"];
      && (Truthy(activeTab) ==> tab == activeTab)
      && (!Truthy(activeTab) && Truthy(PreviousTab(previous)) ==> tab == PreviousTab(previous))
      && (!Truthy(activeTab) && !Truthy(PreviousTab(previous)) ==> tab == DEFAULT_TAB)
      && Truthy(tab)
  {
    var vs := [activeTab, PreviousTab(previous), DEFAULT_TAB];
    if Truthy(activeTab) {
      OrAllPicksFirstTruthy(vs, 0);
    } else if Truthy(PreviousTab(previous)) {
      OrAllPicksFirstTruthy(vs, 1);
    } else {
      OrAllPicksFirstTruthy(vs, 2);
    }
  }

  /** A top-level error, once recorded, survives every later successful fetch: no case clears it. */
  lemma ErrorIsSticky(event: Event, s: State)
    requires Handled(event) && "error" in s && !event.FetchFailed?
    ensures "error" in UpdateState(event, Some(s))
    ensures UpdateState(event, Some(s))["error"] == s["error"]
  {
    if !event.Unrecognised? {
      OverrideFields(s, Writes(event, Some(s)));
    }
  }

  /** Switching to a tab twice is switching to it once. */
  lemma SwitchTabIdempotent(tab: Value, previous: Option<State>)
    ensures UpdateState(SwitchTab(tab), Some(UpdateState(SwitchTab(tab), previous)))
         == UpdateState(SwitchTab(tab), previous)
  {
  }

  /** An unrecognised event is the identity on states, and on no state gives the initial state. */
  lemma UnrecognisedKeepsState(previous: Option<State>)
    ensures previous.Some? ==> UpdateState(Unrecognised, previous) == previous.value
    ensures previous.None? ==> UpdateState(Unrecognised, previous) == INITIAL
    ensures UpdateState(Unrecognised, Some(UpdateState(Unrecognised, previous))) == UpdateState(Unrecognised, previous)
  {
  }

  // ---------------------------------------------------------------------------
  // The refresh cycle

  /**
   * The event a refresh dispatches once both branches have settled: the two
   * branch results and the tab the configuration prefers.
   */
  function RefreshEvent(jira: BranchResult, confluence: BranchResult, confluenceEnabled: bool): (e: Event)
    ensures e.FetchSucceeded? && e.jira == jira && e.confluence == confluence
    ensures Truthy(e.activeTab)
    ensures e.activeTab == Str(if confluenceEnabled then "confluence" else "jira")
  {
    FetchSucceeded(jira, confluence, Str(if confluenceEnabled then "confluence" else "jira"))
  }

  /**
   * The refresh always names a tab, so the tab a user switched to is
   * replaced on the next refresh by the configured one.
   */
  lemma RefreshOverridesSwitch(tab: Value, jira: BranchResult, confluence: BranchResult, enabled: bool, previous: Option<State>)
    ensures var switched := UpdateState(SwitchTab(tab), previous);
      UpdateState(RefreshEvent(jira, confluence, enabled), Some(switched))["activeTab"]
        == Str(if enabled then "confluence" else "jira")
  {
    var e := RefreshEvent(jira, confluence, enabled);
    FetchSucceededTab(jira, confluence, e.activeTab, Some(UpdateState(SwitchTab(tab), previous)));
  }
}
