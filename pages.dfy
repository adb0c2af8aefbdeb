/**
 * The fields the page list hands to each Confluence page: when it was last
 * updated and by whom, each taken from the first of several places the
 * content API may put it, and the space it belongs to.
 */
module Pages {
  import opened Js
  import opened Requests

  /** What a listed page shows besides its id, title and body. */
  datatype PageFacts = PageFacts(lastUpdated: Value, author: Value, spaceKey: Value)

  /** `page.history?.lastUpdated?.when`, `page.version?.when`, ... in the order they are tried. */
  function LastUpdatedCandidates(page: Value): (vs: seq<Value>)
    requires !Nullish(page)
    ensures |vs| == 5
  {
    [Path(Get(page, "history"), ["lastUpdated", "when"]),
     Path(Get(page, "version"), ["when"]),
     Path(Get(page, "history"), ["createdDate"]),
     Path(Get(page, "version"), ["createdDate"]),
     Get(page, "createdDate")]
  }

  /** The display names of the last editor, then of the creator, then `'Unknown'`. */
  function AuthorCandidates(page: Value): (vs: seq<Value>)
    requires !Nullish(page)
    ensures |vs| == 6 && vs[5] == Str("Unknown")
  {
    [Path(Get(page, "history"), ["lastUpdated", "by", "displayName"]),
     Path(Get(page, "version"), ["by", "displayName"]),
     Path(Get(page, "history"), ["createdBy", "displayName"]),
     Path(Get(page, "version"), ["createdBy", "displayName"]),
     Path(Get(page, "createdBy"), ["displayName"]),
     Str("Unknown")]
  }

  /**
   * The facts of one page: for each, the first truthy candidate, or the last
   * candidate when none is. The author is therefore never empty, and the
   * space falls back to the configured one.
   */
  function Facts(page: Value, config: Config): (r: PageFacts)
    requires !Nullish(page)
    ensures r.lastUpdated in LastUpdatedCandidates(page)
    ensures Truthy(r.lastUpdated) <==> exists k | 0 <= k < 5 :: Truthy(LastUpdatedCandidates(page)[k])
    ensures r.author in AuthorCandidates(page) && Truthy(r.author)
    ensures Truthy(Path(Get(page, "space"), ["key"])) ==> r.spaceKey == Path(Get(page, "space"), ["key"])
    ensures !Truthy(Path(Get(page, "space"), ["key"])) ==> r.spaceKey == Setting(config, "confluence_space_key")
  {
    var authors := AuthorCandidates(page);
    assert Truthy(authors[5]);
    PageFacts(
      OrAll(LastUpdatedCandidates(page)),
      OrAll(authors),
      Or(Path(Get(page, "space"), ["key"]), Setting(config, "confluence_space_key")))
  }

  /** The last-updated time is the first candidate that is truthy, in the order listed. */
  lemma LastUpdatedPriority(page: Value, config: Config, k: nat)
    requires !Nullish(page) && k < 5
    requires forall j | 0 <= j < k :: !Truthy(LastUpdatedCandidates(page)[j])
    requires Truthy(LastUpdatedCandidates(page)[k]) || k == 4
    ensures Facts(page, config).lastUpdated == LastUpdatedCandidates(page)[k]
  {
    OrAllPicksFirstTruthy(LastUpdatedCandidates(page), k);
  }

  /** The author is the first candidate name that is truthy, in the order listed. */
  lemma AuthorPriority(page: Value, config: Config, k: nat)
    requires !Nullish(page) && k < 6
    requires forall j | 0 <= j < k :: !Truthy(AuthorCandidates(page)[j])
    requires Truthy(AuthorCandidates(page)[k])
    ensures Facts(page, config).author == AuthorCandidates(page)[k]
  {
    OrAllPicksFirstTruthy(AuthorCandidates(page), k);
  }

  /** A page whose history records its last update shows that time and that editor, whatever its version says. */
  lemma HistoryWins(page: Value, config: Config)
    requires !Nullish(page)
    requires Truthy(Path(Get(page, "history"), ["lastUpdated", "when"]))
    requires Truthy(Path(Get(page, "history"), ["lastUpdated", "by", "displayName"]))
    ensures Facts(page, config).lastUpdated == Path(Get(page, "history"), ["lastUpdated", "when"])
    ensures Facts(page, config).author == Path(Get(page, "history"), ["lastUpdated", "by", "displayName"])
  {
    LastUpdatedPriority(page, config, 0);
    AuthorPriority(page, config, 0);
  }

  /** A page with no history, no version and no creator shows `'Unknown'` as its author. */
  lemma UnknownAuthor(page: map<string, Value>, config: Config)
    requires "history" !in page && "version" !in page && "createdBy" !in page
    ensures Facts(Obj(page), config).author == Str("Unknown")
  {
    PathThroughNullish(Undefined, ["lastUpdated", "by", "displayName"]);
    PathThroughNullish(Undefined, ["by", "displayName"]);
    PathThroughNullish(Undefined, ["createdBy", "displayName"]);
    PathThroughNullish(Undefined, ["displayName"]);
    AuthorPriority(Obj(page), config, 5);
  }
}
