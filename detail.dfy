/**
 * Every section's detail page resolves its record with
 * `DATA.find(p => p.id === routeId) ?? null`, where `routeId` is the route's
 * `:id` parameter, or null when the route has none.
 */
module Detail {
  import opened Wrappers
  import opened Catalog
  import opened CatalogData

  /** `p.id === routeId`: exact string equality, and never true of a null id. */
  predicate Matches(p: PatternItem, routeId: Option<string>)
    ensures routeId.None? ==> !Matches(p, routeId)
  {
    routeId == Some(p.id)
  }

  /** `i` is the first position whose record matches. */
  predicate FirstMatchAt(items: seq<PatternItem>, routeId: Option<string>, i: int) {
    0 <= i < |items| && Matches(items[i], routeId) &&
    forall j :: 0 <= j < i ==> !Matches(items[j], routeId)
  }

  /** `items.find(p => p.id === routeId) ?? null`: the first matching record, or none. */
  function Find(items: seq<PatternItem>, routeId: Option<string>): (r: Option<PatternItem>)
    ensures r.None? <==> forall i :: 0 <= i < |items| ==> !Matches(items[i], routeId)
    ensures r.Some? ==> exists i :: FirstMatchAt(items, routeId, i) && items[i] == r.value
  {
    if |items| == 0 then None
    else if Matches(items[0], routeId) then
      assert FirstMatchAt(items, routeId, 0);
      Some(items[0])
    else
      var r := Find(items[1..], routeId);
      assert r.Some? ==> exists i :: FirstMatchAt(items, routeId, i) && items[i] == r.value by {
        if r.Some? {
          var k :| FirstMatchAt(items[1..], routeId, k) && items[1..][k] == r.value;
          assert FirstMatchAt(items, routeId, k + 1);
        }
      }
      r
  }

  /** A route without an id resolves to nothing. */
  lemma AbsentIdResolvesToNull(items: seq<PatternItem>)
    ensures Find(items, None) == None
  {
  }

  /** The first record's own id resolves to that record. */
  lemma FirstRecordResolves(items: seq<PatternItem>)
    requires |items| > 0
    ensures Find(items, Some(items[0].id)) == Some(items[0])
  {
  }

  /** With duplicate ids, the earliest record wins. */
  lemma EarliestDuplicateWins(items: seq<PatternItem>, i: int, j: int)
    requires 0 <= i < j < |items| && items[i].id == items[j].id
    requires forall k :: 0 <= k < i ==> items[k].id != items[i].id
    ensures Find(items, Some(items[j].id)) == Some(items[i])
  {
    var routeId := Some(items[j].id);
    assert Matches(items[i], routeId);
    var r := Find(items, routeId);
    assert r.Some?;
    var k :| FirstMatchAt(items, routeId, k) && items[k] == r.value;
    assert k == i by {
      assert !(k < i) && !(i < k);
    }
  }

  /** Matching is exact: an id that differs from every record's id, even only in case, finds nothing. */
  lemma NoNormalisation(items: seq<PatternItem>, routeId: string)
    requires forall i :: 0 <= i < |items| ==> items[i].id != routeId
    ensures Find(items, Some(routeId)) == None
  {
  }

  /**
   * What every detail component promises about the section it reads, stated
   * over the section's JSON entries: a record is found exactly when some
   * entry has the route id, and then it is the record at the first position
   * whose id matches.
   */
  ghost predicate ResolvesOver(json: seq<RawEntry>, data: seq<PatternItem>,
                               routeId: Option<string>, r: Option<PatternItem>)
  {
    (r.Some? <==> routeId.Some? && exists i :: 0 <= i < |json| && json[i].id == routeId.value) &&
    (forall i :: FirstMatchAt(data, routeId, i) ==> r == Some(data[i]))
  }

  /** `Find` over a normalised section, related to the JSON it came from. */
  lemma FindOverSection(json: seq<RawEntry>, joined: Joined, routeId: Option<string>)
    requires AllFit(json, joined)
    ensures ResolvesOver(json, NormalizeAll(json, joined), routeId, Find(NormalizeAll(json, joined), routeId))
  {
  }

  /** `PatternsDetailPageComponent.item`. */
  function PatternsDetailItem(json: seq<RawEntry>, routeId: Option<string>): (r: Option<PatternItem>)
    ensures ResolvesOver(json, Patterns(json), routeId, r)
  {
    FindOverSection(json, TsAndHtml, routeId);
    Find(Patterns(json), routeId)
  }

  /** `ClassicPatternDetailComponent.item`. */
  function ClassicPatternDetailItem(json: seq<RawEntry>, routeId: Option<string>): (r: Option<PatternItem>)
    requires AllFit(json, TsOnly)
    ensures ResolvesOver(json, ClassicPatterns(json), routeId, r)
  {
    FindOverSection(json, TsOnly, routeId);
    Find(ClassicPatterns(json), routeId)
  }

  /** `ReactivePrincipleDetailComponent.item`. */
  function ReactivePrincipleDetailItem(json: seq<RawEntry>, routeId: Option<string>): (r: Option<PatternItem>)
    ensures ResolvesOver(json, ReactivePrinciples(json), routeId, r)
  {
    FindOverSection(json, TsAndHtml, routeId);
    Find(ReactivePrinciples(json), routeId)
  }

  /** `FrontendArchitecturePrincipleDetailComponent.item`. */
  function FrontendArchitecturePrincipleDetailItem(json: seq<RawEntry>, routeId: Option<string>): (r: Option<PatternItem>)
    requires AllFit(json, TsOnly)
    ensures ResolvesOver(json, FrontendArchPrinciples(json), routeId, r)
  {
    FindOverSection(json, TsOnly, routeId);
    Find(FrontendArchPrinciples(json), routeId)
  }

  /** `CleanCodePrincipleDetailComponent.item`. */
  function CleanCodePrincipleDetailItem(json: seq<RawEntry>, routeId: Option<string>): (r: Option<PatternItem>)
    ensures ResolvesOver(json, CleanCodePrinciples(json), routeId, r)
  {
    FindOverSection(json, TsAndHtml, routeId);
    Find(CleanCodePrinciples(json), routeId)
  }

  /** `SolidPrincipleDetailComponent.item`. */
  function SolidPrincipleDetailItem(json: seq<RawEntry>, routeId: Option<string>): (r: Option<PatternItem>)
    requires AllFit(json, TsOnly)
    ensures ResolvesOver(json, SolidPrinciples(json), routeId, r)
  {
    FindOverSection(json, TsOnly, routeId);
    Find(SolidPrinciples(json), routeId)
  }

  /** `GraspPatternDetailComponent.item`. */
  function GraspPatternDetailItem(json: seq<RawEntry>, routeId: Option<string>): (r: Option<PatternItem>)
    requires AllFit(json, TsOnly)
    ensures ResolvesOver(json, GraspPatterns(json), routeId, r)
  {
    FindOverSection(json, TsOnly, routeId);
    Find(GraspPatterns(json), routeId)
  }
}
