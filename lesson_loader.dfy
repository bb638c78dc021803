/**
 * The lazy lesson loader: a per-section cache of record lists in front of
 * the static registry of section data, and the set of sections whose load
 * is in flight.  A load either hits the cache and changes nothing, or marks
 * the section as loading (`Begin`), reads the registry into the cache and
 * then always clears the mark (`Settle`).  The suspension point between the
 * two steps is where a caller can observe `IsLoading`.
 */
module LessonLoader {
  import opened Wrappers
  import opened Catalog
  import opened CatalogData

  /** The eight values `loadLessons` accepts. */
  datatype Section =
    | PatternsSection
    | ArchitectureSection
    | CleanCodeSection
    | FrontendArchitectureSection
    | GraspSection
    | ReactivePrinciplesSection
    | SolidSection
    | ClassicPatternsSection

  /** The string under which a section is cached and flagged. */
  function Key(s: Section): string
  {
    match s
    case PatternsSection => "patterns"
    case ArchitectureSection => "architecture"
    case CleanCodeSection => "clean-code"
    case FrontendArchitectureSection => "frontend-architecture"
    case GraspSection => "grasp"
    case ReactivePrinciplesSection => "reactive-principles"
    case SolidSection => "solid"
    case ClassicPatternsSection => "classic-patterns"
  }

  const SectionKeys: set<string> :=
    {"patterns", "architecture", "clean-code", "frontend-architecture",
     "grasp", "reactive-principles", "solid", "classic-patterns"}

  /** Distinct sections are cached under distinct keys, and these are all the keys. */
  lemma KeysAreDistinct(s: Section, t: Section)
    ensures Key(s) == Key(t) ==> s == t
    ensures Key(s) in SectionKeys
  {
  }

  /** Every key of the literal union is some section's key. */
  lemma SectionKeysAreKeys()
    ensures forall k :: k in SectionKeys ==> exists s :: Key(s) == k
  {
    assert Key(PatternsSection) == "patterns" && Key(ArchitectureSection) == "architecture";
    assert Key(CleanCodeSection) == "clean-code" && Key(FrontendArchitectureSection) == "frontend-architecture";
    assert Key(GraspSection) == "grasp" && Key(ReactivePrinciplesSection) == "reactive-principles";
    assert Key(SolidSection) == "solid" && Key(ClassicPatternsSection) == "classic-patterns";
  }

  const AllSections: set<Section> :=
    {PatternsSection, ArchitectureSection, CleanCodeSection, FrontendArchitectureSection,
     GraspSection, ReactivePrinciplesSection, SolidSection, ClassicPatternsSection}

  /** The eight sections are all there are. */
  lemma SectionCases(s: Section)
    ensures s in AllSections
  {
  }

  /** The JSON content of the seven catalog sections. */
  datatype Sources = Sources(
    patterns: seq<RawEntry>,
    cleanCode: seq<RawEntry>,
    frontendArchitecture: seq<RawEntry>,
    grasp: seq<RawEntry>,
    reactivePrinciples: seq<RawEntry>,
    solid: seq<RawEntry>,
    classicPatterns: seq<RawEntry>)
  {
    /** The content type-checks against the sections' data files. */
    predicate WellTyped() {
      AllFit(frontendArchitecture, TsOnly) && AllFit(grasp, TsOnly) &&
      AllFit(solid, TsOnly) && AllFit(classicPatterns, TsOnly)
    }
  }

  /** The JSON a section's data file reads; architecture has none. */
  function SectionJson(src: Sources, s: Section): seq<RawEntry>
  {
    match s
    case PatternsSection => src.patterns
    case ArchitectureSection => []
    case CleanCodeSection => src.cleanCode
    case FrontendArchitectureSection => src.frontendArchitecture
    case GraspSection => src.grasp
    case ReactivePrinciplesSection => src.reactivePrinciples
    case SolidSection => src.solid
    case ClassicPatternsSection => src.classicPatterns
  }

  /** Which snippets a section's data file joins. */
  function SectionJoined(s: Section): Joined
  {
    match s
    case PatternsSection => TsAndHtml
    case CleanCodeSection => TsAndHtml
    case ReactivePrinciplesSection => TsAndHtml
    case _ => TsOnly
  }

  /**
   * The registry entry of a section: one record per entry of its data file's
   * JSON, in order, each normalised as that file does; none for architecture.
   */
  function SectionData(src: Sources, s: Section): (r: seq<PatternItem>)
    requires src.WellTyped()
    ensures s == ArchitectureSection ==> r == []
    ensures AllFit(SectionJson(src, s), SectionJoined(s))
    ensures |r| == |SectionJson(src, s)|
    ensures forall i :: 0 <= i < |r| ==> r[i] == ToItem(SectionJson(src, s)[i], SectionJoined(s))
  {
    match s
    case PatternsSection => Patterns(src.patterns)
    case ArchitectureSection => []
    case CleanCodeSection => CleanCodePrinciples(src.cleanCode)
    case FrontendArchitectureSection => FrontendArchPrinciples(src.frontendArchitecture)
    case GraspSection => GraspPatterns(src.grasp)
    case ReactivePrinciplesSection => ReactivePrinciples(src.reactivePrinciples)
    case SolidSection => SolidPrinciples(src.solid)
    case ClassicPatternsSection => ClassicPatterns(src.classicPatterns)
  }

  /** `dataMap`: every section mapped to its records, architecture to none. */
  function Registry(src: Sources): (m: map<Section, seq<PatternItem>>)
    requires src.WellTyped()
    ensures forall s :: s in m && m[s] == SectionData(src, s)
    ensures m[ArchitectureSection] == []
  {
    var m := map s | s in AllSections :: SectionData(src, s);
    assert forall s :: s in m by {
      forall s ensures s in m {
        SectionCases(s);
      }
    }
    m
  }

  /** Why a load settled without data: the suspended step threw. */
  datatype LoadError = LoadFailed

  class LazyLessonLoader {
    /** Records already read from the registry, by section key. */
    var cache: map<string, seq<PatternItem>>
    /** Section keys whose load has been marked and not yet settled. */
    var loading: set<string>
    /** The static registry; never changes. */
    const dataMap: map<Section, seq<PatternItem>>

    /**
     * Every section has a registry entry, only sections are flagged, and only
     * sections are cached, each with its registry list.
     */
    ghost predicate Valid()
      reads this
    {
      (forall s :: s in dataMap) &&
      (forall k :: k in loading ==> exists s :: Key(s) == k) &&
      forall k :: k in cache ==> exists s :: Key(s) == k && cache[k] == dataMap[s]
    }

    constructor (src: Sources)
      requires src.WellTyped()
      ensures Valid() && dataMap == Registry(src)
      ensures cache == map[] && loading == {}
      ensures forall k :: !IsLoading(k)
    {
      dataMap := Registry(src);
      cache := map[];
      loading := {};
    }

    /**
     * `isLoading(feature)`: the feature's load has been marked and not
     * settled.  Any string may be asked; only a section's key is ever flagged.
     */
    function IsLoading(feature: string): (b: bool)
      reads this
      ensures Valid() && b ==> feature in SectionKeys
    {
      feature in loading
    }

    /**
     * The synchronous part of `loadLessons`: a cache hit returns the cached
     * list and changes nothing; a miss marks the feature as loading.
     */
    method Begin(feature: Section) returns (hit: Option<seq<PatternItem>>)
      requires Valid()
      modifies this
      ensures Valid() && cache == old(cache)
      ensures Key(feature) in cache ==>
                hit == Some(cache[Key(feature)]) && hit == Some(dataMap[feature]) &&
                loading == old(loading)
      ensures Key(feature) !in cache ==>
                hit == None && loading == old(loading) + {Key(feature)} && IsLoading(Key(feature))
    {
      var k := Key(feature);
      if k in cache {
        hit := Some(cache[k]);
      } else {
        loading := loading + {k};
        hit := None;
      }
    }

    /**
     * The part of `loadLessons` after the suspension.  When the step
     * completes (`completed`), the registry's list is cached and returned;
     * either way the `finally` block clears this feature's flag and no other.
     */
    method Settle(feature: Section, completed: bool) returns (r: Result<seq<PatternItem>, LoadError>)
      requires Valid()
      modifies this
      ensures Valid()
      ensures loading == old(loading) - {Key(feature)} && !IsLoading(Key(feature))
      ensures completed ==>
                r == Success(dataMap[feature]) &&
                cache == old(cache)[Key(feature) := dataMap[feature]]
      ensures !completed ==> r == Failure(LoadFailed) && cache == old(cache)
    {
      var k := Key(feature);
      if completed {
        var data := dataMap[feature];
        cache := cache[k := data];
        r := Success(data);
      } else {
        r := Failure(LoadFailed);
      }
      loading := loading - {k};
    }

    /** `loadLessons(feature)`, run to completion. */
    method LoadLessons(feature: Section, completed: bool) returns (r: Result<seq<PatternItem>, LoadError>)
      requires Valid()
      modifies this
      ensures Valid()
      ensures Key(feature) in old(cache) ==>
                r == Success(old(cache)[Key(feature)]) &&
                cache == old(cache) && loading == old(loading)
      ensures Key(feature) !in old(cache) ==>
                loading == old(loading) - {Key(feature)} &&
                (completed ==> r == Success(dataMap[feature]) &&
                               cache == old(cache)[Key(feature) := dataMap[feature]]) &&
                (!completed ==> r == Failure(LoadFailed) && cache == old(cache))
      ensures r.Success? ==> r.value == dataMap[feature]
    {
      var hit := Begin(feature);
      if hit.Some? {
        r := Success(hit.value);
      } else {
        r := Settle(feature, completed);
      }
    }
  }

  /**
   * A caller's view: once a section has loaded, a later load is a cache hit
   * that returns the identical list and changes neither the cache nor the
   * loading flags, whatever its suspended step would have done.
   */
  method LoadTwice(loader: LazyLessonLoader, feature: Section, firstCompletes: bool, secondCompletes: bool)
      returns (first: Result<seq<PatternItem>, LoadError>, second: Result<seq<PatternItem>, LoadError>)
    requires loader.Valid()
    modifies loader
    ensures loader.Valid()
    ensures first.Success? ==>
              second == first && first.value == loader.dataMap[feature] &&
              loader.cache == old(loader.cache)[Key(feature) := first.value] &&
              loader.loading == if Key(feature) in old(loader.cache) then old(loader.loading)
                                else old(loader.loading) - {Key(feature)}
  {
    first := loader.LoadLessons(feature, firstCompletes);
    second := loader.LoadLessons(feature, secondCompletes);
  }
}
