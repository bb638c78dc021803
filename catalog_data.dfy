/**
 * Each section's data file maps the entries of its JSON content to catalog
 * records with `{ ...p, exampleTs: p.exampleTs?.join('\n'), ... }`: every
 * field is copied by the spread, and the snippet line arrays are joined.
 * Four sections join only `exampleTs`; three also join `exampleHtml`.
 */
module CatalogData {
  import opened Wrappers
  import opened Snippet
  import opened Catalog

  /** One entry of a section's JSON content, before normalisation. */
  datatype RawEntry = RawEntry(
    id: string,
    name: string,
    category: string,
    shortDescription: string,
    description: string,
    exampleTs: Option<seq<string>>,
    exampleHtml: Option<seq<string>>,
    letter: Option<string>,
    rating: Option<int>)

  /** Which snippet fields a section's data file joins. */
  datatype Joined = TsOnly | TsAndHtml

  /**
   * What a section's JSON must look like for its data file to type-check:
   * where only `exampleTs` is joined, the spread copies `exampleHtml` as it
   * is, and a line array there would not be a `string`.
   */
  predicate Fits(e: RawEntry, joined: Joined) {
    joined == TsAndHtml || e.exampleHtml.None?
  }

  predicate AllFit(json: seq<RawEntry>, joined: Joined) {
    forall i :: 0 <= i < |json| ==> Fits(json[i], joined)
  }

  /** `lines?.join('\n')`: absent stays absent, and the text splits back into its lines. */
  function JoinOptional(lines: Option<seq<string>>): (r: Option<string>)
    ensures r.Some? <==> lines.Some?
    ensures lines.Some? && |lines.value| >= 1 && AllSingleLine(lines.value) ==>
              Split(r.value) == lines.value
  {
    match lines
    case None => None
    case Some(ls) =>
      assert |ls| >= 1 && AllSingleLine(ls) ==> Split(Join(ls)) == ls by {
        if |ls| >= 1 && AllSingleLine(ls) { SplitJoin(ls); }
      }
      Some(Join(ls))
  }

  /** The record the spread-and-join expression builds from one JSON entry. */
  function ToItem(e: RawEntry, joined: Joined): (p: PatternItem)
    requires Fits(e, joined)
    ensures p.id == e.id && p.name == e.name && p.category == e.category
    ensures p.shortDescription == e.shortDescription && p.description == e.description
    ensures p.letter == e.letter && p.rating == e.rating
    ensures p.exampleTs == JoinOptional(e.exampleTs)
    ensures p.exampleHtml == JoinOptional(e.exampleHtml)
  {
    PatternItem(
      e.id, e.name, e.category, e.shortDescription, e.description,
      JoinOptional(e.exampleTs),
      if joined == TsAndHtml then JoinOptional(e.exampleHtml) else None,
      e.letter, e.rating)
  }

  /** `json.map(p => ...)`: one record per entry, in the same order. */
  function NormalizeAll(json: seq<RawEntry>, joined: Joined): (r: seq<PatternItem>)
    requires AllFit(json, joined)
    ensures |r| == |json|
    ensures forall i :: 0 <= i < |json| ==> r[i] == ToItem(json[i], joined)
  {
    if |json| == 0 then []
    else [ToItem(json[0], joined)] + NormalizeAll(json[1..], joined)
  }

  /** `PATTERNS`: joins `exampleTs` and `exampleHtml`. */
  function Patterns(json: seq<RawEntry>): (r: seq<PatternItem>)
    ensures |r| == |json|
    ensures forall i :: 0 <= i < |json| ==> r[i] == ToItem(json[i], TsAndHtml)
  {
    NormalizeAll(json, TsAndHtml)
  }

  /** `CLASSIC_PATTERNS`: joins `exampleTs`; `rating` goes through an unchecked cast. */
  function ClassicPatterns(json: seq<RawEntry>): (r: seq<PatternItem>)
    requires AllFit(json, TsOnly)
    ensures |r| == |json|
    ensures forall i :: 0 <= i < |json| ==>
              r[i] == ToItem(json[i], TsOnly) && r[i].rating == json[i].rating
  {
    NormalizeAll(json, TsOnly)
  }

  /** `REACTIVE_PRINCIPLES`: joins `exampleTs` and `exampleHtml`. */
  function ReactivePrinciples(json: seq<RawEntry>): (r: seq<PatternItem>)
    ensures |r| == |json|
    ensures forall i :: 0 <= i < |json| ==> r[i] == ToItem(json[i], TsAndHtml)
  {
    NormalizeAll(json, TsAndHtml)
  }

  /** `FRONTEND_ARCH_PRINCIPLES`: joins `exampleTs` only. */
  function FrontendArchPrinciples(json: seq<RawEntry>): (r: seq<PatternItem>)
    requires AllFit(json, TsOnly)
    ensures |r| == |json|
    ensures forall i :: 0 <= i < |json| ==> r[i] == ToItem(json[i], TsOnly)
  {
    NormalizeAll(json, TsOnly)
  }

  /** `CLEAN_CODE_PRINCIPLES`: joins `exampleTs` and `exampleHtml`. */
  function CleanCodePrinciples(json: seq<RawEntry>): (r: seq<PatternItem>)
    ensures |r| == |json|
    ensures forall i :: 0 <= i < |json| ==> r[i] == ToItem(json[i], TsAndHtml)
  {
    NormalizeAll(json, TsAndHtml)
  }

  /** `SOLID_PRINCIPLES`: joins `exampleTs` only; `letter` is copied. */
  function SolidPrinciples(json: seq<RawEntry>): (r: seq<PatternItem>)
    requires AllFit(json, TsOnly)
    ensures |r| == |json|
    ensures forall i :: 0 <= i < |json| ==>
              r[i] == ToItem(json[i], TsOnly) && r[i].letter == json[i].letter
  {
    NormalizeAll(json, TsOnly)
  }

  /** `GRASP_PATTERNS`: joins `exampleTs` only. */
  function GraspPatterns(json: seq<RawEntry>): (r: seq<PatternItem>)
    requires AllFit(json, TsOnly)
    ensures |r| == |json|
    ensures forall i :: 0 <= i < |json| ==> r[i] == ToItem(json[i], TsOnly)
  {
    NormalizeAll(json, TsOnly)
  }

  /**
   * Normalisation checks no range: a record conforms to the declared field
   * ranges exactly when its JSON entry already did.
   */
  lemma ConformsIffRawConforms(e: RawEntry, joined: Joined)
    requires Fits(e, joined)
    ensures Conforms(ToItem(e, joined)) <==>
              (e.rating.Some? ==> 1 <= e.rating.value <= 5) &&
              (e.letter.Some? ==> e.letter.value in ["S", "O", "L", "I", "D"])
  {
  }

  /** The `as 1 | 2 | 3 | 4 | 5` cast lets an out-of-range rating through. */
  lemma ClassicRatingIsNotChecked()
    ensures exists json: seq<RawEntry> ::
              AllFit(json, TsOnly) && |json| == 1 && !RatingInRange(ClassicPatterns(json)[0])
  {
    var e := RawEntry("x", "X", "C", "s", "d", None, None, None, Some(9));
    assert Fits(e, TsOnly);
    assert !RatingInRange(ClassicPatterns([e])[0]);
  }

  /** The ids of a section are its JSON ids, position by position, so id lookups carry over. */
  lemma {:induction false} IdsCarryOver(json: seq<RawEntry>, joined: Joined, id: string)
    requires AllFit(json, joined)
    ensures (exists i :: 0 <= i < |json| && json[i].id == id) <==>
            (exists p :: p in NormalizeAll(json, joined) && p.id == id)
  {
    var r := NormalizeAll(json, joined);
    if exists i :: 0 <= i < |json| && json[i].id == id {
      var i :| 0 <= i < |json| && json[i].id == id;
      assert r[i] in r;
    }
    if exists p :: p in r && p.id == id {
      var p :| p in r && p.id == id;
      var i :| 0 <= i < |r| && r[i] == p;
      assert json[i].id == id;
    }
  }

  /**
   * Every joined snippet of a section can be split back into the JSON lines
   * it came from, when those were at least one line and held no newline.
   */
  lemma SnippetsRecoverable(json: seq<RawEntry>, joined: Joined, i: int)
    requires AllFit(json, joined) && 0 <= i < |json|
    requires json[i].exampleTs.Some? && |json[i].exampleTs.value| >= 1
    requires AllSingleLine(json[i].exampleTs.value)
    ensures NormalizeAll(json, joined)[i].exampleTs.Some?
    ensures Split(NormalizeAll(json, joined)[i].exampleTs.value) == json[i].exampleTs.value
  {
  }
}
