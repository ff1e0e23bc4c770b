/** Entities as returned by Comprehend Medical's DetectEntitiesV2 and
    DetectPHI, and the category partition that both NLP handlers apply to
    them. A key missing from an entity dict is `None`. */
module Comprehend {
  import opened Wrappers
  import opened Text
  import opened JsonData

  datatype Entity = Entity(
    text: Option<string>,
    category: Option<string>,
    entityType: Option<string>,
    score: Option<Json>,
    beginOffset: Option<Json>,
    endOffset: Option<Json>,
    attributes: Option<seq<Json>>)

  /** `entity.get('Category', '').upper()` */
  function CategoryKey(e: Entity): string {
    Upper(e.category.GetOr(""))
  }

  /** `entity.get('Type', '').upper()` */
  function TypeKey(e: Entity): string {
    Upper(e.entityType.GetOr(""))
  }

  /** `entity.get('Text', '').lower()` */
  function LowerText(e: Entity): string {
    Lower(e.text.GetOr(""))
  }

  const MEDICATION := "MEDICATION"
  const MEDICAL_CONDITION := "MEDICAL_CONDITION"
  const PROCEDURE := "PROCEDURE"

  /** An entry of the `medications`, `diagnoses` or `procedures` list.
      `source` is present only in entries built from audio transcriptions. */
  datatype Finding = Finding(
    text: Option<string>,
    confidence: Option<Json>,
    findingType: string,
    attributes: seq<Json>,
    source: Option<string>)

  function ToFinding(e: Entity, source: Option<string>): (f: Finding)
    ensures f.text == e.text && f.confidence == e.score && f.source == source
    ensures f.findingType == TypeKey(e) && f.attributes == e.attributes.GetOr([])
  {
    Finding(e.text, e.score, TypeKey(e), e.attributes.GetOr([]), source)
  }

  /** The findings built from the entities whose upper-cased category is
      `cat`, in input order. */
  function Categorized(es: seq<Entity>, cat: string, source: Option<string>): seq<Finding>
  {
    if es == [] then []
    else
      var e := es[|es| - 1];
      Categorized(es[..|es| - 1], cat, source) + (if CategoryKey(e) == cat then [ToFinding(e, source)] else [])
  }

  /** The positions of the entities whose upper-cased category is `cat`. */
  function CategoryIndices(es: seq<Entity>, cat: string): seq<nat>
  {
    if es == [] then []
    else
      CategoryIndices(es[..|es| - 1], cat) + (if CategoryKey(es[|es| - 1]) == cat then [|es| - 1] else [])
  }

  /** The number of entities whose category is none of the three kept ones. */
  function CountOthers(es: seq<Entity>): nat
  {
    if es == [] then 0
    else
      var k := CategoryKey(es[|es| - 1]);
      CountOthers(es[..|es| - 1]) + (if k in {MEDICATION, MEDICAL_CONDITION, PROCEDURE} then 0 else 1)
  }

  /** The kept positions are exactly those of the entities of category `cat`. */
  lemma {:induction false} CategoryIndicesExact(es: seq<Entity>, cat: string)
    ensures forall i: nat :: i in CategoryIndices(es, cat) <==> i < |es| && CategoryKey(es[i]) == cat
  {
    if es != [] {
      var init := es[..|es| - 1];
      CategoryIndicesExact(init, cat);
      forall i: nat | i < |init|
        ensures es[i] == init[i]
      {
      }
    }
  }

  /** The kept positions are listed in increasing order, each once. */
  lemma {:induction false} CategoryIndicesIncreasing(es: seq<Entity>, cat: string)
    ensures StrictlyIncreasing(CategoryIndices(es, cat))
  {
    if es != [] {
      var init := es[..|es| - 1];
      CategoryIndicesIncreasing(init, cat);
      CategoryIndicesExact(init, cat);
      var idx0 := CategoryIndices(init, cat);
      assert forall k :: 0 <= k < |idx0| ==> idx0[k] in idx0;
    }
  }

  /** The k-th finding is built from the entity at the k-th kept position. */
  lemma {:induction false} CategorizedAtIndices(es: seq<Entity>, cat: string, source: Option<string>)
    ensures var idx := CategoryIndices(es, cat);
      && |Categorized(es, cat, source)| == |idx|
      && forall k :: 0 <= k < |idx| ==> idx[k] < |es| && Categorized(es, cat, source)[k] == ToFinding(es[idx[k]], source)
  {
    if es != [] {
      var init := es[..|es| - 1];
      CategorizedAtIndices(init, cat, source);
      var idx0 := CategoryIndices(init, cat);
      assert forall k :: 0 <= k < |idx0| ==> es[idx0[k]] == init[idx0[k]];
    }
  }

  /** `Categorized` keeps exactly the entities of category `cat`, each once
      and in input order: its k-th finding is built from the entity at the
      k-th such position. */
  lemma CategorizedExact(es: seq<Entity>, cat: string, source: Option<string>)
    ensures var idx := CategoryIndices(es, cat);
      && |Categorized(es, cat, source)| == |idx|
      && StrictlyIncreasing(idx)
      && (forall k :: 0 <= k < |idx| ==> idx[k] < |es| && Categorized(es, cat, source)[k] == ToFinding(es[idx[k]], source))
      && (forall i: nat :: i in idx <==> i < |es| && CategoryKey(es[i]) == cat)
  {
    CategoryIndicesExact(es, cat);
    CategoryIndicesIncreasing(es, cat);
    CategorizedAtIndices(es, cat, source);
  }

  /** Every entity lands in at most one of the three lists, so the three
      lists and the dropped entities account for the whole input. */
  lemma {:induction false} CategoriesPartition(es: seq<Entity>, source: Option<string>)
    ensures |Categorized(es, MEDICATION, source)| + |Categorized(es, MEDICAL_CONDITION, source)|
          + |Categorized(es, PROCEDURE, source)| + CountOthers(es) == |es|
  {
    if es != [] {
      CategoriesPartition(es[..|es| - 1], source);
    }
  }
}
