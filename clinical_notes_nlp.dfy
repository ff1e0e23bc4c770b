/** The clinical-note NLP handler: the results record it fills from the
    Comprehend Medical entities, the cardiovascular tagging, and the key
    under which it stores the record. */
module ClinicalNotesNlp {
  import opened Wrappers
  import opened Text
  import opened JsonData
  import opened Comprehend

  // ---------------------------------------------------------------------
  // Output key
  // ---------------------------------------------------------------------

  /** The output key: "processed/" + the key with every ".txt" replaced. */
  function OutputKey(key: string): string {
    "processed/" + ReplaceAll(key, ".txt", "_processed.json")
  }

  /** A note uploaded as `<stem>.txt` is stored as `processed/<stem>_processed.json`. */
  lemma OutputKeyOfNote(stem: string)
    requires !Contains(stem, ".txt")
    ensures OutputKey(stem + ".txt") == "processed/" + stem + "_processed.json"
  {
    ReplaceSuffix(stem, ".txt", "_processed.json");
  }

  /** A key without ".txt" keeps its text under "processed/". */
  lemma OutputKeyOtherwise(key: string)
    requires !Contains(key, ".txt")
    ensures OutputKey(key) == "processed/" + key
  {
    ReplaceAllAbsent(key, ".txt", "_processed.json");
  }

  // ---------------------------------------------------------------------
  // Cardiovascular tagging
  // ---------------------------------------------------------------------

  const CardioMedications: seq<string> := [
    "statin", "atorvastatin", "simvastatin", "rosuvastatin",
    "beta-blocker", "metoprolol", "carvedilol", "atenolol",
    "ace inhibitor", "lisinopril", "enalapril", "captopril",
    "arb", "losartan", "valsartan", "telmisartan",
    "calcium channel blocker", "amlodipine", "diltiazem",
    "diuretic", "furosemide", "hydrochlorothiazide",
    "anticoagulant", "warfarin", "apixaban", "rivaroxaban",
    "antiplatelet", "aspirin", "clopidogrel", "prasugrel"]

  const CardioProcedures: seq<string> := [
    "angioplasty", "stent", "stenting", "catheterization",
    "cardiac catheterization", "cath lab", "pci",
    "percutaneous coronary intervention", "cabg",
    "coronary artery bypass", "valve replacement",
    "angiogram", "coronary angiography", "echocardiogram",
    "stress test", "ekg", "electrocardiogram",
    "holter monitor", "cardiac mri", "ct angiography"]

  const CardioConditions: seq<string> := [
    "coronary artery disease", "cad", "myocardial infarction",
    "heart attack", "angina", "chest pain", "arrhythmia",
    "atrial fibrillation", "heart failure", "chf",
    "hypertension", "high blood pressure", "hyperlipidemia",
    "high cholesterol", "atherosclerosis", "stenosis",
    "valve disease", "cardiomyopathy", "pericarditis",
    "endocarditis", "aortic stenosis", "mitral regurgitation"]

  /** The term lists in priority order, and the type each one assigns. */
  const CardioTermLists: seq<seq<string>> := [CardioMedications, CardioProcedures, CardioConditions]
  const CardioTypeNames: seq<string> := ["cardiovascular_medication", "cardiovascular_procedure", "cardiovascular_condition"]

  /** The cardiovascular type of a lower-cased entity text: the first list,
      in priority order, with a term occurring in the text. */
  function CardioType(text: string): Option<string> {
    if ContainsAny(text, CardioMedications) then Some("cardiovascular_medication")
    else if ContainsAny(text, CardioProcedures) then Some("cardiovascular_procedure")
    else if ContainsAny(text, CardioConditions) then Some("cardiovascular_condition")
    else None
  }

  /** The type is that of list j exactly when list j matches and no list
      before it does; there is no type when no list matches. */
  lemma CardioTypeFirstMatch(text: string, j: nat)
    requires j < 3
    ensures CardioType(text) == Some(CardioTypeNames[j]) <==>
      ContainsAny(text, CardioTermLists[j]) && forall k :: 0 <= k < j ==> !ContainsAny(text, CardioTermLists[k])
    ensures CardioType(text) == None <==> forall k :: 0 <= k < 3 ==> !ContainsAny(text, CardioTermLists[k])
  {
    assert CardioTypeNames[0][15] == 'm' && CardioTypeNames[1][15] == 'p' && CardioTypeNames[2][15] == 'c';
    assert CardioTermLists[0] == CardioMedications;
    assert CardioTermLists[1] == CardioProcedures;
    assert CardioTermLists[2] == CardioConditions;
  }

  /** A text naming both a medication and a condition is tagged as a medication. */
  lemma MedicationWinsOverCondition()
    ensures CardioType("aspirin for chest pain") == Some("cardiovascular_medication")
  {
    assert MatchAt("aspirin for chest pain", "aspirin", 0);
    assert "aspirin" in CardioMedications;
  }

  /** An entry of `cardiovascular_entities`. */
  datatype CardioEntry = CardioEntry(
    text: Option<string>,
    confidence: Option<Json>,
    category: string,
    cardiovascularType: string,
    beginOffset: Option<Json>,
    endOffset: Option<Json>,
    attributes: seq<Json>)

  predicate IsCardio(e: Entity) {
    CardioType(LowerText(e)).Some?
  }

  function ToCardioEntry(e: Entity): (c: CardioEntry)
    requires IsCardio(e)
    ensures c.text == e.text && c.confidence == e.score && c.category == CategoryKey(e)
    ensures Some(c.cardiovascularType) == CardioType(LowerText(e))
    ensures c.beginOffset == e.beginOffset && c.endOffset == e.endOffset
    ensures c.attributes == e.attributes.GetOr([])
  {
    CardioEntry(e.text, e.score, CategoryKey(e), CardioType(LowerText(e)).value,
                e.beginOffset, e.endOffset, e.attributes.GetOr([]))
  }

  /** The entries for the cardiovascular entities, in input order. */
  function CardioEntries(es: seq<Entity>): seq<CardioEntry> {
    if es == [] then []
    else
      var e := es[|es| - 1];
      CardioEntries(es[..|es| - 1]) + (if IsCardio(e) then [ToCardioEntry(e)] else [])
  }

  /** The positions of the cardiovascular entities. */
  function CardioIndices(es: seq<Entity>): seq<nat> {
    if es == [] then []
    else CardioIndices(es[..|es| - 1]) + (if IsCardio(es[|es| - 1]) then [|es| - 1] else [])
  }

  lemma {:induction false} CardioIndicesExact(es: seq<Entity>)
    ensures forall i: nat :: i in CardioIndices(es) <==> i < |es| && IsCardio(es[i])
  {
    if es != [] {
      var init := es[..|es| - 1];
      CardioIndicesExact(init);
      forall i: nat | i < |init|
        ensures es[i] == init[i]
      {
      }
    }
  }

  lemma {:induction false} CardioIndicesIncreasing(es: seq<Entity>)
    ensures StrictlyIncreasing(CardioIndices(es))
  {
    if es != [] {
      var init := es[..|es| - 1];
      CardioIndicesIncreasing(init);
      CardioIndicesExact(init);
      var idx0 := CardioIndices(init);
      assert forall k :: 0 <= k < |idx0| ==> idx0[k] in idx0;
    }
  }

  /** Each cardiovascular entity gives exactly one entry, the others none,
      and the entries follow input order. */
  lemma {:induction false} CardioEntriesExact(es: seq<Entity>)
    ensures var idx := CardioIndices(es);
      && |CardioEntries(es)| == |idx|
      && forall k :: 0 <= k < |idx| ==>
           idx[k] < |es| && IsCardio(es[idx[k]]) && CardioEntries(es)[k] == ToCardioEntry(es[idx[k]])
  {
    if es != [] {
      var init := es[..|es| - 1];
      var last := es[|es| - 1];
      CardioEntriesExact(init);
      var idx0 := CardioIndices(init);
      var entries0 := CardioEntries(init);
      var idx := CardioIndices(es);
      var entries := CardioEntries(es);
      assert idx == idx0 + (if IsCardio(last) then [|es| - 1] else []);
      assert entries == entries0 + (if IsCardio(last) then [ToCardioEntry(last)] else []);
      forall k | 0 <= k < |idx|
        ensures idx[k] < |es| && IsCardio(es[idx[k]]) && entries[k] == ToCardioEntry(es[idx[k]])
      {
        if k < |idx0| {
          assert idx[k] == idx0[k] && entries[k] == entries0[k];
          assert es[idx0[k]] == init[idx0[k]];
        }
      }
    }
  }

  // ---------------------------------------------------------------------
  // The results record
  // ---------------------------------------------------------------------

  /** The lists of the results record that the two steps fill in place. */
  class NlpResults {
    var entities: seq<Entity>
    var medications: seq<Finding>
    var diagnoses: seq<Finding>
    var procedures: seq<Finding>
    var cardiovascularEntities: seq<CardioEntry>

    /** The record as the handler sets it up once the entities are known. */
    constructor (entities: seq<Entity>)
      ensures this.entities == entities
      ensures medications == [] && diagnoses == [] && procedures == [] && cardiovascularEntities == []
    {
      this.entities := entities;
      medications, diagnoses, procedures := [], [], [];
      cardiovascularEntities := [];
    }

    /** Appends each entity of category MEDICATION, MEDICAL_CONDITION or
        PROCEDURE to its list. */
    method CategorizeEntities()
      modifies this
      ensures entities == old(entities) && cardiovascularEntities == old(cardiovascularEntities)
      ensures medications == old(medications) + Categorized(entities, MEDICATION, None)
      ensures diagnoses == old(diagnoses) + Categorized(entities, MEDICAL_CONDITION, None)
      ensures procedures == old(procedures) + Categorized(entities, PROCEDURE, None)
    {
      var i := 0;
      while i < |entities|
        invariant 0 <= i <= |entities|
        invariant entities == old(entities) && cardiovascularEntities == old(cardiovascularEntities)
        invariant medications == old(medications) + Categorized(entities[..i], MEDICATION, None)
        invariant diagnoses == old(diagnoses) + Categorized(entities[..i], MEDICAL_CONDITION, None)
        invariant procedures == old(procedures) + Categorized(entities[..i], PROCEDURE, None)
      {
        var entity := entities[i];
        var category := CategoryKey(entity);
        assert entities[..i + 1][..i] == entities[..i];
        if category == MEDICATION {
          medications := medications + [ToFinding(entity, None)];
        } else if category == MEDICAL_CONDITION {
          diagnoses := diagnoses + [ToFinding(entity, None)];
        } else if category == PROCEDURE {
          procedures := procedures + [ToFinding(entity, None)];
        }
        i := i + 1;
      }
      assert entities[..i] == entities;
    }

    /** Appends one entry for every entity whose lower-cased text mentions a
        cardiovascular term. */
    method ExtractCardiovascularEntities()
      modifies this
      ensures entities == old(entities)
      ensures medications == old(medications) && diagnoses == old(diagnoses) && procedures == old(procedures)
      ensures cardiovascularEntities == old(cardiovascularEntities) + CardioEntries(entities)
    {
      var i := 0;
      while i < |entities|
        invariant 0 <= i <= |entities|
        invariant entities == old(entities)
        invariant medications == old(medications) && diagnoses == old(diagnoses) && procedures == old(procedures)
        invariant cardiovascularEntities == old(cardiovascularEntities) + CardioEntries(entities[..i])
      {
        var entity := entities[i];
        var entityText := LowerText(entity);
        var category := CategoryKey(entity);
        var isCardio := false;
        var cardioType := "";
        if ContainsAny(entityText, CardioMedications) {
          isCardio, cardioType := true, "cardiovascular_medication";
        } else if ContainsAny(entityText, CardioProcedures) {
          isCardio, cardioType := true, "cardiovascular_procedure";
        } else if ContainsAny(entityText, CardioConditions) {
          isCardio, cardioType := true, "cardiovascular_condition";
        }
        assert entities[..i + 1][..i] == entities[..i];
        if isCardio {
          cardiovascularEntities := cardiovascularEntities + [CardioEntry(
            entity.text, entity.score, category, cardioType,
            entity.beginOffset, entity.endOffset, entity.attributes.GetOr([]))];
        }
        i := i + 1;
      }
      assert entities[..i] == entities;
    }
  }
}
