/** The stand-alone medical NLP Lambda: it turns the Comprehend Medical
    entities of a clinical text into FHIR MedicationStatement and Condition
    resources for one patient. Comprehend Medical, `uuid4()`, the clock and
    the `:.2f` formatting of a score are parameters. */
module MedicalNlpLambda {
  import opened Wrappers
  import opened JsonData
  import opened Comprehend

  /** `event.get(key, '')` */
  function EventField(event: map<string, string>, key: string): (v: string)
    ensures key in event ==> v == event[key]
    ensures key !in event ==> v == ""
  {
    if key in event then event[key] else ""
  }

  /** The two loops of the handler: one keeps the MEDICATION entities, the
      other the MEDICAL_CONDITION ones. */
  datatype Kind = Medications | Conditions

  /** The category a loop keeps, compared case-sensitively. */
  function KindCategory(kind: Kind): string {
    match kind
    case Medications => "MEDICATION"
    case Conditions => "MEDICAL_CONDITION"
  }

  datatype NlpResource =
    | MedicationStatement(id: string, status: string, medicationText: string, subjectReference: string,
                          effectiveDateTime: string, note: string)
    | Condition(id: string, clinicalStatusSystem: string, clinicalStatusCode: string, codeText: string,
                subjectReference: string, recordedDate: string, note: string)
  {
    function Subject(): string {
      match this
      case MedicationStatement(_, _, _, s, _, _) => s
      case Condition(_, _, _, _, s, _, _) => s
    }
  }

  const ConditionClinicalSystem := "http://terminology.hl7.org/CodeSystem/condition-clinical"

  /** The resource one loop builds for a kept entity. */
  function ResourceOf(kind: Kind, id: string, text: string, patientId: string, time: string, score: string): (r: NlpResource)
    ensures kind == Medications <==> r.MedicationStatement?
    ensures r.id == id && r.Subject() == "Patient/" + patientId
  {
    var note := "Extracted from clinical note. Confidence: " + score;
    match kind
    case Medications => MedicationStatement(id, "active", text, "Patient/" + patientId, time + "Z", note)
    case Conditions => Condition(id, ConditionClinicalSystem, "active", text, "Patient/" + patientId, time + "Z", note)
  }

  /** One iteration: `entity['Category']` must exist; a kept entity also
      needs `Text` and a `Score` that formats. The error is the KeyError's
      text or the formatter's. */
  function Step(e: Entity, kind: Kind, patientId: string, id: string, time: string,
                format2: Json -> Result<string>): Result<Option<NlpResource>>
  {
    if e.category.None? then Err("'Category'")
    else if e.category.value != KindCategory(kind) then Ok(None)
    else if e.text.None? then Err("'Text'")
    else if e.score.None? then Err("'Score'")
    else match format2(e.score.value)
      case Err(m) => Err(m)
      case Ok(score) => Ok(Some(ResourceOf(kind, id, e.text.value, patientId, time, score)))
  }

  /** The list one loop builds, drawing ids and times from `next` on; Err when
      an iteration raises. */
  function Resources(es: seq<Entity>, kind: Kind, patientId: string, uuid: nat -> string, clock: nat -> string,
                     format2: Json -> Result<string>, next: nat): Result<seq<NlpResource>>
  {
    if es == [] then Ok([])
    else
      match Resources(es[..|es| - 1], kind, patientId, uuid, clock, format2, next)
      case Err(m) => Err(m)
      case Ok(prior) =>
        var k := next + |prior|;
        match Step(es[|es| - 1], kind, patientId, uuid(k), clock(k), format2)
        case Err(m) => Err(m)
        case Ok(None) => Ok(prior)
        case Ok(Some(r)) => Ok(prior + [r])
  }

  /** An entity the loop of `kind` gets through without raising. */
  predicate Passes(e: Entity, kind: Kind, format2: Json -> Result<string>) {
    && e.category.Some?
    && (e.category.value == KindCategory(kind) ==> e.text.Some? && e.score.Some? && format2(e.score.value).Ok?)
  }

  /** The positions of the entities whose Category is exactly `cat`. */
  function ExactIndices(es: seq<Entity>, cat: string): seq<nat> {
    if es == [] then []
    else ExactIndices(es[..|es| - 1], cat) + (if es[|es| - 1].category == Some(cat) then [|es| - 1] else [])
  }

  /** A loop completes exactly when every entity passes it. */
  lemma {:induction false} ResourcesOkIff(es: seq<Entity>, kind: Kind, patientId: string, uuid: nat -> string,
                                          clock: nat -> string, format2: Json -> Result<string>, next: nat)
    ensures Resources(es, kind, patientId, uuid, clock, format2, next).Ok?
        <==> forall i :: 0 <= i < |es| ==> Passes(es[i], kind, format2)
  {
    if es != [] {
      var init := es[..|es| - 1];
      var last := es[|es| - 1];
      ResourcesOkIff(init, kind, patientId, uuid, clock, format2, next);
      var prior := Resources(init, kind, patientId, uuid, clock, format2, next);
      if prior.Ok? {
        var k := next + |prior.value|;
        StepOkIff(last, kind, patientId, uuid(k), clock(k), format2);
      }
      assert forall i :: 0 <= i < |init| ==> init[i] == es[i];
    }
  }

  /** One iteration gets through exactly when its entity passes. */
  lemma StepOkIff(e: Entity, kind: Kind, patientId: string, id: string, time: string,
                  format2: Json -> Result<string>)
    ensures Step(e, kind, patientId, id, time, format2).Ok? <==> Passes(e, kind, format2)
  {
  }

  /** `rs` holds one resource per position of `idx`, each an entity of the
      loop's category that passes it; the k-th takes the k-th uuid and time
      from `next` on, the entity's text, and the subject "Patient/<id>". */
  ghost predicate KeptExactly(es: seq<Entity>, kind: Kind, patientId: string, uuid: nat -> string,
                              clock: nat -> string, format2: Json -> Result<string>, next: nat,
                              rs: seq<NlpResource>, idx: seq<nat>)
  {
    && |rs| == |idx|
    && forall k :: 0 <= k < |idx| ==>
         && idx[k] < |es|
         && es[idx[k]].category == Some(KindCategory(kind))
         && es[idx[k]].text.Some? && es[idx[k]].score.Some? && format2(es[idx[k]].score.value).Ok?
         && rs[k] == ResourceOf(kind, uuid(next + k), es[idx[k]].text.value, patientId, clock(next + k),
                                format2(es[idx[k]].score.value).value)
  }

  /** On success the loop keeps exactly the entities of its category, one
      resource each, in entity order. */
  lemma {:induction false} ResourcesExact(es: seq<Entity>, kind: Kind, patientId: string, uuid: nat -> string,
                                          clock: nat -> string, format2: Json -> Result<string>, next: nat)
    requires Resources(es, kind, patientId, uuid, clock, format2, next).Ok?
    ensures KeptExactly(es, kind, patientId, uuid, clock, format2, next,
                        Resources(es, kind, patientId, uuid, clock, format2, next).value,
                        ExactIndices(es, KindCategory(kind)))
  {
    if es != [] {
      var init := es[..|es| - 1];
      var last := es[|es| - 1];
      ResourcesSnoc(es, kind, patientId, uuid, clock, format2, next);
      ResourcesExact(init, kind, patientId, uuid, clock, format2, next);
      var prior := Resources(init, kind, patientId, uuid, clock, format2, next).value;
      var k := next + |prior|;
      StepKeeps(last, kind, patientId, uuid(k), clock(k), format2);
      KeptExactlyStep(es, kind, patientId, uuid, clock, format2, next, prior, ExactIndices(init, KindCategory(kind)),
                      Step(last, kind, patientId, uuid(k), clock(k), format2).value);
    }
  }

  /** A loop that completes got through its front and then its last entity. */
  lemma ResourcesSnoc(es: seq<Entity>, kind: Kind, patientId: string, uuid: nat -> string,
                      clock: nat -> string, format2: Json -> Result<string>, next: nat)
    requires es != [] && Resources(es, kind, patientId, uuid, clock, format2, next).Ok?
    ensures var prior := Resources(es[..|es| - 1], kind, patientId, uuid, clock, format2, next);
      && prior.Ok?
      && var k := next + |prior.value|;
         var step := Step(es[|es| - 1], kind, patientId, uuid(k), clock(k), format2);
         && step.Ok?
         && Resources(es, kind, patientId, uuid, clock, format2, next).value
            == prior.value + (if step.value.Some? then [step.value.value] else [])
  {
  }

  /** One more entity keeps the correspondence. */
  lemma KeptExactlyStep(es: seq<Entity>, kind: Kind, patientId: string, uuid: nat -> string,
                        clock: nat -> string, format2: Json -> Result<string>, next: nat,
                        prior: seq<NlpResource>, idx0: seq<nat>, kept: Option<NlpResource>)
    requires es != []
    requires KeptExactly(es[..|es| - 1], kind, patientId, uuid, clock, format2, next, prior, idx0)
    requires var e := es[|es| - 1];
      && (kept.Some? <==> e.category == Some(KindCategory(kind)))
      && (kept.Some? ==>
            && e.text.Some? && e.score.Some? && format2(e.score.value).Ok?
            && kept.value == ResourceOf(kind, uuid(next + |prior|), e.text.value, patientId, clock(next + |prior|),
                                        format2(e.score.value).value))
    ensures KeptExactly(es, kind, patientId, uuid, clock, format2, next,
                        prior + (if kept.Some? then [kept.value] else []),
                        idx0 + (if es[|es| - 1].category == Some(KindCategory(kind)) then [|es| - 1] else []))
  {
    var init := es[..|es| - 1];
    var rs := prior + (if kept.Some? then [kept.value] else []);
    var idx := idx0 + (if es[|es| - 1].category == Some(KindCategory(kind)) then [|es| - 1] else []);
    forall j | 0 <= j < |idx0|
      ensures idx[j] == idx0[j] && rs[j] == prior[j] && es[idx0[j]] == init[idx0[j]]
    {
    }
  }

  /** A kept entity gives the resource built from its text and formatted
      score; any other entity that passes gives nothing. */
  lemma StepKeeps(e: Entity, kind: Kind, patientId: string, id: string, time: string,
                  format2: Json -> Result<string>)
    ensures var step := Step(e, kind, patientId, id, time, format2);
      step.Ok? ==>
        && (step.value.Some? <==> e.category == Some(KindCategory(kind)))
        && (step.value.Some? ==>
              && e.text.Some? && e.score.Some? && format2(e.score.value).Ok?
              && step.value.value == ResourceOf(kind, id, e.text.value, patientId, time, format2(e.score.value).value))
  {
  }

  /** Every position listed by ExactIndices holds an entity of that
      category, and every such entity is listed. */
  lemma {:induction false} ExactIndicesExact(es: seq<Entity>, cat: string)
    ensures forall i: nat :: i in ExactIndices(es, cat) <==> i < |es| && es[i].category == Some(cat)
  {
    if es != [] {
      var init := es[..|es| - 1];
      ExactIndicesExact(init, cat);
      assert forall i :: 0 <= i < |init| ==> init[i] == es[i];
    }
  }

  /** The two loops never keep the same entity, so together they build at
      most one resource per entity. */
  lemma {:induction false} ResourcesBounded(es: seq<Entity>, patientId: string, uuid: nat -> string,
                                            clock: nat -> string, format2: Json -> Result<string>, n1: nat, n2: nat)
    requires Resources(es, Medications, patientId, uuid, clock, format2, n1).Ok?
    requires Resources(es, Conditions, patientId, uuid, clock, format2, n2).Ok?
    ensures |Resources(es, Medications, patientId, uuid, clock, format2, n1).value|
          + |Resources(es, Conditions, patientId, uuid, clock, format2, n2).value| <= |es|
  {
    if es != [] {
      ResourcesBounded(es[..|es| - 1], patientId, uuid, clock, format2, n1, n2);
    }
  }

  /** The AWS calls, as oracles: Err carries the text of the exception. */
  datatype Services = Services(
    detectEntities: string -> Result<seq<Entity>>,
    detectRelationships: string -> Result<seq<Json>>,
    detectPhi: string -> Result<seq<Entity>>)

  datatype Response =
    | Completed(statusCode: int, message: string, entitiesFound: nat,
                medications: seq<NlpResource>, conditions: seq<NlpResource>, phiDetected: nat)
    | Failed(statusCode: int, error: string)

  /** The response of the handler, from the event and the oracles. */
  function HandlerResponse(event: map<string, string>, services: Services, uuid: nat -> string, clock: nat -> string,
                           format2: Json -> Result<string>): Response
  {
    var text := EventField(event, "text");
    var patientId := EventField(event, "patient_id");
    match services.detectEntities(text)
    case Err(m) => Failed(500, m)
    case Ok(es) =>
      match services.detectRelationships(text)
      case Err(m) => Failed(500, m)
      case Ok(_) =>
        match services.detectPhi(text)
        case Err(m) => Failed(500, m)
        case Ok(phi) =>
          match Resources(es, Medications, patientId, uuid, clock, format2, 0)
          case Err(m) => Failed(500, m)
          case Ok(medications) =>
            match Resources(es, Conditions, patientId, uuid, clock, format2, |medications|)
            case Err(m) => Failed(500, m)
            case Ok(conditions) =>
              Completed(200, "Medical NLP processing completed", |es|, medications, conditions, |phi|)
  }

  /** A completed run reports every entity and every PHI entity, and builds
      at most one resource per entity; each resource refers to the patient. */
  lemma CompletedCounts(event: map<string, string>, services: Services, uuid: nat -> string, clock: nat -> string,
                        format2: Json -> Result<string>)
    requires HandlerResponse(event, services, uuid, clock, format2).Completed?
    ensures var r := HandlerResponse(event, services, uuid, clock, format2);
      var text := EventField(event, "text");
      && r.statusCode == 200
      && services.detectEntities(text).Ok? && services.detectPhi(text).Ok?
      && r.entitiesFound == |services.detectEntities(text).value|
      && r.phiDetected == |services.detectPhi(text).value|
      && |r.medications| + |r.conditions| <= r.entitiesFound
      && (forall k :: 0 <= k < |r.medications| ==>
            r.medications[k].MedicationStatement? && r.medications[k].Subject() == "Patient/" + EventField(event, "patient_id"))
      && (forall k :: 0 <= k < |r.conditions| ==>
            r.conditions[k].Condition? && r.conditions[k].Subject() == "Patient/" + EventField(event, "patient_id"))
  {
    var text := EventField(event, "text");
    var es := services.detectEntities(text).value;
    var patientId := EventField(event, "patient_id");
    var meds := Resources(es, Medications, patientId, uuid, clock, format2, 0);
    var conds := Resources(es, Conditions, patientId, uuid, clock, format2, |meds.value|);
    ResourcesBounded(es, patientId, uuid, clock, format2, 0, |meds.value|);
    ResourcesExact(es, Medications, patientId, uuid, clock, format2, 0);
    ResourcesExact(es, Conditions, patientId, uuid, clock, format2, |meds.value|);
  }

  /** The handler completes exactly when the three calls succeed and every
      entity passes both loops; otherwise it answers 500. */
  lemma CompletedIff(event: map<string, string>, services: Services, uuid: nat -> string, clock: nat -> string,
                     format2: Json -> Result<string>)
    ensures var text := EventField(event, "text");
      HandlerResponse(event, services, uuid, clock, format2).Completed? <==>
        && services.detectEntities(text).Ok?
        && services.detectRelationships(text).Ok?
        && services.detectPhi(text).Ok?
        && forall i :: 0 <= i < |services.detectEntities(text).value| ==>
             Passes(services.detectEntities(text).value[i], Medications, format2)
             && Passes(services.detectEntities(text).value[i], Conditions, format2)
    ensures HandlerResponse(event, services, uuid, clock, format2).Failed? ==>
      HandlerResponse(event, services, uuid, clock, format2).statusCode == 500
  {
    var text := EventField(event, "text");
    if services.detectEntities(text).Ok? {
      var es := services.detectEntities(text).value;
      var patientId := EventField(event, "patient_id");
      ResourcesOkIff(es, Medications, patientId, uuid, clock, format2, 0);
      var meds := Resources(es, Medications, patientId, uuid, clock, format2, 0);
      if meds.Ok? {
        ResourcesOkIff(es, Conditions, patientId, uuid, clock, format2, |meds.value|);
      }
    }
  }

  /** `lambda_handler`: the two loops fill `medications` and `conditions`,
      and an exception anywhere answers 500. */
  method LambdaHandler(event: map<string, string>, services: Services, uuid: nat -> string, clock: nat -> string,
                       format2: Json -> Result<string>)
    returns (response: Response)
    ensures response == HandlerResponse(event, services, uuid, clock, format2)
  {
    var clinicalText := EventField(event, "text");
    var patientId := EventField(event, "patient_id");
    var entitiesResponse := services.detectEntities(clinicalText);
    if entitiesResponse.Err? {
      return Failed(500, entitiesResponse.message);
    }
    var relationshipsResponse := services.detectRelationships(clinicalText);
    if relationshipsResponse.Err? {
      return Failed(500, relationshipsResponse.message);
    }
    var phiResponse := services.detectPhi(clinicalText);
    if phiResponse.Err? {
      return Failed(500, phiResponse.message);
    }
    var es := entitiesResponse.value;
    var medications := CreateResources(es, Medications, patientId, uuid, clock, format2, 0);
    if medications.Err? {
      return Failed(500, medications.message);
    }
    var conditions := CreateResources(es, Conditions, patientId, uuid, clock, format2, |medications.value|);
    if conditions.Err? {
      return Failed(500, conditions.message);
    }
    response := Completed(200, "Medical NLP processing completed", |es|, medications.value, conditions.value,
                          |phiResponse.value|);
  }

  /** One of the handler's two loops: it appends a resource for each entity
      of the loop's category, drawing the next uuid and time for each. */
  method CreateResources(es: seq<Entity>, kind: Kind, patientId: string, uuid: nat -> string, clock: nat -> string,
                         format2: Json -> Result<string>, next: nat)
    returns (r: Result<seq<NlpResource>>)
    ensures r == Resources(es, kind, patientId, uuid, clock, format2, next)
  {
    var built := [];
    var drawn := next;
    var i := 0;
    while i < |es|
      invariant 0 <= i <= |es|
      invariant Resources(es[..i], kind, patientId, uuid, clock, format2, next) == Ok(built)
      invariant drawn == next + |built|
    {
      var step := Step(es[i], kind, patientId, uuid(drawn), clock(drawn), format2);
      ResourcesNext(es, i, kind, patientId, uuid, clock, format2, next, built, step);
      if step.Err? {
        FailurePersists(es, i + 1, kind, patientId, uuid, clock, format2, next);
        return Err(step.message);
      }
      if step.value.Some? {
        built := built + [step.value.value];
        drawn := drawn + 1;
      }
      i := i + 1;
    }
    assert es[..i] == es;
    r := Ok(built);
  }

  /** One more iteration of a loop. */
  lemma {:induction false} ResourcesNext(es: seq<Entity>, i: nat, kind: Kind, patientId: string, uuid: nat -> string, clock: nat -> string,
                                           format2: Json -> Result<string>, next: nat, built: seq<NlpResource>,
                                           step: Result<Option<NlpResource>>)
    requires i < |es| && Resources(es[..i], kind, patientId, uuid, clock, format2, next) == Ok(built)
    requires step == Step(es[i], kind, patientId, uuid(next + |built|), clock(next + |built|), format2)
    ensures step.Err? ==> Resources(es[..i + 1], kind, patientId, uuid, clock, format2, next) == Err(step.message)
    ensures step.Ok? && step.value.None? ==> Resources(es[..i + 1], kind, patientId, uuid, clock, format2, next) == Ok(built)
    ensures step.Ok? && step.value.Some? ==>
      Resources(es[..i + 1], kind, patientId, uuid, clock, format2, next) == Ok(built + [step.value.value])
  {
    var p := es[..i + 1];
    assert p[..|p| - 1] == es[..i] && p[|p| - 1] == es[i];
  }

  /** Once an iteration raises, the loop as a whole fails with that error. */
  lemma {:induction false} FailurePersists(es: seq<Entity>, n: nat, kind: Kind, patientId: string, uuid: nat -> string,
                                           clock: nat -> string, format2: Json -> Result<string>, next: nat)
    requires n <= |es| && Resources(es[..n], kind, patientId, uuid, clock, format2, next).Err?
    ensures Resources(es, kind, patientId, uuid, clock, format2, next)
         == Resources(es[..n], kind, patientId, uuid, clock, format2, next)
    decreases |es| - n
  {
    if n < |es| {
      assert es[..n + 1][..n] == es[..n];
      FailurePersists(es, n + 1, kind, patientId, uuid, clock, format2, next);
    } else {
      assert es[..n] == es;
    }
  }
}
