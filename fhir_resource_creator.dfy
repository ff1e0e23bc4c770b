/** The FHIR resource creator: from the results file of the clinical-note
    handler it builds a Patient from the PHI entities, a DocumentReference
    holding the source text, and Observation, MedicationStatement and
    Condition resources linked to that Patient; it stores each resource with
    a PUT to the HealthLake FHIR API and summarises the outcome.

    `uuid4()` is the oracle `uuid`: `uuid(n)` is the id drawn by the n-th call
    of one invocation. The clock readings are parameters. The HTTP call is the
    oracle `send`. */
module FhirResourceCreator {
  import opened Wrappers
  import opened Text
  import opened JsonData
  import opened Comprehend
  import opened Encoding

  // ---------------------------------------------------------------------
  // The NLP results file
  // ---------------------------------------------------------------------

  /** An entry of the `cardiovascular_entities`, `medications`, `diagnoses`
      or `procedures` list, as far as the builders read it. */
  datatype Mention = Mention(text: Option<string>, confidence: Option<Json>)

  /** `entry.get('text', '')` */
  function MentionText(m: Mention): string {
    m.text.GetOr("")
  }

  /** The keys of the results file the creator reads; a missing list is []. */
  datatype NlpRecord = NlpRecord(
    phiEntities: seq<Entity>,
    entityCount: nat,
    originalText: Option<string>,
    transcriptionText: Option<string>,
    originalAudioFile: Option<string>,
    cardiovascularEntities: seq<Mention>,
    medications: seq<Mention>,
    diagnoses: seq<Mention>,
    procedures: seq<Mention>,
    timestamp: Option<string>)

  function Min(a: nat, b: nat): nat {
    if a <= b then a else b
  }

  /** `xs[:n]` */
  function Limit<T>(xs: seq<T>, n: nat): (r: seq<T>)
    ensures |r| == Min(n, |xs|) && r == xs[..|r|]
  {
    if |xs| <= n then xs else xs[..n]
  }

  // ---------------------------------------------------------------------
  // Bucketing the PHI entities
  // ---------------------------------------------------------------------

  /** `phi.get('Text', '').strip()` */
  function PhiText(e: Entity): string {
    Strip(e.text.GetOr(""))
  }

  /** Whether the entity goes into the bucket of `phiType`. */
  predicate InBucket(e: Entity, phiType: string) {
    TypeKey(e) == phiType && PhiText(e) != []
  }

  /** The bucket of `phiType`: the stripped texts of the entities whose
      upper-cased Type is `phiType` and whose stripped text is not empty. */
  function PhiTexts(phis: seq<Entity>, phiType: string): seq<string> {
    if phis == [] then []
    else
      var e := phis[|phis| - 1];
      PhiTexts(phis[..|phis| - 1], phiType) + (if InBucket(e, phiType) then [PhiText(e)] else [])
  }

  /** The entities that land in none of the five buckets. */
  function CountUnbucketed(phis: seq<Entity>): nat {
    if phis == [] then 0
    else
      var e := phis[|phis| - 1];
      CountUnbucketed(phis[..|phis| - 1])
        + (if PhiText(e) != [] && TypeKey(e) in {"NAME", "AGE", "ID", "DATE", "ADDRESS"} then 0 else 1)
  }

  /** Bucketing works entity by entity: the bucket of a concatenation is the
      concatenation of the buckets, so input order is kept. */
  lemma {:induction false} PhiTextsAppend(a: seq<Entity>, b: seq<Entity>, phiType: string)
    ensures PhiTexts(a + b, phiType) == PhiTexts(a, phiType) + PhiTexts(b, phiType)
    decreases |b|
  {
    if b == [] {
      assert a + b == a;
    } else {
      var b' := b[..|b| - 1];
      assert (a + b)[..|a + b| - 1] == a + b';
      PhiTextsAppend(a, b', phiType);
    }
  }

  /** The bucket of one entity is its stripped text or nothing. */
  lemma PhiTextsOne(e: Entity, phiType: string)
    ensures PhiTexts([e], phiType) == if InBucket(e, phiType) then [PhiText(e)] else []
  {
    assert [e][..0] == [];
  }

  /** Every bucketed text is non-empty and stripped. */
  lemma {:induction false} PhiTextsStripped(phis: seq<Entity>, phiType: string)
    ensures forall t :: t in PhiTexts(phis, phiType) ==> t != [] && !IsSpace(t[0]) && !IsSpace(t[|t| - 1])
  {
    if phis != [] {
      var init, e := phis[..|phis| - 1], phis[|phis| - 1];
      PhiTextsStripped(init, phiType);
      var extra := if InBucket(e, phiType) then [PhiText(e)] else [];
      assert PhiTexts(phis, phiType) == PhiTexts(init, phiType) + extra;
      forall t | t in PhiTexts(phis, phiType)
        ensures t != [] && !IsSpace(t[0]) && !IsSpace(t[|t| - 1])
      {
        if t !in PhiTexts(init, phiType) {
          assert t == PhiText(e) != [];
        }
      }
    }
  }

  /** Each entity lands in at most one bucket: the five buckets and the
      ignored entities account for the whole input. */
  lemma {:induction false} PhiBucketsPartition(phis: seq<Entity>)
    ensures |PhiTexts(phis, "NAME")| + |PhiTexts(phis, "AGE")| + |PhiTexts(phis, "ID")|
          + |PhiTexts(phis, "DATE")| + |PhiTexts(phis, "ADDRESS")| + CountUnbucketed(phis) == |phis|
  {
    if phis != [] {
      PhiBucketsPartition(phis[..|phis| - 1]);
    }
  }

  /** One more entity adds its text to the bucket it belongs to. */
  lemma PhiTextsStep(phis: seq<Entity>, i: nat, phiType: string)
    requires i < |phis|
    ensures PhiTexts(phis[..i + 1], phiType)
         == PhiTexts(phis[..i], phiType) + (if InBucket(phis[i], phiType) then [PhiText(phis[i])] else [])
  {
    assert phis[..i + 1][..i] == phis[..i];
  }

  /** The five lists of `patient_info`. */
  datatype PatientInfo = PatientInfo(
    names: seq<string>, ages: seq<string>, ids: seq<string>, dates: seq<string>, addresses: seq<string>)

  function PatientInfoOf(phis: seq<Entity>): PatientInfo {
    PatientInfo(PhiTexts(phis, "NAME"), PhiTexts(phis, "AGE"), PhiTexts(phis, "ID"),
                PhiTexts(phis, "DATE"), PhiTexts(phis, "ADDRESS"))
  }

  /** The loop filling `patient_info`. */
  method CollectPatientInfo(phis: seq<Entity>) returns (info: PatientInfo)
    ensures info == PatientInfoOf(phis)
  {
    var names, ages, ids, dates, addresses := [], [], [], [], [];
    var i := 0;
    while i < |phis|
      invariant 0 <= i <= |phis|
      invariant names == PhiTexts(phis[..i], "NAME") && ages == PhiTexts(phis[..i], "AGE")
      invariant ids == PhiTexts(phis[..i], "ID") && dates == PhiTexts(phis[..i], "DATE")
      invariant addresses == PhiTexts(phis[..i], "ADDRESS")
    {
      var phi := phis[i];
      var phiType := TypeKey(phi);
      var phiText := PhiText(phi);
      PhiTextsStep(phis, i, "NAME");
      PhiTextsStep(phis, i, "AGE");
      PhiTextsStep(phis, i, "ID");
      PhiTextsStep(phis, i, "DATE");
      PhiTextsStep(phis, i, "ADDRESS");
      if phiType == "NAME" && phiText != [] {
        names := names + [phiText];
      } else if phiType == "AGE" && phiText != [] {
        ages := ages + [phiText];
      } else if phiType == "ID" && phiText != [] {
        ids := ids + [phiText];
      } else if phiType == "DATE" && phiText != [] {
        dates := dates + [phiText];
      } else if phiType == "ADDRESS" && phiText != [] {
        addresses := addresses + [phiText];
      }
      i := i + 1;
    }
    assert phis[..i] == phis;
    info := PatientInfo(names, ages, ids, dates, addresses);
  }

  // ---------------------------------------------------------------------
  // The Patient
  // ---------------------------------------------------------------------

  /** A `name` entry: family and given names, or a plain text. */
  datatype HumanName = Structured(family: string, given: seq<string>) | TextName(text: string)

  const FallbackName := "Patient from Clinical Note"

  /** Each string cut to `n` characters. */
  function TakeEach(xs: seq<string>, n: nat): (r: seq<string>)
    ensures |r| == |xs|
    ensures forall i :: 0 <= i < |xs| ==> r[i] == Take(xs[i], n)
  {
    seq(|xs|, i requires 0 <= i < |xs| => Take(xs[i], n))
  }

  /** The parse of one name text: with two or more whitespace-separated
      tokens, the last is the family name and up to three of the others are
      the given names, each cut to 50 characters; otherwise the whole text,
      cut to 100 characters. */
  function ParseName(nameText: string): (n: HumanName)
    ensures n.Structured? <==> |Words(nameText)| >= 2
    ensures n.Structured? ==>
      var ws := Words(nameText);
      && n.family == Take(ws[|ws| - 1], 50)
      && |n.given| == Min(3, |ws| - 1)
      && forall k :: 0 <= k < |n.given| ==> n.given[k] == Take(ws[k], 50)
    ensures n.TextName? ==> n.text == Take(nameText, 100)
  {
    var parts := Words(nameText);
    if |parts| >= 2 then
      Structured(Take(parts[|parts| - 1], 50), Limit(TakeEach(parts[..|parts| - 1], 50), 3))
    else TextName(Take(nameText, 100))
  }

  /** A name of two to four tokens of at most 50 characters each comes back
      whole: the given names followed by the family name are its tokens. */
  lemma NameRoundTrip(nameText: string)
    requires 2 <= |Words(nameText)| <= 4
    requires forall k :: 0 <= k < |Words(nameText)| ==> |Words(nameText)[k]| <= 50
    ensures ParseName(nameText).Structured?
    ensures ParseName(nameText).given + [ParseName(nameText).family] == Words(nameText)
  {
    var ws := Words(nameText);
    var front := ws[..|ws| - 1];
    TakeEachShort(front, 50);
    assert Limit(front, 3) == front;
    assert ParseName(nameText) == Structured(ws[|ws| - 1], front);
    assert front + [ws[|ws| - 1]] == ws;
  }

  /** Strings no longer than `n` are not cut. */
  lemma TakeEachShort(xs: seq<string>, n: nat)
    requires forall k :: 0 <= k < |xs| ==> |xs[k]| <= n
    ensures TakeEach(xs, n) == xs
  {
    assert forall k :: 0 <= k < |xs| ==> TakeEach(xs, n)[k] == Take(xs[k], n) == xs[k];
  }

  /** The loop building `names`. */
  method ParseNames(texts: seq<string>) returns (names: seq<HumanName>)
    ensures |names| == |texts|
    ensures forall i :: 0 <= i < |texts| ==> names[i] == ParseName(texts[i])
  {
    names := [];
    var i := 0;
    while i < |texts|
      invariant 0 <= i <= |texts|
      invariant |names| == i
      invariant forall k :: 0 <= k < i ==> names[k] == ParseName(texts[k])
    {
      var nameParts := Words(texts[i]);
      if |nameParts| >= 2 {
        var given := TakeEach(nameParts[..|nameParts| - 1], 50);
        names := names + [Structured(Take(nameParts[|nameParts| - 1], 50), Limit(given, 3))];
      } else {
        names := names + [TextName(Take(texts[i], 100))];
      }
      i := i + 1;
    }
  }

  /** The loop building `identifiers`: one value per ID, cut to 50 characters. */
  method BuildIdentifiers(ids: seq<string>) returns (values: seq<string>)
    ensures values == TakeEach(ids, 50)
  {
    values := [];
    var i := 0;
    while i < |ids|
      invariant 0 <= i <= |ids|
      invariant values == TakeEach(ids[..i], 50)
    {
      values := values + [Take(ids[i], 50)];
      i := i + 1;
    }
    assert ids[..i] == ids;
  }

  /** The age read from an AGE text: all its digits as one number, or none
      when it has no digit. */
  function AgeOf(ageText: string): Option<nat> {
    var ds := DigitsOf(ageText);
    if ds == [] then None else Some(DigitsValue(ds))
  }

  /** `birthDate`, from the first AGE and the current year. */
  function BirthDate(ages: seq<string>, currentYear: int): Option<string> {
    if ages == [] then None
    else
      match AgeOf(ages[0])
      case None => None
      case Some(age) => if 0 < age < 150 then Some(IntToString(currentYear - age) + "-01-01") else None
  }

  /** A birth date is set exactly when the first AGE has digits that make an
      age strictly between 0 and 150. */
  lemma BirthDateSetIff(ages: seq<string>, currentYear: int)
    ensures BirthDate(ages, currentYear).Some? <==>
      ages != [] && AgeOf(ages[0]).Some? && 0 < AgeOf(ages[0]).value < 150
  {
  }

  /** The year of the birth date reads back as the current year minus the age. */
  lemma BirthYearRoundTrip(ages: seq<string>, currentYear: int)
    requires BirthDate(ages, currentYear).Some?
    requires currentYear >= 150
    ensures var d := BirthDate(ages, currentYear).value;
      && |d| > 6 && d[|d| - 6..] == "-01-01"
      && AllDigits(d[..|d| - 6])
      && DigitsValue(d[..|d| - 6]) == currentYear - AgeOf(ages[0]).value
  {
    var age := AgeOf(ages[0]).value;
    var y := NatToString(currentYear - age);
    var d := BirthDate(ages, currentYear).value;
    assert d == y + "-01-01";
    assert d[..|d| - 6] == y;
    NatToStringRoundTrip(currentYear - age);
  }

  /** The FHIR resources the creator builds. Only the fields computed from
      the input are kept; `subject` is the reference text "Patient/<id>". */
  datatype Resource =
    | Patient(id: string, identifier: Option<seq<string>>, name: seq<HumanName>,
              birthDate: Option<string>, address: Option<seq<string>>, gender: string, active: bool)
    | DocumentReference(id: string, subject: string, date: string, size: nat, data: string)
    | Observation(id: string, subject: string, codeText: string, effectiveDateTime: string, valueString: string)
    | MedicationStatement(id: string, subject: string, medicationText: string, effectiveDateTime: string)
    | Condition(id: string, subject: string, codeText: string, recordedDate: string)
    | Procedure(id: string, subject: string, codeText: string, performedDateTime: string, confidence: Option<Json>)

  function ResourceType(r: Resource): string {
    match r
    case Patient(_, _, _, _, _, _, _) => "Patient"
    case DocumentReference(_, _, _, _, _) => "DocumentReference"
    case Observation(_, _, _, _, _) => "Observation"
    case MedicationStatement(_, _, _, _) => "MedicationStatement"
    case Condition(_, _, _, _) => "Condition"
    case Procedure(_, _, _, _, _) => "Procedure"
  }

  function Reference(patientId: string): string {
    "Patient/" + patientId
  }

  /** The Patient built from the PHI buckets. */
  function PatientOf(info: PatientInfo, patientId: string, currentYear: int): (p: Resource)
    ensures p.Patient? && p.id == patientId && p.gender == "unknown" && p.active
    ensures |p.name| == 1
    ensures info.names == [] ==> p.name[0] == TextName(FallbackName)
    ensures info.names != [] ==> p.name[0] == ParseName(info.names[0])
    ensures p.identifier.None? <==> info.ids == []
    ensures p.identifier.Some? ==>
      |p.identifier.value| == |info.ids|
      && forall k :: 0 <= k < |info.ids| ==>
           p.identifier.value[k] == Take(info.ids[k], 50)
    ensures p.address.None? <==> info.addresses == []
    ensures p.address.Some? ==>
      |p.address.value| == 1 && p.address.value[0] == Take(info.addresses[0], 200)
    ensures p.birthDate == BirthDate(info.ages, currentYear)
  {
    Patient(
      patientId,
      if info.ids == [] then None else Some(TakeEach(info.ids, 50)),
      [if info.names == [] then TextName(FallbackName) else ParseName(info.names[0])],
      BirthDate(info.ages, currentYear),
      if info.addresses == [] then None else Some([Take(info.addresses[0], 200)]),
      "unknown",
      true)
  }

  /** `create_patient_from_phi` with the id it draws and the current year. */
  method CreatePatientFromPhi(rec: NlpRecord, patientId: string, currentYear: int) returns (patient: Resource)
    ensures patient == PatientOf(PatientInfoOf(rec.phiEntities), patientId, currentYear)
  {
    var info := CollectPatientInfo(rec.phiEntities);
    var identifiers := BuildIdentifiers(info.ids);
    var names := ParseNames(info.names);
    var name := if |names| > 0 then names[..1] else [TextName(FallbackName)];
    var address := if info.addresses != [] then Some([Take(info.addresses[0], 200)]) else None;
    patient := Patient(
      patientId,
      if |identifiers| > 0 then Some(identifiers) else None,
      name,
      BirthDate(info.ages, currentYear),
      address,
      "unknown",
      true);
  }

  // ---------------------------------------------------------------------
  // The DocumentReference
  // ---------------------------------------------------------------------

  /** `original_text`, else `transcription_text`, else "". */
  function ContentText(rec: NlpRecord): string {
    if rec.originalText.Some? then rec.originalText.value else rec.transcriptionText.GetOr("")
  }

  function DocumentReferenceOf(rec: NlpRecord, docId: string, patientId: string, now: string): (r: Resource)
    ensures r.DocumentReference? && r.id == docId && r.subject == Reference(patientId) && r.date == now
  {
    var bytes := Utf8Encode(ContentText(rec));
    DocumentReference(docId, Reference(patientId), now, |bytes|, Base64Encode(bytes))
  }

  /** The attachment's size is the UTF-8 length of the text, and decoding its
      data as base64 and then UTF-8 gives the text back. */
  lemma DocumentContentRoundTrip(rec: NlpRecord, docId: string, patientId: string, now: string)
    ensures var r := DocumentReferenceOf(rec, docId, patientId, now);
      && Base64Decode(r.data) == Some(Utf8Encode(ContentText(rec)))
      && r.size == |Utf8Encode(ContentText(rec))|
      && Utf8Decode(Base64Decode(r.data).value) == Some(ContentText(rec))
  {
    Base64RoundTrip(Utf8Encode(ContentText(rec)));
    Utf8RoundTrip(ContentText(rec));
  }

  // ---------------------------------------------------------------------
  // Observations, medication statements, conditions, procedures
  // ---------------------------------------------------------------------

  function ObservationOf(m: Mention, id: string, patientId: string, now: string): Resource {
    Observation(id, Reference(patientId), Take(MentionText(m), 50), now, Take(MentionText(m), 100))
  }

  function MedicationStatementOf(m: Mention, id: string, patientId: string, now: string): Resource {
    MedicationStatement(id, Reference(patientId), Take(MentionText(m), 100), now)
  }

  function ConditionOf(m: Mention, id: string, patientId: string, now: string): Resource {
    Condition(id, Reference(patientId), Take(MentionText(m), 100), now)
  }

  function ProcedureOf(m: Mention, id: string, patientId: string, performed: string): Resource {
    Procedure(id, Reference(patientId), MentionText(m), performed, m.confidence)
  }

  /** The Observations for the first five cardiovascular entries, drawing
      ids from `uuid(next)` on. */
  function Observations(ms: seq<Mention>, patientId: string, uuid: nat -> string, next: nat, now: string): seq<Resource> {
    var lim := Limit(ms, 5);
    seq(|lim|, i requires 0 <= i < |lim| => ObservationOf(lim[i], uuid(next + i), patientId, now))
  }

  function MedicationStatements(ms: seq<Mention>, patientId: string, uuid: nat -> string, next: nat, now: string): seq<Resource> {
    var lim := Limit(ms, 3);
    seq(|lim|, i requires 0 <= i < |lim| => MedicationStatementOf(lim[i], uuid(next + i), patientId, now))
  }

  function Conditions(ms: seq<Mention>, patientId: string, uuid: nat -> string, next: nat, now: string): seq<Resource> {
    var lim := Limit(ms, 3);
    seq(|lim|, i requires 0 <= i < |lim| => ConditionOf(lim[i], uuid(next + i), patientId, now))
  }

  function Procedures(ms: seq<Mention>, patientId: string, uuid: nat -> string, next: nat, performed: string): seq<Resource> {
    seq(|ms|, i requires 0 <= i < |ms| => ProcedureOf(ms[i], uuid(next + i), patientId, performed))
  }

  method CreateCardiovascularObservations(rec: NlpRecord, patientId: string, uuid: nat -> string, next: nat, now: string)
    returns (observations: seq<Resource>)
    ensures observations == Observations(rec.cardiovascularEntities, patientId, uuid, next, now)
  {
    observations := [];
    var entities := Limit(rec.cardiovascularEntities, 5);
    var i := 0;
    while i < |entities|
      invariant 0 <= i <= |entities|
      invariant |observations| == i
      invariant forall k :: 0 <= k < i ==> observations[k] == ObservationOf(entities[k], uuid(next + k), patientId, now)
    {
      var obsId := uuid(next + i);
      observations := observations + [ObservationOf(entities[i], obsId, patientId, now)];
      i := i + 1;
    }
  }

  method CreateMedicationStatements(rec: NlpRecord, patientId: string, uuid: nat -> string, next: nat, now: string)
    returns (statements: seq<Resource>)
    ensures statements == MedicationStatements(rec.medications, patientId, uuid, next, now)
  {
    statements := [];
    var medications := Limit(rec.medications, 3);
    var i := 0;
    while i < |medications|
      invariant 0 <= i <= |medications|
      invariant |statements| == i
      invariant forall k :: 0 <= k < i ==> statements[k] == MedicationStatementOf(medications[k], uuid(next + k), patientId, now)
    {
      var statementId := uuid(next + i);
      statements := statements + [MedicationStatementOf(medications[i], statementId, patientId, now)];
      i := i + 1;
    }
  }

  method CreateConditionResources(rec: NlpRecord, patientId: string, uuid: nat -> string, next: nat, now: string)
    returns (conditions: seq<Resource>)
    ensures conditions == Conditions(rec.diagnoses, patientId, uuid, next, now)
  {
    conditions := [];
    var diagnoses := Limit(rec.diagnoses, 3);
    var i := 0;
    while i < |diagnoses|
      invariant 0 <= i <= |diagnoses|
      invariant |conditions| == i
      invariant forall k :: 0 <= k < i ==> conditions[k] == ConditionOf(diagnoses[k], uuid(next + k), patientId, now)
    {
      var conditionId := uuid(next + i);
      conditions := conditions + [ConditionOf(diagnoses[i], conditionId, patientId, now)];
      i := i + 1;
    }
  }

  /** One Procedure per procedure entry, performed at the record's timestamp
      or, without one, at `utcNow`. */
  method CreateProcedureResources(rec: NlpRecord, patientId: string, uuid: nat -> string, next: nat, utcNow: string)
    returns (procedures: seq<Resource>)
    ensures procedures == Procedures(rec.procedures, patientId, uuid, next, rec.timestamp.GetOr(utcNow))
  {
    procedures := [];
    var i := 0;
    while i < |rec.procedures|
      invariant 0 <= i <= |rec.procedures|
      invariant |procedures| == i
      invariant forall k :: 0 <= k < i ==>
        procedures[k] == ProcedureOf(rec.procedures[k], uuid(next + k), patientId, rec.timestamp.GetOr(utcNow))
    {
      var procedureId := uuid(next + i);
      procedures := procedures + [ProcedureOf(rec.procedures[i], procedureId, patientId, rec.timestamp.GetOr(utcNow))];
      i := i + 1;
    }
  }

  /** Every Procedure refers to the Patient and carries the entry's text. */
  lemma ProceduresLinked(ms: seq<Mention>, patientId: string, uuid: nat -> string, next: nat, performed: string)
    ensures var ps := Procedures(ms, patientId, uuid, next, performed);
      |ps| == |ms| &&
      forall i :: 0 <= i < |ps| ==>
        ps[i].Procedure? && ps[i].subject == Reference(patientId) && ps[i].codeText == MentionText(ms[i])
        && ps[i].performedDateTime == performed && ps[i].id == uuid(next + i)
  {
  }

  // ---------------------------------------------------------------------
  // The bundle of resources
  // ---------------------------------------------------------------------

  /** Every resource refers to the Patient and the k-th carries the id drawn
      by call `next + k`. */
  predicate Linked(rs: seq<Resource>, patientId: string, uuid: nat -> string, next: nat) {
    forall i :: 0 <= i < |rs| ==> !rs[i].Patient? && rs[i].subject == Reference(patientId) && rs[i].id == uuid(next + i)
  }

  /** The resource kinds never go back in the bundle order. */
  predicate RankSorted(rs: seq<Resource>) {
    forall i, j :: 0 <= i < j < |rs| ==> Rank(rs[i]) <= Rank(rs[j])
  }

  /** Where a resource kind sits in the bundle. */
  function Rank(r: Resource): nat {
    match r
    case Patient(_, _, _, _, _, _, _) => 0
    case DocumentReference(_, _, _, _, _) => 1
    case Observation(_, _, _, _, _) => 2
    case MedicationStatement(_, _, _, _) => 3
    case Condition(_, _, _, _) => 4
    case Procedure(_, _, _, _, _) => 5
  }

  lemma ObservationsLinked(ms: seq<Mention>, patientId: string, uuid: nat -> string, next: nat, now: string)
    ensures var rs := Observations(ms, patientId, uuid, next, now);
      |rs| == Min(5, |ms|) && Linked(rs, patientId, uuid, next)
  {
  }

  lemma ObservationsKind(ms: seq<Mention>, patientId: string, uuid: nat -> string, next: nat, now: string)
    ensures var rs := Observations(ms, patientId, uuid, next, now);
      forall i :: 0 <= i < |rs| ==> Rank(rs[i]) == 2
  {
  }

  lemma MedicationStatementsLinked(ms: seq<Mention>, patientId: string, uuid: nat -> string, next: nat, now: string)
    ensures var rs := MedicationStatements(ms, patientId, uuid, next, now);
      |rs| == Min(3, |ms|) && Linked(rs, patientId, uuid, next)
  {
  }

  lemma MedicationStatementsKind(ms: seq<Mention>, patientId: string, uuid: nat -> string, next: nat, now: string)
    ensures var rs := MedicationStatements(ms, patientId, uuid, next, now);
      forall i :: 0 <= i < |rs| ==> Rank(rs[i]) == 3
  {
  }

  lemma ConditionsLinked(ms: seq<Mention>, patientId: string, uuid: nat -> string, next: nat, now: string)
    ensures var rs := Conditions(ms, patientId, uuid, next, now);
      |rs| == Min(3, |ms|) && Linked(rs, patientId, uuid, next)
  {
  }

  lemma ConditionsKind(ms: seq<Mention>, patientId: string, uuid: nat -> string, next: nat, now: string)
    ensures var rs := Conditions(ms, patientId, uuid, next, now);
      forall i :: 0 <= i < |rs| ==> Rank(rs[i]) == 4
  {
  }

  /** Two linked runs drawn one after the other make one linked run. */
  lemma LinkedAppend(a: seq<Resource>, b: seq<Resource>, patientId: string, uuid: nat -> string, next: nat)
    requires Linked(a, patientId, uuid, next) && Linked(b, patientId, uuid, next + |a|)
    ensures Linked(a + b, patientId, uuid, next)
  {
    forall i | |a| <= i < |a + b|
      ensures (a + b)[i] == b[i - |a|]
    {
    }
  }

  /** Appending a sorted run whose kinds all come at or after the kinds so far. */
  lemma RankSortedAppend(a: seq<Resource>, b: seq<Resource>, k: nat)
    requires RankSorted(a) && forall i :: 0 <= i < |a| ==> Rank(a[i]) <= k
    requires RankSorted(b) && forall i :: 0 <= i < |b| ==> Rank(b[i]) >= k
    ensures RankSorted(a + b)
  {
    forall i, j | 0 <= i < j < |a + b|
      ensures Rank((a + b)[i]) <= Rank((a + b)[j])
    {
      if j >= |a| {
        assert (a + b)[j] == b[j - |a|];
        if i >= |a| {
          assert (a + b)[i] == b[i - |a|];
        }
      }
    }
  }

  /** The Observations, MedicationStatements and Conditions of the bundle,
      drawing ids from the third call on. */
  function Findings(rec: NlpRecord, patientId: string, uuid: nat -> string, now: string): seq<Resource> {
    var obs := Observations(rec.cardiovascularEntities, patientId, uuid, 2, now);
    var meds := MedicationStatements(rec.medications, patientId, uuid, 2 + |obs|, now);
    obs + meds + Conditions(rec.diagnoses, patientId, uuid, 2 + |obs| + |meds|, now)
  }

  /** The resources `create_fhir_resources_from_nlp` returns; the Patient's
      id is the first uuid drawn and the DocumentReference's the second. */
  function Bundle(rec: NlpRecord, uuid: nat -> string, now: string, currentYear: int): seq<Resource> {
    var patientId := uuid(0);
    [PatientOf(PatientInfoOf(rec.phiEntities), patientId, currentYear),
     DocumentReferenceOf(rec, uuid(1), patientId, now)] + Findings(rec, patientId, uuid, now)
  }

  method CreateFhirResourcesFromNlp(rec: NlpRecord, uuid: nat -> string, now: string, currentYear: int)
    returns (fhirResources: seq<Resource>)
    ensures fhirResources == Bundle(rec, uuid, now, currentYear)
  {
    var patient := CreatePatientFromPhi(rec, uuid(0), currentYear);
    fhirResources := [patient];
    var patientId := patient.id;
    var documentRef := DocumentReferenceOf(rec, uuid(1), patientId, now);
    fhirResources := fhirResources + [documentRef];
    var findings := CreateFindings(rec, patientId, uuid, now);
    assert patientId == uuid(0) && fhirResources == [patient, documentRef];
    fhirResources := fhirResources + findings;
  }

  /** The Observations, MedicationStatements and Conditions, appended in
      that order after the Patient and the DocumentReference. */
  method CreateFindings(rec: NlpRecord, patientId: string, uuid: nat -> string, now: string)
    returns (findings: seq<Resource>)
    ensures findings == Findings(rec, patientId, uuid, now)
  {
    var observations := CreateCardiovascularObservations(rec, patientId, uuid, 2, now);
    findings := observations;
    var statements := CreateMedicationStatements(rec, patientId, uuid, 2 + |observations|, now);
    findings := findings + statements;
    var conditions := CreateConditionResources(rec, patientId, uuid, 2 + |observations| + |statements|, now);
    findings := findings + conditions;
  }

  /** A run of one kind is sorted. */
  lemma OneKindSorted(rs: seq<Resource>, k: nat)
    requires forall i :: 0 <= i < |rs| ==> Rank(rs[i]) == k
    ensures RankSorted(rs)
  {
  }

  /** The findings refer to the Patient and draw the uuids from the third on. */
  lemma FindingsLinked(rec: NlpRecord, patientId: string, uuid: nat -> string, now: string)
    ensures Linked(Findings(rec, patientId, uuid, now), patientId, uuid, 2)
  {
    var obs := Observations(rec.cardiovascularEntities, patientId, uuid, 2, now);
    var meds := MedicationStatements(rec.medications, patientId, uuid, 2 + |obs|, now);
    var conds := Conditions(rec.diagnoses, patientId, uuid, 2 + |obs| + |meds|, now);
    ObservationsLinked(rec.cardiovascularEntities, patientId, uuid, 2, now);
    MedicationStatementsLinked(rec.medications, patientId, uuid, 2 + |obs|, now);
    ConditionsLinked(rec.diagnoses, patientId, uuid, 2 + |obs| + |meds|, now);
    assert Findings(rec, patientId, uuid, now) == obs + meds + conds;
    LinkedThree(obs, meds, conds, patientId, uuid, 2);
  }

  /** Three linked runs one after the other are linked. */
  lemma LinkedThree(a: seq<Resource>, b: seq<Resource>, c: seq<Resource>, patientId: string, uuid: nat -> string, next: nat)
    requires Linked(a, patientId, uuid, next) && Linked(b, patientId, uuid, next + |a|)
    requires Linked(c, patientId, uuid, next + |a| + |b|)
    ensures Linked(a + b + c, patientId, uuid, next)
  {
    LinkedAppend(a, b, patientId, uuid, next);
    LinkedAppend(a + b, c, patientId, uuid, next);
  }

  /** The findings come as Observations, then MedicationStatements, then
      Conditions. */
  lemma FindingsSorted(rec: NlpRecord, patientId: string, uuid: nat -> string, now: string)
    ensures var fs := Findings(rec, patientId, uuid, now);
      RankSorted(fs) && forall i :: 0 <= i < |fs| ==> 2 <= Rank(fs[i]) <= 4
  {
    var obs := Observations(rec.cardiovascularEntities, patientId, uuid, 2, now);
    var meds := MedicationStatements(rec.medications, patientId, uuid, 2 + |obs|, now);
    var conds := Conditions(rec.diagnoses, patientId, uuid, 2 + |obs| + |meds|, now);
    ObservationsKind(rec.cardiovascularEntities, patientId, uuid, 2, now);
    MedicationStatementsKind(rec.medications, patientId, uuid, 2 + |obs|, now);
    ConditionsKind(rec.diagnoses, patientId, uuid, 2 + |obs| + |meds|, now);
    assert Findings(rec, patientId, uuid, now) == obs + meds + conds;
    ThreeRunsSorted(obs, meds, conds);
  }

  /** Runs of kinds 2, 3 and 4 one after the other are sorted. */
  lemma ThreeRunsSorted(a: seq<Resource>, b: seq<Resource>, c: seq<Resource>)
    requires forall i :: 0 <= i < |a| ==> Rank(a[i]) == 2
    requires forall i :: 0 <= i < |b| ==> Rank(b[i]) == 3
    requires forall i :: 0 <= i < |c| ==> Rank(c[i]) == 4
    ensures RankSorted(a + b + c) && forall i :: 0 <= i < |a + b + c| ==> 2 <= Rank((a + b + c)[i]) <= 4
  {
    OneKindSorted(a, 2);
    OneKindSorted(b, 3);
    OneKindSorted(c, 4);
    RankSortedAppend(a, b, 3);
    RankSortedAppend(a + b, c, 4);
  }

  /** At most five Observations, three MedicationStatements and three
      Conditions. */
  lemma FindingsLength(rec: NlpRecord, patientId: string, uuid: nat -> string, now: string)
    ensures |Findings(rec, patientId, uuid, now)|
         == Min(5, |rec.cardiovascularEntities|) + Min(3, |rec.medications|) + Min(3, |rec.diagnoses|)
  {
    var obs := Observations(rec.cardiovascularEntities, patientId, uuid, 2, now);
    var meds := MedicationStatements(rec.medications, patientId, uuid, 2 + |obs|, now);
    ObservationsLinked(rec.cardiovascularEntities, patientId, uuid, 2, now);
    MedicationStatementsLinked(rec.medications, patientId, uuid, 2 + |obs|, now);
    ConditionsLinked(rec.diagnoses, patientId, uuid, 2 + |obs| + |meds|, now);
  }

  /** A Patient and a DocumentReference drawn first, followed by linked
      findings, make a bundle in kind order whose resources all refer to the
      Patient and carry the uuids in drawing order. */
  lemma AssembledShape(p: Resource, d: Resource, fs: seq<Resource>, uuid: nat -> string)
    requires p.Patient? && p.id == uuid(0)
    requires d.DocumentReference? && d.id == uuid(1) && d.subject == Reference(uuid(0))
    requires Linked(fs, uuid(0), uuid, 2) && RankSorted(fs)
    requires forall i :: 0 <= i < |fs| ==> 2 <= Rank(fs[i]) <= 4
    ensures var b := [p, d] + fs;
      && RankSorted(b)
      && (forall i :: 0 <= i < |b| ==> !b[i].Procedure?)
      && (forall i :: 1 <= i < |b| ==> !b[i].Patient? && b[i].subject == Reference(b[0].id))
      && (forall i :: 0 <= i < |b| ==> b[i].id == uuid(i))
  {
    var b := [p, d] + fs;
    forall i | 2 <= i < |b|
      ensures b[i] == fs[i - 2] && !b[i].Procedure?
    {
      assert Rank(fs[i - 2]) <= 4;
    }
    assert RankSorted([p, d]);
    RankSortedAppend([p, d], fs, 2);
  }

  /** The bundle holds the Patient, the DocumentReference, at most five
      Observations, at most three MedicationStatements and at most three
      Conditions, in that order, and never a Procedure; every resource after
      the Patient refers to it, and the k-th resource carries the k-th uuid. */
  lemma BundleShape(rec: NlpRecord, uuid: nat -> string, now: string, currentYear: int)
    ensures var b := Bundle(rec, uuid, now, currentYear);
      && |b| == 2 + Min(5, |rec.cardiovascularEntities|) + Min(3, |rec.medications|) + Min(3, |rec.diagnoses|)
      && b[0].Patient? && b[1].DocumentReference?
      && RankSorted(b)
      && (forall i :: 0 <= i < |b| ==> !b[i].Procedure?)
      && (forall i :: 1 <= i < |b| ==> !b[i].Patient? && b[i].subject == Reference(b[0].id))
      && (forall i :: 0 <= i < |b| ==> b[i].id == uuid(i))
  {
    var patientId := uuid(0);
    var fs := Findings(rec, patientId, uuid, now);
    FindingsLinked(rec, patientId, uuid, now);
    FindingsSorted(rec, patientId, uuid, now);
    FindingsLength(rec, patientId, uuid, now);
    var p := PatientOf(PatientInfoOf(rec.phiEntities), patientId, currentYear);
    var d := DocumentReferenceOf(rec, uuid(1), patientId, now);
    AssembledShape(p, d, fs, uuid);
    var b := [p, d] + fs;
    assert b == Bundle(rec, uuid, now, currentYear);
  }

  /** With distinct uuids, the resources of the bundle have distinct ids. */
  lemma BundleIdsDistinct(rec: NlpRecord, uuid: nat -> string, now: string, currentYear: int)
    requires forall m: nat, n: nat :: m != n ==> uuid(m) != uuid(n)
    ensures var b := Bundle(rec, uuid, now, currentYear);
      forall i, j :: 0 <= i < j < |b| ==> b[i].id != b[j].id
  {
    BundleShape(rec, uuid, now, currentYear);
  }

  // ---------------------------------------------------------------------
  // Storing the resources
  // ---------------------------------------------------------------------

  /** `HEALTHLAKE_ENDPOINT` with any `/datastore/...` tail replaced by the
      datastore's FHIR R4 path. */
  function FhirBaseUrl(endpoint: string, datastoreId: string): string {
    BeforeFirst(endpoint, "/datastore/") + "/datastore/" + datastoreId + "/r4"
  }

  /** An endpoint without "/datastore/" gets the datastore path appended. */
  lemma FhirBaseUrlPlain(endpoint: string, datastoreId: string)
    requires !Contains(endpoint, "/datastore/")
    ensures FhirBaseUrl(endpoint, datastoreId) == endpoint + "/datastore/" + datastoreId + "/r4"
  {
  }

  /** An endpoint that already names a datastore path keeps only the host
      part before it, so the datastore id given wins. */
  lemma FhirBaseUrlOfDatastoreEndpoint(host: string, rest: string, datastoreId: string)
    requires !Contains(host + "/", "/datastore/")
    ensures FhirBaseUrl(host + "/datastore/" + rest, datastoreId) == host + "/datastore/" + datastoreId + "/r4"
  {
    var sep := "/datastore/";
    var e := host + sep + rest;
    assert e[..|host| + 1] == host + "/";
    assert e[|host|..|host| + 11] == sep;
    forall q | 0 <= q < |host|
      ensures !MatchAt(e, sep, q)
    {
      MatchAtPrefix(e, |host| + 1, sep, q);
      if q + 11 > |host| + 1 && q + 11 <= |e| {
        assert e[q..q + 11][|host| - q] == e[|host|] == '/';
        assert forall j :: 1 <= j <= 9 ==> sep[j] != '/';
      }
    }
    assert MatchAt(e, sep, |host|);
    var b := BeforeFirst(e, sep);
    assert |b| == |host|;
    assert b == e[..|host|] == host;
  }

  function ResourceUrl(baseUrl: string, r: Resource): string {
    baseUrl + "/" + ResourceType(r) + "/" + r.id
  }

  /** What the PUT of one resource came to: an HTTP status and body, or an
      exception raised before a response arrived. */
  datatype HttpOutcome = Responded(status: int, body: string) | Raised(message: string)

  /** An entry of the responses list; `detail` is the response body, the
      error body or the exception text. */
  datatype StoreResponse = StoreResponse(
    resourceType: string, id: string, status: string,
    httpStatus: Option<int>, location: Option<string>, detail: string)

  function StoreResponseOf(baseUrl: string, r: Resource, outcome: HttpOutcome): (resp: StoreResponse)
    ensures resp.resourceType == ResourceType(r) && resp.id == r.id
    ensures resp.status == "created" || resp.status == "error"
    ensures resp.status == "created" <==> outcome.Responded? && outcome.status in {200, 201}
    ensures resp.status == "created" ==> resp.location == Some(ResourceUrl(baseUrl, r))
    ensures outcome.Responded? ==> resp.httpStatus == Some(outcome.status)
    ensures outcome.Responded? && outcome.status !in {200, 201} ==>
      resp.detail == if outcome.body == [] then "Unknown error" else outcome.body
  {
    var url := ResourceUrl(baseUrl, r);
    match outcome
    case Responded(status, body) =>
      if status in {200, 201} then
        StoreResponse(ResourceType(r), r.id, "created", Some(status), Some(url), body)
      else
        StoreResponse(ResourceType(r), r.id, "error", Some(status), None, if body != [] then body else "Unknown error")
    case Raised(message) =>
      StoreResponse(ResourceType(r), r.id, "error", None, None, message)
  }

  /** One iteration of the PUT loop: the PUT of `resource` and the entry
      its outcome makes. */
  method StoreOne(fhirBaseUrl: string, resource: Resource, send: (string, Resource) -> HttpOutcome)
    returns (responseData: StoreResponse)
    ensures responseData == StoreResponseOf(fhirBaseUrl, resource, send(ResourceUrl(fhirBaseUrl, resource), resource))
  {
    var url := fhirBaseUrl + "/" + ResourceType(resource) + "/" + resource.id;
    assert url == ResourceUrl(fhirBaseUrl, resource);
    var outcome := send(url, resource);
    match outcome {
      case Responded(status, body) =>
        if status in {200, 201} {
          responseData := StoreResponse(ResourceType(resource), resource.id, "created", Some(status), Some(url), body);
        } else {
          var errorBody := if body != [] then body else "Unknown error";
          responseData := StoreResponse(ResourceType(resource), resource.id, "error", Some(status), None, errorBody);
        }
      case Raised(message) =>
        responseData := StoreResponse(ResourceType(resource), resource.id, "error", None, None, message);
    }
  }

  /** The PUT loop: one response per resource, in order. `send(url, r)` is
      what the signed PUT of `r` to `url` came to. */
  method StoreResourcesInHealthlake(fhirResources: seq<Resource>, endpoint: string, datastoreId: string,
                                    send: (string, Resource) -> HttpOutcome)
    returns (responses: seq<StoreResponse>)
    ensures |responses| == |fhirResources|
    ensures forall i :: 0 <= i < |responses| ==>
      var base := FhirBaseUrl(endpoint, datastoreId);
      responses[i] == StoreResponseOf(base, fhirResources[i], send(ResourceUrl(base, fhirResources[i]), fhirResources[i]))
  {
    var baseEndpoint := if Contains(endpoint, "/datastore/") then BeforeFirst(endpoint, "/datastore/") else endpoint;
    var fhirBaseUrl := baseEndpoint + "/datastore/" + datastoreId + "/r4";
    responses := [];
    var i := 0;
    while i < |fhirResources|
      invariant 0 <= i <= |fhirResources|
      invariant fhirBaseUrl == FhirBaseUrl(endpoint, datastoreId)
      invariant |responses| == i
      invariant forall k :: 0 <= k < i ==>
        responses[k] == StoreResponseOf(fhirBaseUrl, fhirResources[k], send(ResourceUrl(fhirBaseUrl, fhirResources[k]), fhirResources[k]))
    {
      var responseData := StoreOne(fhirBaseUrl, fhirResources[i], send);
      responses := responses + [responseData];
      i := i + 1;
    }
  }

  // ---------------------------------------------------------------------
  // The processing summary
  // ---------------------------------------------------------------------

  function CountStatus(responses: seq<StoreResponse>, status: string): nat {
    if responses == [] then 0
    else CountStatus(responses[..|responses| - 1], status) + (if responses[|responses| - 1].status == status then 1 else 0)
  }

  function CountType(rs: seq<Resource>, t: string): nat {
    if rs == [] then 0
    else CountType(rs[..|rs| - 1], t) + (if ResourceType(rs[|rs| - 1]) == t then 1 else 0)
  }

  /** `resource_breakdown`: one count per resource type present. */
  function Breakdown(rs: seq<Resource>): map<string, nat> {
    map t | t in (set r | r in rs :: ResourceType(r)) :: CountType(rs, t)
  }

  datatype Summary = Summary(
    timestamp: string,
    processingId: string,
    sourceFile: string,
    nlpEntitiesProcessed: nat,
    fhirResourcesCreated: nat,
    healthlakeResponses: nat,
    resourceBreakdown: map<string, nat>,
    successfulStores: nat,
    failedStores: nat)

  /** The summary, with the clock reading and the uuid it draws. The source
      file is `original_text`, else `original_audio_file`, else 'unknown'. */
  function ProcessingSummary(rec: NlpRecord, fhirResources: seq<Resource>, responses: seq<StoreResponse>,
                             timestamp: string, processingId: string): Summary {
    Summary(
      timestamp, processingId,
      if rec.originalText.Some? then rec.originalText.value else rec.originalAudioFile.GetOr("unknown"),
      rec.entityCount, |fhirResources|, |responses|, Breakdown(fhirResources),
      CountStatus(responses, "created"), CountStatus(responses, "error"))
  }

  function SummaryKey(processingId: string): string {
    "fhir-processing/summary_" + processingId + ".json"
  }

  /** When every response is 'created' or 'error', the two counts add up to
      the number of responses. */
  lemma {:induction false} StoresPartition(responses: seq<StoreResponse>)
    requires forall i :: 0 <= i < |responses| ==> responses[i].status in {"created", "error"}
    ensures CountStatus(responses, "created") + CountStatus(responses, "error") == |responses|
  {
    if responses != [] {
      StoresPartition(responses[..|responses| - 1]);
    }
  }

  /** The responses of the PUT loop are all 'created' or 'error', so the
      summary's success and failure counts partition them. */
  lemma SummaryCountsPartition(rec: NlpRecord, fhirResources: seq<Resource>, responses: seq<StoreResponse>,
                               endpoint: string, datastoreId: string, send: (string, Resource) -> HttpOutcome,
                               timestamp: string, processingId: string)
    requires |responses| == |fhirResources|
    requires forall i :: 0 <= i < |responses| ==>
      var base := FhirBaseUrl(endpoint, datastoreId);
      responses[i] == StoreResponseOf(base, fhirResources[i], send(ResourceUrl(base, fhirResources[i]), fhirResources[i]))
    ensures var s := ProcessingSummary(rec, fhirResources, responses, timestamp, processingId);
      s.successfulStores + s.failedStores == s.healthlakeResponses == s.fhirResourcesCreated
  {
    StoresPartition(responses);
  }

  /** The six per-type counts add up to the number of resources. */
  lemma {:induction false} CountTypesSum(rs: seq<Resource>)
    ensures CountType(rs, "Patient") + CountType(rs, "DocumentReference") + CountType(rs, "Observation")
          + CountType(rs, "MedicationStatement") + CountType(rs, "Condition") + CountType(rs, "Procedure") == |rs|
  {
    if rs != [] {
      CountTypesSum(rs[..|rs| - 1]);
    }
  }

  /** A type has a count exactly when some resource has it. */
  lemma {:induction false} CountTypePositive(rs: seq<Resource>, t: string)
    ensures CountType(rs, t) > 0 <==> exists r :: r in rs && ResourceType(r) == t
  {
    if rs != [] {
      var init := rs[..|rs| - 1];
      CountTypePositive(init, t);
      assert forall r :: r in rs <==> r in init || r == rs[|rs| - 1];
    }
  }

  /** The breakdown has a key for each type present and no other, each with
      a positive count; the counts of all six types sum to the resource count. */
  lemma BreakdownCounts(rs: seq<Resource>)
    ensures forall t :: t in Breakdown(rs) <==> exists r :: r in rs && ResourceType(r) == t
    ensures forall t :: t in Breakdown(rs) ==> Breakdown(rs)[t] == CountType(rs, t) > 0
    ensures forall t :: t in Breakdown(rs) ==>
      t in {"Patient", "DocumentReference", "Observation", "MedicationStatement", "Condition", "Procedure"}
    ensures CountType(rs, "Patient") + CountType(rs, "DocumentReference") + CountType(rs, "Observation")
          + CountType(rs, "MedicationStatement") + CountType(rs, "Condition") + CountType(rs, "Procedure") == |rs|
  {
    forall t | t in Breakdown(rs)
      ensures Breakdown(rs)[t] > 0
    {
      CountTypePositive(rs, t);
    }
    CountTypesSum(rs);
  }
}
