/** The read-side analytics script: the FHIR request URL, the per-type entry
    counts, the vital-sign rows flattened from Observations, the patient
    demographics, the document previews, and the cardiovascular summary.
    The signed HTTP GET is the `server` oracle (the response JSON on status
    200, None otherwise); `render` is Python's `str()` of a non-string value.
    The script catches nothing outside the content decoding, so the
    functions over parsed JSON answer None where Python would raise. The
    exception is CardiovascularSummary: the average heart rate and the
    blood-pressure line it prints are not modelled, so it answers Some
    where `sum` over string values or `:.0f` on None or a string raises. */
module HealthLakeAnalytics {
  import opened Wrappers
  import opened Text
  import opened JsonData
  import opened Encoding

  // ---------------------------------------------------------------------
  // Python operations on parsed JSON
  // ---------------------------------------------------------------------

  /** `key in j` for a string key. */
  function In(key: string, j: Json): Option<bool> {
    match j
    case JObject(fields) => Some(key in fields)
    case JArray(items) => Some(JString(key) in items)
    case JString(s) => Some(Contains(s, key))
    case _ => None
  }

  /** `str(j)` inside an f-string. */
  function Str(j: Json, render: Json -> string): string {
    if j.JString? then j.s else render(j)
  }

  /** `x.get(key, {}).get('coding', [{}])[0]` */
  function FirstCoding(x: Json, key: string): Option<Json> {
    var code :- Get(x, key, JObject(map[]));
    var coding :- Get(code, "coding", JArray([JObject(map[])]));
    First(coding)
  }

  /** `x.get(key, [{}])[0].get('display', 'Unknown')` */
  function FirstDisplay(x: Json, key: string): Option<Json> {
    var items :- Get(x, key, JArray([JObject(map[])]));
    var item :- First(items);
    Get(item, "display", JString("Unknown"))
  }

  /** `x.get('subject', {}).get('reference', '').replace('Patient/', '')` */
  function PatientIdOf(x: Json): Option<string> {
    var subject :- Get(x, "subject", JObject(map[]));
    var reference :- Get(subject, "reference", JString(""));
    if reference.JString? then Some(ReplaceAll(reference.s, "Patient/", "")) else None
  }

  /** The patient id is the reference with its "Patient/" prefix removed,
      and empty when the resource has no subject. */
  lemma PatientIdOfReference(fields: map<string, Json>, id: string)
    requires !Contains(id, "Patient/")
    ensures PatientIdOf(JObject(fields["subject" := JObject(map["reference" := JString("Patient/" + id)])])) == Some(id)
    ensures "subject" !in fields ==> PatientIdOf(JObject(fields)) == Some("")
  {
    DropPrefix("Patient/", id);
  }

  /** Collecting the rows of each element in turn; None as soon as one
      element raises. */
  function CollectAll<T, U>(xs: seq<T>, f: T -> Option<seq<U>>): Option<seq<U>> {
    if xs == [] then Some([])
    else
      var prior :- CollectAll(xs[..|xs| - 1], f);
      var rows :- f(xs[|xs| - 1]);
      Some(prior + rows)
  }

  lemma CollectNext<T, U>(xs: seq<T>, i: nat, f: T -> Option<seq<U>>, acc: seq<U>)
    requires i < |xs| && CollectAll(xs[..i], f) == Some(acc)
    ensures CollectAll(xs[..i + 1], f) == if f(xs[i]).None? then None else Some(acc + f(xs[i]).value)
  {
    assert xs[..i + 1][..i] == xs[..i];
  }

  lemma {:induction false} CollectFails<T, U>(xs: seq<T>, n: nat, f: T -> Option<seq<U>>)
    requires n <= |xs| && CollectAll(xs[..n], f).None?
    ensures CollectAll(xs, f).None?
    decreases |xs| - n
  {
    if n < |xs| {
      assert xs[..n + 1][..n] == xs[..n];
      CollectFails(xs, n + 1, f);
    } else {
      assert xs[..n] == xs;
    }
  }

  /** When each element gives one row, the rows match the elements one to one. */
  lemma {:induction false} CollectSingles<T, U>(xs: seq<T>, f: T -> Option<seq<U>>)
    requires forall x :: x in xs && f(x).Some? ==> |f(x).value| == 1
    requires CollectAll(xs, f).Some?
    ensures |CollectAll(xs, f).value| == |xs|
    ensures forall i :: 0 <= i < |xs| ==> f(xs[i]) == Some([CollectAll(xs, f).value[i]])
  {
    if xs != [] {
      var init := xs[..|xs| - 1];
      assert forall x :: x in init ==> x in xs;
      CollectSingles(init, f);
      var prior := CollectAll(init, f).value;
      var last := f(xs[|xs| - 1]).value;
      var all := CollectAll(xs, f).value;
      assert all == prior + last && |last| == 1;
      forall i | 0 <= i < |xs|
        ensures f(xs[i]) == Some([all[i]])
      {
        if i < |init| {
          assert xs[i] == init[i] && all[i] == prior[i];
          assert f(init[i]) == Some([prior[i]]);
        } else {
          assert all[i] == last[0] && last == [last[0]];
        }
      }
    }
  }

  // ---------------------------------------------------------------------
  // make_fhir_request and analyze_resource_distribution
  // ---------------------------------------------------------------------

  function BaseUrl(datastoreId: string): string {
    "https://healthlake.us-east-1.amazonaws.com/datastore/" + datastoreId + "/r4"
  }

  /** The URL of a request: by id when one is given, else with the query
      parameters when there are any, else the whole type. An empty string
      stands for a missing id or parameters. */
  function RequestUrl(baseUrl: string, resourceType: string, resourceId: string, params: string): string {
    if resourceId != "" then baseUrl + "/" + resourceType + "/" + resourceId
    else if params != "" then baseUrl + "/" + resourceType + "?" + params
    else baseUrl + "/" + resourceType
  }

  /** The URL starts with the type's path; it has a query exactly when no id
      and some parameters are given, and then the query is the parameters. */
  lemma RequestUrlQuery(baseUrl: string, resourceType: string, resourceId: string, params: string)
    requires '?' !in baseUrl && '?' !in resourceType && '?' !in resourceId
    ensures var url := RequestUrl(baseUrl, resourceType, resourceId, params);
      && StartsWith(url, baseUrl + "/" + resourceType)
      && ('?' in url <==> resourceId == "" && params != "")
      && (resourceId == "" && params != "" ==> SplitOnce(url, '?') == [baseUrl + "/" + resourceType, params])
  {
    var path := baseUrl + "/" + resourceType;
    var url := RequestUrl(baseUrl, resourceType, resourceId, params);
    assert '?' !in path;
    if resourceId != "" {
      assert url == path + ("/" + resourceId);
      assert url[..|path|] == path;
    } else if params != "" {
      assert url == path + ("?" + params);
      assert url[..|path|] == path;
      SplitOnceAt(path, '?', params);
    } else {
      assert url[..|path|] == path;
    }
  }

  /** `len(data['entry'])` when the result is truthy and has 'entry', else 0. */
  function EntryCount(data: Option<Json>): Option<nat> {
    if data.None? || !data.value.Truthy() then Some(0)
    else
      var has :- In("entry", data.value);
      if !has then Some(0)
      else
        var entry :- Subscript(data.value, "entry");
        Len(entry)
  }

  /** The entries an analysis iterates: none without a result or without
      'entry'. */
  function Entries(data: Option<Json>): Option<seq<Json>> {
    if data.None? || !data.value.Truthy() then Some([])
    else
      var has :- In("entry", data.value);
      if !has then Some([])
      else
        var entry :- Subscript(data.value, "entry");
        Elements(entry)
  }

  /** The count in the distribution is the number of entries the other
      analyses walk through. */
  lemma EntryCountIsEntries(data: Option<Json>)
    requires Entries(data).Some?
    ensures EntryCount(data) == Some(|Entries(data).value|)
  {
  }

  /** A bundle with an 'entry' list counts its elements; no result, or a
      result without 'entry', counts 0. */
  lemma EntryCountOfBundle(fields: map<string, Json>, items: seq<Json>)
    ensures EntryCount(Some(JObject(fields["entry" := JArray(items)]))) == Some(|items|)
    ensures "entry" !in fields ==> EntryCount(Some(JObject(fields))) == Some(0)
    ensures EntryCount(None) == Some(0)
  {
    var m := fields["entry" := JArray(items)];
    assert m != map[] by {
      assert "entry" in m;
    }
  }

  /** The labels of the distribution and the types they request, in order. */
  const DistributionTypes: seq<(string, string)> :=
    [("Patients", "Patient"), ("Observations", "Observation"), ("Documents", "DocumentReference"), ("Procedures", "Procedure")]

  function DistributionRow(labelled: (string, Option<Json>)): Option<seq<(string, nat)>> {
    var count :- EntryCount(labelled.1);
    Some([(labelled.0, count)])
  }

  // ---------------------------------------------------------------------
  // analyze_vital_signs
  // ---------------------------------------------------------------------

  /** A row of `vital_signs`; Python's None is JNull. */
  datatype VitalSign = VitalSign(
    patientId: string,
    date: Json,
    performer: Json,
    status: Json,
    signType: Json,
    value: Json,
    unit: Json,
    loincCode: Json)

  /** The fields every row of one observation shares (`obs_data`). */
  datatype ObservationBase = ObservationBase(patientId: string, date: Json, performer: Json, status: Json)

  function BaseOf(obs: Json): (r: Option<ObservationBase>)
    ensures r.Some? ==> obs.JObject?
  {
    var patientId :- PatientIdOf(obs);
    var date :- Get(obs, "effectiveDateTime", JString(""));
    var performer :- FirstDisplay(obs, "performer");
    var status :- Get(obs, "status", JString(""));
    Some(ObservationBase(patientId, date, performer, status))
  }

  /** One row: the base fields, the coding's display and code, and the
      quantity's value and unit. */
  function RowOf(base: ObservationBase, codeInfo: Json, quantity: Json): (r: Option<VitalSign>)
    ensures r.Some? ==> r.value.patientId == base.patientId && r.value.date == base.date
                        && r.value.performer == base.performer && r.value.status == base.status
  {
    var signType :- Get(codeInfo, "display", JString("Unknown"));
    var value :- Get(quantity, "value", JNull);
    var unit :- Get(quantity, "unit", JNull);
    var loincCode :- Get(codeInfo, "code", JNull);
    Some(VitalSign(base.patientId, base.date, base.performer, base.status, signType, value, unit, loincCode))
  }

  /** The row of one component of a multi-component observation. */
  function ComponentRow(base: ObservationBase, component: Json): Option<seq<VitalSign>> {
    var codeInfo :- FirstCoding(component, "code");
    var quantity :- Get(component, "valueQuantity", JObject(map[]));
    var row :- RowOf(base, codeInfo, quantity);
    Some([row])
  }

  function ComponentRows(base: ObservationBase): Json -> Option<seq<VitalSign>> {
    component => ComponentRow(base, component)
  }

  /** The rows of one observation: one for a `valueQuantity`, else one per
      component, else none. */
  function ObservationRows(obs: Json): Option<seq<VitalSign>> {
    var base :- BaseOf(obs);
    if "valueQuantity" in obs.fields then
      var codeInfo :- FirstCoding(obs, "code");
      var row :- RowOf(base, codeInfo, obs.fields["valueQuantity"]);
      Some([row])
    else if "component" in obs.fields then
      var components :- Elements(obs.fields["component"]);
      CollectAll(components, ComponentRows(base))
    else Some([])
  }

  /** `entry['resource']` and its rows. */
  function EntryRows(entry: Json): Option<seq<VitalSign>> {
    var obs :- Subscript(entry, "resource");
    ObservationRows(obs)
  }

  /** The rows of every observation, in entry order. */
  function VitalSigns(data: Option<Json>): Option<seq<VitalSign>> {
    var entries :- Entries(data);
    CollectAll(entries, EntryRows)
  }

  /** An observation with a `valueQuantity` gives exactly one row; otherwise
      one with `component` gives one row per component, in order; otherwise
      none. Every row carries the observation's patient, date, performer and
      status. */
  lemma ObservationRowsShape(obs: Json)
    requires ObservationRows(obs).Some?
    ensures var rows := ObservationRows(obs).value;
      && obs.JObject? && BaseOf(obs).Some?
      && ("valueQuantity" in obs.fields ==> |rows| == 1)
      && ("valueQuantity" !in obs.fields && "component" in obs.fields ==>
            Elements(obs.fields["component"]).Some? && |rows| == |Elements(obs.fields["component"]).value|)
      && ("valueQuantity" !in obs.fields && "component" !in obs.fields ==> rows == [])
      && forall k :: 0 <= k < |rows| ==>
           var b := BaseOf(obs).value;
           rows[k].patientId == b.patientId && rows[k].date == b.date
           && rows[k].performer == b.performer && rows[k].status == b.status
  {
    var base := BaseOf(obs).value;
    if "valueQuantity" !in obs.fields && "component" in obs.fields {
      var components := Elements(obs.fields["component"]).value;
      var f := ComponentRows(base);
      forall c | c in components && f(c).Some?
        ensures |f(c).value| == 1
      {
      }
      CollectSingles(components, f);
      var rows := CollectAll(components, f).value;
      forall k | 0 <= k < |rows|
        ensures rows[k].patientId == base.patientId && rows[k].date == base.date
                && rows[k].performer == base.performer && rows[k].status == base.status
      {
        assert f(components[k]) == Some([rows[k]]);
      }
    }
  }

  // ---------------------------------------------------------------------
  // analyze_patient_demographics
  // ---------------------------------------------------------------------

  datatype Demographic = Demographic(id: Json, name: string, gender: Json, birthDate: Json, active: Json, location: string)

  /** The first name's first given name and its family name, with a space
      between them. */
  function FullNameOf(patient: Json, render: Json -> string): Option<string> {
    var names :- Get(patient, "name", JArray([JObject(map[])]));
    var nameInfo :- First(names);
    var givens :- Get(nameInfo, "given", JArray([JString("")]));
    var given :- First(givens);
    var family :- Get(nameInfo, "family", JString(""));
    Some(Str(given, render) + " " + Str(family, render))
  }

  /** The first address's city and state, with ", " between them. */
  function LocationOf(patient: Json, render: Json -> string): Option<string> {
    var addresses :- Get(patient, "address", JArray([JObject(map[])]));
    var addressInfo :- First(addresses);
    var city :- Get(addressInfo, "city", JString(""));
    var state :- Get(addressInfo, "state", JString(""));
    Some(Str(city, render) + ", " + Str(state, render))
  }

  /** One patient: its stripped full name and its location. */
  function DemographicOf(patient: Json, render: Json -> string): Option<Demographic> {
    var fullName :- FullNameOf(patient, render);
    var location :- LocationOf(patient, render);
    var id :- Get(patient, "id", JNull);
    var gender :- Get(patient, "gender", JNull);
    var birthDate :- Get(patient, "birthDate", JNull);
    var active :- Get(patient, "active", JNull);
    Some(Demographic(id, Strip(fullName), gender, birthDate, active, location))
  }

  function DemographicRows(render: Json -> string): Json -> Option<seq<Demographic>> {
    entry =>
      var patient :- Subscript(entry, "resource");
      var row :- DemographicOf(patient, render);
      Some([row])
  }

  function Demographics(data: Option<Json>, render: Json -> string): Option<seq<Demographic>> {
    var entries :- Entries(data);
    CollectAll(entries, DemographicRows(render))
  }

  /** A patient with a given and a family name is listed under both. */
  lemma DemographicName(given: string, family: string, render: Json -> string)
    requires given != [] && family != [] && !IsSpace(given[0]) && !IsSpace(family[|family| - 1])
    ensures var name := JObject(map["given" := JArray([JString(given)]), "family" := JString(family)]);
      var patient := JObject(map["name" := JArray([name])]);
      DemographicOf(patient, render).Some?
      && DemographicOf(patient, render).value.name == given + " " + family
      && DemographicOf(patient, render).value.location == ", "
  {
    var name := JObject(map["given" := JArray([JString(given)]), "family" := JString(family)]);
    var patient := JObject(map["name" := JArray([name])]);
    assert FullNameOf(patient, render) == Some(given + " " + family) by {
      assert "given" in name.fields && name.fields["given"] == JArray([JString(given)]);
      assert "family" in name.fields && name.fields["family"] == JString(family);
    }
    assert LocationOf(patient, render) == Some(", ") by {
      assert "address" !in patient.fields;
      var empty: map<string, Json> := map[];
      assert "city" !in empty && "state" !in empty;
      assert Str(JString(""), render) == "";
      assert "" + ", " + "" == ", ";
    }
    var s := given + " " + family;
    assert s[0] == given[0] && s[|s| - 1] == family[|family| - 1];
    StripUnchanged(s);
  }

  /** A text that neither starts nor ends with white space is its own strip. */
  lemma StripUnchanged(s: string)
    requires s != [] && !IsSpace(s[0]) && !IsSpace(s[|s| - 1])
    ensures Strip(s) == s
  {
    assert LeadingSpace(s) == 0 && TrailingSpace(s) == |s|;
    assert s[0..|s|] == s;
  }

  // ---------------------------------------------------------------------
  // analyze_clinical_documents
  // ---------------------------------------------------------------------

  const NotAvailable := "Content not available"
  const NotDecoded := "Could not decode content"

  /** `doc['content'][0].get('attachment', {}).get('data', '')` */
  function EncodedData(content: Json): Option<Json> {
    var first :- First(content);
    var attachment :- Get(first, "attachment", JObject(map[]));
    Get(attachment, "data", JString(""))
  }

  /** The try block: the decoded note, or NotDecoded when any step raises;
      empty data leaves NotAvailable. */
  function DecodedContent(content: Json): string {
    match EncodedData(content)
    case None => NotDecoded
    case Some(data) =>
      if !data.Truthy() then NotAvailable
      else if !data.JString? then NotDecoded
      else match Base64Decode(data.s)
        case None => NotDecoded
        case Some(bytes) =>
          match Utf8Decode(bytes)
          case None => NotDecoded
          case Some(text) => text
  }

  /** `content_text` of a document (a dict). */
  function ContentText(doc: map<string, Json>): string {
    if "content" in doc && doc["content"].Truthy() then DecodedContent(doc["content"]) else NotAvailable
  }

  /** The first 200 characters and "..." for a longer text, else the text. */
  function Preview(text: string): (p: string)
    ensures |text| <= 200 ==> p == text
    ensures |text| > 200 ==> |p| == 203 && StartsWith(text, p[..200]) && p[200..] == "..."
  {
    if |text| > 200 then text[..200] + "..." else text
  }

  /** The summary row of one document. */
  datatype DocumentSummary = DocumentSummary(
    id: Json,
    docType: Json,
    date: Json,
    author: Json,
    description: Json,
    patientId: string,
    contentPreview: string)

  function DocumentOf(doc: Json): Option<DocumentSummary> {
    if !doc.JObject? then None
    else
      var contentText := ContentText(doc.fields);
      var id :- Get(doc, "id", JNull);
      var coding :- FirstCoding(doc, "type");
      var docType :- Get(coding, "display", JString("Unknown"));
      var date :- Get(doc, "date", JNull);
      var author :- FirstDisplay(doc, "author");
      var description :- Get(doc, "description", JString(""));
      var patientId :- PatientIdOf(doc);
      Some(DocumentSummary(id, docType, date, author, description, patientId, Preview(contentText)))
  }

  function DocumentRows(entry: Json): Option<seq<DocumentSummary>> {
    var doc :- Subscript(entry, "resource");
    var row :- DocumentOf(doc);
    Some([row])
  }

  function Documents(data: Option<Json>): Option<seq<DocumentSummary>> {
    var entries :- Entries(data);
    CollectAll(entries, DocumentRows)
  }

  /** The content list holding one attachment with the given data. */
  function AttachedData(data: Json): Json {
    JArray([JObject(map["attachment" := JObject(map["data" := data])])])
  }

  /** The data of a single attachment is what the try block decodes. */
  lemma AttachedDataFound(data: Json)
    ensures EncodedData(AttachedData(data)) == Some(data)
  {
  }

  /** Base64 of the UTF-8 bytes of a note decodes back to the note. */
  lemma DecodedNote(note: string)
    requires note != []
    ensures DecodedContent(AttachedData(JString(Base64Encode(Utf8Encode(note))))) == note
  {
    var bytes := Utf8Encode(note);
    Utf8RoundTrip(note);
    Base64RoundTrip(bytes);
    AttachedDataFound(JString(Base64Encode(bytes)));
    assert |Base64Encode(bytes)| > 0;
  }

  /** Line-wrapped base64 is read as b64decode reads it: the line break is
      dropped and the note comes back. */
  lemma WrappedNoteDecoded()
    ensures DecodedContent(AttachedData(JString("aGVs\nbG8="))) == "hello"
  {
    WrappedExample();
    HelloBytes();
    Utf8RoundTrip("hello");
    AttachedDataFound(JString("aGVs\nbG8="));
  }

  lemma HelloBytes()
    ensures Utf8Encode("hello") == [104, 101, 108, 108, 111]
  {
    assert Utf8Encode("o") == [111];
    assert Utf8Encode("lo") == [108] + Utf8Encode("o");
    assert Utf8Encode("llo") == [108] + Utf8Encode("lo");
    assert Utf8Encode("ello") == [101] + Utf8Encode("llo");
    assert Utf8Encode("hello") == [104] + Utf8Encode("ello");
  }

  /** A note stored as base64 of its UTF-8 bytes reads back as the note;
      an empty note shows as "Content not available". */
  lemma ContentOfEncodedNote(doc: map<string, Json>, note: string)
    ensures ContentText(doc["content" := AttachedData(JString(Base64Encode(Utf8Encode(note))))])
         == if note == [] then NotAvailable else note
  {
    var data := JString(Base64Encode(Utf8Encode(note)));
    var d := doc["content" := AttachedData(data)];
    assert "content" in d && d["content"] == AttachedData(data);
    AttachedDataFound(data);
    if note != [] {
      DecodedNote(note);
    } else {
      assert Utf8Encode(note) == [];
    }
  }

  /** A document without content shows "Content not available". */
  lemma ContentMissing(doc: map<string, Json>)
    requires "content" !in doc
    ensures ContentText(doc) == NotAvailable
  {
  }

  // ---------------------------------------------------------------------
  // create_cardiovascular_summary
  // ---------------------------------------------------------------------

  /** `[v for v in vitals if term in v.get('type', '').lower()]`; a type that
      is not a string has no `lower` and raises. */
  function VitalsMentioning(vitals: seq<VitalSign>, term: string): Option<seq<VitalSign>> {
    if vitals == [] then Some([])
    else
      var prior :- VitalsMentioning(vitals[..|vitals| - 1], term);
      var v := vitals[|vitals| - 1];
      if !v.signType.JString? then None
      else Some(prior + if Contains(Lower(v.signType.s), term) then [v] else [])
  }

  /** `[d for d in documents if term in d.get('content_preview', '').lower()]` */
  function NotesMentioning(documents: seq<DocumentSummary>, term: string): seq<DocumentSummary> {
    if documents == [] then []
    else
      var d := documents[|documents| - 1];
      NotesMentioning(documents[..|documents| - 1], term) + if Contains(Lower(d.contentPreview), term) then [d] else []
  }

  predicate Mentions(v: VitalSign, term: string) {
    v.signType.JString? && Contains(Lower(v.signType.s), term)
  }

  /** The filter succeeds exactly when every type is a string, and then keeps
      exactly the rows whose lower-cased type contains the term, in order. */
  lemma {:induction false} VitalsMentioningExact(vitals: seq<VitalSign>, term: string)
    ensures VitalsMentioning(vitals, term).Some? <==> forall i :: 0 <= i < |vitals| ==> vitals[i].signType.JString?
    ensures VitalsMentioning(vitals, term).Some? ==>
      var r := VitalsMentioning(vitals, term).value;
      && (forall v :: v in r <==> v in vitals && Mentions(v, term))
      && |r| <= |vitals|
  {
    if vitals != [] {
      var init := vitals[..|vitals| - 1];
      VitalsMentioningExact(init, term);
      assert forall i :: 0 <= i < |init| ==> init[i] == vitals[i];
      assert vitals == init + [vitals[|vitals| - 1]];
    }
  }

  /** The notes kept are exactly those whose lower-cased preview contains the term. */
  lemma {:induction false} NotesMentioningExact(documents: seq<DocumentSummary>, term: string)
    ensures forall d :: d in NotesMentioning(documents, term) <==> d in documents && Contains(Lower(d.contentPreview), term)
    ensures |NotesMentioning(documents, term)| <= |documents|
  {
    if documents != [] {
      var init := documents[..|documents| - 1];
      NotesMentioningExact(init, term);
      assert documents == init + [documents[|documents| - 1]];
    }
  }

  datatype CvSummary = CvSummary(
    totalPatients: nat,
    totalVitalMeasurements: nat,
    totalClinicalNotes: nat,
    heartRateReadings: seq<VitalSign>,
    bpReadings: seq<VitalSign>,
    procedureNotes: seq<DocumentSummary>)

  function CardiovascularSummary(demographics: seq<Demographic>, vitals: seq<VitalSign>,
                                 documents: seq<DocumentSummary>): Option<CvSummary> {
    var heartRate :- VitalsMentioning(vitals, "heart rate");
    var bloodPressure :- VitalsMentioning(vitals, "blood pressure");
    Some(CvSummary(|demographics|, |vitals|, |documents|, heartRate, bloodPressure,
                   NotesMentioning(documents, "catheter")))
  }

  /** The totals count one patient per Patient entry and one note per
      DocumentReference entry. */
  lemma SummaryTotals(patients: Option<Json>, documents: Option<Json>, render: Json -> string)
    requires Demographics(patients, render).Some? && Documents(documents).Some?
    ensures |Demographics(patients, render).value| == |Entries(patients).value|
    ensures |Documents(documents).value| == |Entries(documents).value|
  {
    var f := DemographicRows(render);
    var ps := Entries(patients).value;
    forall e | e in ps && f(e).Some?
      ensures |f(e).value| == 1
    {
    }
    CollectSingles(ps, f);
    var ds := Entries(documents).value;
    forall e | e in ds && DocumentRows(e).Some?
      ensures |DocumentRows(e).value| == 1
    {
    }
    CollectSingles(ds, DocumentRows);
  }

  // ---------------------------------------------------------------------
  // The analytics object
  // ---------------------------------------------------------------------

  class HealthLakeAnalytics {
    const datastoreId: string
    const baseUrl: string
    /** The signed GET: the response JSON on status 200, None otherwise. */
    const server: string -> Option<Json>
    /** `str()` of a value that is not a string. */
    const render: Json -> string

    constructor (datastoreId: string, server: string -> Option<Json>, render: Json -> string)
      ensures this.datastoreId == datastoreId && baseUrl == BaseUrl(datastoreId)
      ensures this.server == server && this.render == render
    {
      this.datastoreId := datastoreId;
      baseUrl := BaseUrl(datastoreId);
      this.server := server;
      this.render := render;
    }

    /** `make_fhir_request` */
    method MakeFhirRequest(resourceType: string, resourceId: string, params: string) returns (r: Option<Json>)
      ensures r == server(RequestUrl(baseUrl, resourceType, resourceId, params))
    {
      var url := RequestUrl(baseUrl, resourceType, resourceId, params);
      r := server(url);
    }

    /** `analyze_resource_distribution`: the count per label, in order. */
    method AnalyzeResourceDistribution() returns (distribution: Option<seq<(string, nat)>>)
      ensures distribution == CollectAll(Resources(), DistributionRow)
      ensures distribution.Some? ==> |distribution.value| == 4
    {
      var patients := MakeFhirRequest("Patient", "", "");
      var observations := MakeFhirRequest("Observation", "", "");
      var documents := MakeFhirRequest("DocumentReference", "", "");
      var procedures := MakeFhirRequest("Procedure", "", "");
      var resources := [("Patients", patients), ("Observations", observations),
                        ("Documents", documents), ("Procedures", procedures)];
      assert resources == Resources();
      var rows := [];
      var i := 0;
      while i < |resources|
        invariant 0 <= i <= |resources|
        invariant CollectAll(resources[..i], DistributionRow) == Some(rows)
      {
        CollectNext(resources, i, DistributionRow, rows);
        var count := EntryCount(resources[i].1);
        if count.None? {
          CollectFails(resources, i + 1, DistributionRow);
          return None;
        }
        rows := rows + [(resources[i].0, count.value)];
        i := i + 1;
      }
      assert resources[..i] == resources;
      distribution := Some(rows);
      forall x | x in resources && DistributionRow(x).Some?
        ensures |DistributionRow(x).value| == 1
      {
      }
      CollectSingles(resources, DistributionRow);
    }

    /** The labelled results the distribution counts. */
    function Resources(): (rs: seq<(string, Option<Json>)>)
      ensures |rs| == |DistributionTypes|
      ensures forall k :: 0 <= k < |rs| ==>
        rs[k] == (DistributionTypes[k].0, server(RequestUrl(baseUrl, DistributionTypes[k].1, "", "")))
    {
      [("Patients", server(RequestUrl(baseUrl, "Patient", "", ""))),
       ("Observations", server(RequestUrl(baseUrl, "Observation", "", ""))),
       ("Documents", server(RequestUrl(baseUrl, "DocumentReference", "", ""))),
       ("Procedures", server(RequestUrl(baseUrl, "Procedure", "", "")))]
    }

    /** `analyze_vital_signs` */
    method AnalyzeVitalSigns() returns (vitalSigns: Option<seq<VitalSign>>)
      ensures vitalSigns == VitalSigns(server(RequestUrl(baseUrl, "Observation", "", "")))
    {
      var observations := MakeFhirRequest("Observation", "", "");
      var entries := Entries(observations);
      if entries.None? {
        return None;
      }
      var es := entries.value;
      var rows := [];
      var i := 0;
      while i < |es|
        invariant 0 <= i <= |es|
        invariant CollectAll(es[..i], EntryRows) == Some(rows)
      {
        CollectNext(es, i, EntryRows, rows);
        var obs := Subscript(es[i], "resource");
        if obs.None? {
          CollectFails(es, i + 1, EntryRows);
          return None;
        }
        var obsRows := FlattenObservation(obs.value);
        if obsRows.None? {
          CollectFails(es, i + 1, EntryRows);
          return None;
        }
        rows := rows + obsRows.value;
        i := i + 1;
      }
      assert es[..i] == es;
      vitalSigns := Some(rows);
    }

    /** The body of the loop over observations, with its loop over the
        components of a multi-component observation. */
    method FlattenObservation(obs: Json) returns (rows: Option<seq<VitalSign>>)
      ensures rows == ObservationRows(obs)
    {
      var base := BaseOf(obs);
      if base.None? {
        return None;
      }
      if "valueQuantity" in obs.fields {
        var codeInfo := FirstCoding(obs, "code");
        if codeInfo.None? {
          return None;
        }
        var row := RowOf(base.value, codeInfo.value, obs.fields["valueQuantity"]);
        if row.None? {
          return None;
        }
        return Some([row.value]);
      } else if "component" in obs.fields {
        var components := Elements(obs.fields["component"]);
        if components.None? {
          return None;
        }
        var cs := components.value;
        var f := ComponentRows(base.value);
        var compRows := [];
        var j := 0;
        while j < |cs|
          invariant 0 <= j <= |cs|
          invariant CollectAll(cs[..j], f) == Some(compRows)
        {
          CollectNext(cs, j, f, compRows);
          var compData := ComponentRow(base.value, cs[j]);
          if compData.None? {
            CollectFails(cs, j + 1, f);
            return None;
          }
          compRows := compRows + compData.value;
          j := j + 1;
        }
        assert cs[..j] == cs;
        return Some(compRows);
      }
      return Some([]);
    }

    /** `analyze_patient_demographics` */
    method AnalyzePatientDemographics() returns (demographics: Option<seq<Demographic>>)
      ensures demographics == Demographics(server(RequestUrl(baseUrl, "Patient", "", "")), render)
    {
      var patients := MakeFhirRequest("Patient", "", "");
      var entries := Entries(patients);
      if entries.None? {
        return None;
      }
      var es := entries.value;
      var f := DemographicRows(render);
      var rows := [];
      var i := 0;
      while i < |es|
        invariant 0 <= i <= |es|
        invariant CollectAll(es[..i], f) == Some(rows)
      {
        CollectNext(es, i, f, rows);
        var row := f(es[i]);
        if row.None? {
          CollectFails(es, i + 1, f);
          return None;
        }
        rows := rows + row.value;
        i := i + 1;
      }
      assert es[..i] == es;
      demographics := Some(rows);
    }

    /** `analyze_clinical_documents` */
    method AnalyzeClinicalDocuments() returns (documents: Option<seq<DocumentSummary>>)
      ensures documents == Documents(server(RequestUrl(baseUrl, "DocumentReference", "", "")))
    {
      var data := MakeFhirRequest("DocumentReference", "", "");
      var entries := Entries(data);
      if entries.None? {
        return None;
      }
      var es := entries.value;
      var rows := [];
      var i := 0;
      while i < |es|
        invariant 0 <= i <= |es|
        invariant CollectAll(es[..i], DocumentRows) == Some(rows)
      {
        CollectNext(es, i, DocumentRows, rows);
        var row := DocumentRows(es[i]);
        if row.None? {
          CollectFails(es, i + 1, DocumentRows);
          return None;
        }
        rows := rows + row.value;
        i := i + 1;
      }
      assert es[..i] == es;
      documents := Some(rows);
    }

    /** `create_cardiovascular_summary` */
    method CreateCardiovascularSummary() returns (summary: Option<CvSummary>)
      ensures var demographics := Demographics(server(RequestUrl(baseUrl, "Patient", "", "")), render);
        var vitals := VitalSigns(server(RequestUrl(baseUrl, "Observation", "", "")));
        var documents := Documents(server(RequestUrl(baseUrl, "DocumentReference", "", "")));
        summary == if demographics.None? || vitals.None? || documents.None? then None
                   else CardiovascularSummary(demographics.value, vitals.value, documents.value)
    {
      var demographics := AnalyzePatientDemographics();
      if demographics.None? {
        return None;
      }
      var vitals := AnalyzeVitalSigns();
      if vitals.None? {
        return None;
      }
      var documents := AnalyzeClinicalDocuments();
      if documents.None? {
        return None;
      }
      summary := CardiovascularSummary(demographics.value, vitals.value, documents.value);
    }
  }
}
