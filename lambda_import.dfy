/** The S3-triggered import handler: the structural check of a FHIR
    resource, the per-record filter that decides which uploaded objects are
    staged and imported, the keys it derives, and the import-job request.
    Every AWS call is an oracle in `Services`; the clock is a `Clock` per
    record. */
module LambdaImport {
  import opened Wrappers
  import opened Text
  import opened JsonData
  import AudioTranscription

  // ---------------------------------------------------------------------
  // validate_fhir_resource
  // ---------------------------------------------------------------------

  /** The first of `fields` that `resource` lacks, if any. */
  function FirstMissing(resource: map<string, Json>, fields: seq<string>): (r: Option<string>)
    ensures r.None? <==> forall f :: f in fields ==> f in resource
    ensures r.Some? ==> exists i :: 0 <= i < |fields| && fields[i] == r.value && r.value !in resource
                                    && forall j :: 0 <= j < i ==> fields[j] in resource
  {
    if fields == [] then None
    else if fields[0] !in resource then
      Some(fields[0])
    else
      var r := FirstMissing(resource, fields[1..]);
      assert forall f :: f in fields ==> f == fields[0] || f in fields[1..];
      if r.Some? then
        var i :| 0 <= i < |fields[1..]| && fields[1..][i] == r.value && r.value !in resource
                 && forall j :: 0 <= j < i ==> fields[1..][j] in resource;
        assert fields[i + 1] == r.value;
        r
      else r
  }

  const FindingFields: seq<string> := ["status", "code", "subject"]

  /** `(is_valid, message)` for a resource, checked in the order the source
      checks: resourceType, then the per-type fields. */
  function ValidateFhirResource(resource: map<string, Json>): (v: (bool, string))
    ensures v.0 <==> ValidSpec(resource)
    ensures v.0 ==> v.1 == "Valid FHIR resource"
  {
    if "resourceType" !in resource then (false, "Missing required field: resourceType")
    else
      var resourceType := resource["resourceType"];
      if resourceType == JString("Patient") then
        if "identifier" !in resource && "name" !in resource then
          (false, "Patient resource must have either identifier or name")
        else (true, "Valid FHIR resource")
      else if resourceType == JString("Observation") then
        match FirstMissing(resource, FindingFields)
        case Some(field) => (false, "Observation" + " missing required field: " + field)
        case None => (true, "Valid FHIR resource")
      else if resourceType == JString("Procedure") then
        match FirstMissing(resource, FindingFields)
        case Some(field) => (false, "Procedure" + " missing required field: " + field)
        case None => (true, "Valid FHIR resource")
      else (true, "Valid FHIR resource")
  }

  /** The structural rules, stated without the order of the checks. */
  predicate ValidSpec(resource: map<string, Json>) {
    && "resourceType" in resource
    && (resource["resourceType"] == JString("Patient") ==> "identifier" in resource || "name" in resource)
    && (resource["resourceType"] in {JString("Observation"), JString("Procedure")} ==>
          "status" in resource && "code" in resource && "subject" in resource)
  }

  /** A resource without resourceType is rejected with that field's name,
      whatever else it holds. */
  lemma MissingResourceTypeMessage(resource: map<string, Json>)
    requires "resourceType" !in resource
    ensures ValidateFhirResource(resource) == (false, "Missing required field: resourceType")
  {
  }

  /** An Observation or Procedure lacking a field is rejected naming the
      first missing one of status, code, subject. */
  lemma FindingMessageNamesFirstMissing(resource: map<string, Json>, typeName: string)
    requires typeName in {"Observation", "Procedure"}
    requires "resourceType" in resource && resource["resourceType"] == JString(typeName)
    requires !ValidSpec(resource)
    ensures exists i :: (0 <= i < 3 && FindingFields[i] !in resource
      && (forall j :: 0 <= j < i ==> FindingFields[j] in resource)
      && ValidateFhirResource(resource) == (false, typeName + " missing required field: " + FindingFields[i]))
  {
    var m := FirstMissing(resource, FindingFields);
    assert !("status" in resource && "code" in resource && "subject" in resource);
    assert m.Some?;
    var i :| 0 <= i < |FindingFields| && FindingFields[i] == m.value && m.value !in resource
             && forall j :: 0 <= j < i ==> FindingFields[j] in resource;
    assert m == Some(FindingFields[i]);
    if typeName == "Observation" {
      assert JString(typeName) != JString("Patient") by {
        assert |typeName| != 7;
      }
    } else {
      assert typeName == "Procedure";
      assert JString(typeName) != JString("Patient") by {
        assert typeName[1] != 'a';
      }
      assert JString(typeName) != JString("Observation") by {
        assert |typeName| != 11;
      }
    }
  }

  /** A Patient passes exactly when it has an identifier or a name, and one
      with neither is rejected with the Patient message. */
  lemma PatientNeedsIdentifierOrName(resource: map<string, Json>)
    requires "resourceType" in resource && resource["resourceType"] == JString("Patient")
    ensures ValidateFhirResource(resource)
         == if "identifier" in resource || "name" in resource then (true, "Valid FHIR resource")
            else (false, "Patient resource must have either identifier or name")
  {
  }

  /** Any other resource type only needs resourceType. */
  lemma OtherTypesValid(resource: map<string, Json>)
    requires "resourceType" in resource
    requires resource["resourceType"] !in {JString("Patient"), JString("Observation"), JString("Procedure")}
    ensures ValidateFhirResource(resource) == (true, "Valid FHIR resource")
  {
  }

  // ---------------------------------------------------------------------
  // Keys and the import request
  // ---------------------------------------------------------------------

  /** The last '/'-segment of a key: `key.split('/')[-1]`. */
  function FileName(key: string): (name: string)
    ensures '/' !in name
  {
    SplitPiecesClean(key, '/');
    var parts := Split(key, '/');
    parts[|parts| - 1]
  }

  /** The staging key, under the day's "import-ready/Y/m/d/" prefix. */
  function StagingKey(datePath: string, objectKey: string): string {
    "import-ready/" + datePath + "/" + FileName(objectKey)
  }

  /** Staging keeps the file name and drops the folders. */
  lemma StagingKeyOfPath(datePath: string, folders: string, name: string)
    requires '/' !in name
    ensures StagingKey(datePath, folders + "/" + name) == "import-ready/" + datePath + "/" + name
    ensures StagingKey(datePath, name) == "import-ready/" + datePath + "/" + name
  {
    SplitLast(folders, '/', name);
    SplitNone(name, '/');
  }

  /** A key without '/' is its own last segment; otherwise the key is the
      text before its last '/', that '/', and the last segment. */
  lemma FileNameSuffix(key: string)
    ensures ('/' !in key && FileName(key) == key)
         || exists pre :: key == pre + "/" + FileName(key)
  {
    var parts := Split(key, '/');
    JoinSplit(key, '/');
    SplitPiecesClean(key, '/');
    if |parts| > 1 {
      JoinLast(parts, "/");
    } else {
      assert Join(parts, "/") == parts[0];
      assert '/' !in parts[0];
    }
  }

  /** The staged copy keeps the ".json" extension the filter demanded. */
  lemma StagingKeyKeepsExtension(datePath: string, objectKey: string)
    requires EndsWith(objectKey, ".json")
    ensures EndsWith(StagingKey(datePath, objectKey), ".json")
  {
    var name := FileName(objectKey);
    FileNameSuffix(objectKey);
    if '/' in objectKey || FileName(objectKey) != objectKey {
      var pre :| objectKey == pre + "/" + name;
      assert objectKey[|pre|] == '/';
      EndsWithAfter(pre + "/", name, ".json");
    }
    EndsWithAfter("import-ready/" + datePath + "/", name, ".json");
  }

  /** A suffix no longer than the last piece is the last piece's suffix. */
  lemma EndsWithAfter(pre: string, name: string, ext: string)
    requires |ext| <= |name|
    ensures EndsWith(pre + name, ext) <==> EndsWith(name, ext)
  {
    assert (pre + name)[|pre + name| - |ext|..] == name[|name| - |ext|..];
  }

  /** The key of the job-tracking object. */
  function TrackingKey(jobId: string): (k: string)
    ensures |k| == |jobId| + 17
    ensures StartsWith(k, "import-jobs/") && EndsWith(k, ".json")
    ensures k[12..|k| - 5] == jobId
  {
    var k := "import-jobs/" + jobId + ".json";
    assert k[12..|k| - 5] == jobId;
    assert k[|k| - 5..] == ".json";
    k
  }

  /** The arguments of `start_fhir_import_job`. */
  datatype ImportRequest = ImportRequest(
    jobName: string,
    inputS3Uri: string,
    outputS3Uri: string,
    kmsKeyId: string,
    datastoreId: string,
    dataAccessRoleArn: string,
    clientToken: string)

  /** The request `start_healthlake_import` sends; `jobStamp` is the clock
      as %Y%m%d-%H%M%S and `tokenStamp` as %Y%m%d%H%M%S. */
  function ImportRequestOf(datastoreId: string, bucket: string, key: string, roleArn: string,
                           resourceType: string, jobStamp: string, tokenStamp: string): ImportRequest
  {
    var jobName := "import-" + resourceType + "-" + jobStamp;
    ImportRequest(jobName, "s3://" + bucket + "/" + key, "s3://" + bucket + "/" + "import-results/",
                  "alias/aws/s3", datastoreId, roleArn, jobName + "-" + tokenStamp)
  }

  /** The input URI names the staged object: parsed back as an S3
      location, it gives the staging bucket and key. */
  lemma ImportInputUri(datastoreId: string, bucket: string, key: string, roleArn: string,
                       resourceType: string, jobStamp: string, tokenStamp: string)
    requires '/' !in bucket && !Contains(bucket + "/" + key, "s3://")
    ensures AudioTranscription.ParseTranscriptUriByHost(ImportRequestOf(datastoreId, bucket, key, roleArn, resourceType, jobStamp, tokenStamp).inputS3Uri)
         == Ok(AudioTranscription.S3Location(bucket, key))
  {
    AudioTranscription.S3UriRoundTrip(bucket, key);
  }

  /** The results go to "import-results/" in the same bucket. */
  lemma ImportOutputUri(datastoreId: string, bucket: string, key: string, roleArn: string,
                        resourceType: string, jobStamp: string, tokenStamp: string)
    requires '/' !in bucket && !Contains(bucket + "/" + "import-results/", "s3://")
    ensures AudioTranscription.ParseTranscriptUriByHost(ImportRequestOf(datastoreId, bucket, key, roleArn, resourceType, jobStamp, tokenStamp).outputS3Uri)
         == Ok(AudioTranscription.S3Location(bucket, "import-results/"))
  {
    AudioTranscription.S3UriRoundTrip(bucket, "import-results/");
  }

  /** The job name carries the resource type, and the client token extends
      the job name. */
  lemma ImportRequestNames(datastoreId: string, bucket: string, key: string, roleArn: string,
                           resourceType: string, jobStamp: string, tokenStamp: string)
    ensures var r := ImportRequestOf(datastoreId, bucket, key, roleArn, resourceType, jobStamp, tokenStamp);
      && StartsWith(r.jobName, "import-" + resourceType + "-")
      && StartsWith(r.clientToken, r.jobName + "-")
      && r.datastoreId == datastoreId && r.dataAccessRoleArn == roleArn
  {
    var r := ImportRequestOf(datastoreId, bucket, key, roleArn, resourceType, jobStamp, tokenStamp);
    assert r.jobName[..|"import-" + resourceType + "-"|] == "import-" + resourceType + "-";
    assert r.clientToken[..|r.jobName + "-"|] == r.jobName + "-";
  }

  // ---------------------------------------------------------------------
  // lambda_handler
  // ---------------------------------------------------------------------

  /** What the handler reads from one event record: the bucket name (None
      when it is not a string) and the object key after `unquote_plus`. */
  datatype ObjectLocation = ObjectLocation(bucketName: Option<string>, objectKey: string)

  /** The answer of `start_fhir_import_job`. */
  datatype ImportJob = ImportJob(jobId: string, jobStatus: string)

  /** The tracking record stored under the tracking key. */
  datatype JobMetadata = JobMetadata(
    jobId: string,
    status: string,
    submittedAt: string,
    sourceFile: string,
    stagingFile: string,
    resourceType: Json,
    resourceId: Json)

  /** The AWS calls, as oracles. `getResource` is get_object followed by the
      UTF-8 decode and `json.loads` (Err when any of them raises); the others
      give false or Err when the call raises. */
  datatype Services = Services(
    getResource: (string, string) -> Result<Json>,
    copyObject: (string, string, string, string) -> bool,
    startImport: ImportRequest -> Result<ImportJob>,
    putObject: (string, string, JobMetadata) -> bool)

  /** The clock as the handler formats it while handling one record. */
  datatype Clock = Clock(datePath: string, jobStamp: string, tokenStamp: string, iso: string)

  /** The handler's settings, read from the environment. */
  datatype Settings = Settings(datastoreId: string, importRoleArn: string, stagingBucket: string)

  /** What became of one record. */
  datatype Outcome =
    | NotJson
    | Unreadable
    | MissingResourceType
    | CopyFailed(stagingKey: string)
    | ImportFailed(stagingKey: string, request: ImportRequest)
    | TrackingFailed(stagingKey: string, request: ImportRequest, job: ImportJob)
    | Imported(stagingKey: string, request: ImportRequest, job: ImportJob, trackingKey: string, metadata: JobMetadata)

  /** How the parsed content fares at `'resourceType' not in fhir_resource`
      and at `fhir_resource['resourceType']`: an object goes on with its
      resourceType, an object, list or string without it is reported
      missing, and anything else raises. */
  function ResourceTypeOf(content: Json): Result<Option<Json>> {
    match content
    case JObject(fields) =>
      if "resourceType" in fields then Ok(Some(fields["resourceType"])) else Ok(None)
    case JArray(items) =>
      if JString("resourceType") in items then Err("list indices must be integers or slices") else Ok(None)
    case JString(s) =>
      if Contains(s, "resourceType") then Err("string indices must be integers") else Ok(None)
    case _ => Err("argument is not iterable")
  }

  /** `str(value)` for the resource type in the job name; a non-string
      resourceType is rendered by `render`. */
  function TypeText(resourceType: Json, render: Json -> string): string {
    if resourceType.JString? then resourceType.s else render(resourceType)
  }

  /** The handling of one record, from the `.json` filter to the tracking
      object. */
  function ProcessRecord(loc: ObjectLocation, settings: Settings, services: Services,
                         clock: Clock, render: Json -> string): Outcome
  {
    var key := loc.objectKey;
    if !EndsWith(key, ".json") then NotJson
    else if loc.bucketName.None? then Unreadable
    else
      var bucket := loc.bucketName.value;
      match services.getResource(bucket, key)
      case Err(_) => Unreadable
      case Ok(content) =>
        match ResourceTypeOf(content)
        case Err(_) => Unreadable
        case Ok(None) => MissingResourceType
        case Ok(Some(resourceType)) =>
          var stagingKey := StagingKey(clock.datePath, key);
          if !services.copyObject(bucket, key, settings.stagingBucket, stagingKey) then CopyFailed(stagingKey)
          else
            var request := ImportRequestOf(settings.datastoreId, settings.stagingBucket, stagingKey,
                                           settings.importRoleArn, TypeText(resourceType, render),
                                           clock.jobStamp, clock.tokenStamp);
            match services.startImport(request)
            case Err(_) => ImportFailed(stagingKey, request)
            case Ok(job) =>
              var fields := content.fields;
              var metadata := JobMetadata(job.jobId, job.jobStatus, clock.iso,
                                          "s3://" + bucket + "/" + key,
                                          "s3://" + settings.stagingBucket + "/" + stagingKey,
                                          resourceType,
                                          if "id" in fields then fields["id"] else JString("unknown"));
              var trackingKey := TrackingKey(job.jobId);
              if !services.putObject(settings.stagingBucket, trackingKey, metadata) then
                TrackingFailed(stagingKey, request, job)
              else Imported(stagingKey, request, job, trackingKey, metadata)
  }

  /** A record is imported only when its key ends in ".json", its content is
      an object with a resourceType, and every call succeeded; the staged copy
      keeps the extension and the import reads exactly the staged copy. */
  lemma ImportedRecord(loc: ObjectLocation, settings: Settings, services: Services, clock: Clock, render: Json -> string)
    requires ProcessRecord(loc, settings, services, clock, render).Imported?
    ensures var o := ProcessRecord(loc, settings, services, clock, render);
      && EndsWith(loc.objectKey, ".json")
      && loc.bucketName.Some?
      && services.getResource(loc.bucketName.value, loc.objectKey).Ok?
      && var content := services.getResource(loc.bucketName.value, loc.objectKey).value;
      && content.JObject? && "resourceType" in content.fields
      && o.stagingKey == StagingKey(clock.datePath, loc.objectKey)
      && EndsWith(o.stagingKey, ".json")
      && o.request.inputS3Uri == "s3://" + settings.stagingBucket + "/" + o.stagingKey
      && o.metadata.resourceType == content.fields["resourceType"]
      && o.trackingKey == TrackingKey(o.job.jobId)
  {
    StagingKeyKeepsExtension(clock.datePath, loc.objectKey);
  }

  /** A key without the ".json" extension is skipped before anything is read. */
  lemma NonJsonSkipped(loc: ObjectLocation, settings: Settings, services: Services, clock: Clock, render: Json -> string)
    ensures ProcessRecord(loc, settings, services, clock, render) == NotJson <==> !EndsWith(loc.objectKey, ".json")
  {
  }

  /** The handler's answer: 200 reporting every record, or 500 when the
      outer block raised. The exception text is not modelled. */
  datatype Response =
    | Processed(statusCode: int, message: string, timestamp: string)
    | Failed(statusCode: int, timestamp: string)

  /** `record[key]` on a parsed value. */
  function Field(j: Json, key: string): Option<Json> {
    if j.JObject? && key in j.fields then Some(j.fields[key]) else None
  }

  /** The location an event record names, or None when reading it raises
      (a missing key, a value that is not a dict, a non-string key). */
  function RecordLocation(record: Json, unquotePlus: string -> string): Option<ObjectLocation> {
    var s3 := Field(record, "s3");
    if s3.None? then None
    else
      var bucket := Field(s3.value, "bucket");
      var obj := Field(s3.value, "object");
      if bucket.None? || obj.None? then None
      else
        var name := Field(bucket.value, "name");
        var key := Field(obj.value, "key");
        if name.None? || key.None? || !key.value.JString? then None
        else Some(ObjectLocation(if name.value.JString? then Some(name.value.s) else None,
                                 unquotePlus(key.value.s)))
  }

  /** The records `for record in event['Records']` visits before one raises:
      a list gives its items; an empty dict or string gives none; the keys
      of a non-empty dict and the characters of a non-empty string are
      strings, on which `record['s3']` raises. */
  function EventRecords(event: Json): Option<seq<Json>> {
    var records :- Field(event, "Records");
    Elements(records)
  }

  /** An empty dict or an empty string as `Records` iterates nothing, so the
      handler reports 0 files; a non-empty one raises. */
  lemma EventRecordsOfOtherValues(event: Json, r: Json)
    requires event.JObject? && "Records" in event.fields && event.fields["Records"] == r
    requires r.JObject? || r.JString?
    ensures EventRecords(event) == (if r.Truthy() then None else Some([]))
  {
  }

  /** The outcomes of the records before the first one whose location
      cannot be read. */
  function Outcomes(records: seq<Json>, unquotePlus: string -> string, settings: Settings,
                    services: Services, clock: nat -> Clock, render: Json -> string): seq<Outcome>
  {
    if records == [] then []
    else
      var prior := Outcomes(records[..|records| - 1], unquotePlus, settings, services, clock, render);
      if |prior| < |records| - 1 then prior
      else match RecordLocation(records[|records| - 1], unquotePlus)
        case None => prior
        case Some(loc) => prior + [ProcessRecord(loc, settings, services, clock(|records| - 1), render)]
  }

  /** Records are handled independently: every record before the first
      unreadable one has its own outcome, and a skip never stops the
      records after it. */
  lemma {:induction false} OutcomesIndependent(records: seq<Json>, unquotePlus: string -> string, settings: Settings,
                                               services: Services, clock: nat -> Clock, render: Json -> string)
    ensures var os := Outcomes(records, unquotePlus, settings, services, clock, render);
      && |os| <= |records|
      && (forall i :: 0 <= i < |os| ==>
            (RecordLocation(records[i], unquotePlus).Some?
             && os[i] == ProcessRecord(RecordLocation(records[i], unquotePlus).value, settings, services, clock(i), render)))
      && (|os| < |records| ==> RecordLocation(records[|os|], unquotePlus).None?)
  {
    if records != [] {
      var init := records[..|records| - 1];
      OutcomesIndependent(init, unquotePlus, settings, services, clock, render);
      var prior := Outcomes(init, unquotePlus, settings, services, clock, render);
      var os := Outcomes(records, unquotePlus, settings, services, clock, render);
      forall i | 0 <= i < |prior|
        ensures records[i] == init[i]
      {
      }
      var last := RecordLocation(records[|init|], unquotePlus);
      if |prior| < |init| || last.None? {
        assert os == prior;
      } else {
        assert os == prior + [ProcessRecord(last.value, settings, services, clock(|init|), render)];
        forall i | 0 <= i < |os|
          ensures RecordLocation(records[i], unquotePlus).Some?
          ensures os[i] == ProcessRecord(RecordLocation(records[i], unquotePlus).value, settings, services, clock(i), render)
        {
          if i < |prior| {
            assert os[i] == prior[i];
          }
        }
      }
    }
  }

  /** `lambda_handler` over the event, the decoder of object keys, the
      settings, the AWS oracles and the clock of each record. */
  method LambdaHandler(event: Json, unquotePlus: string -> string, settings: Settings, services: Services,
                       clock: nat -> Clock, render: Json -> string, finished: string)
    returns (outcomes: seq<Outcome>, response: Response)
    ensures EventRecords(event).None? ==> outcomes == [] && response == Failed(500, finished)
    ensures EventRecords(event).Some? ==>
      var records := EventRecords(event).value;
      && outcomes == Outcomes(records, unquotePlus, settings, services, clock, render)
      && (|outcomes| == |records| ==>
            response == Processed(200, "Successfully processed " + NatToString(|records|) + " files", finished))
      && (|outcomes| < |records| ==> response == Failed(500, finished))
  {
    var records := EventRecords(event);
    if records.None? {
      return [], Failed(500, finished);
    }
    outcomes := ProcessRecords(records.value, unquotePlus, settings, services, clock, render);
    if |outcomes| < |records.value| {
      return outcomes, Failed(500, finished);
    }
    response := Processed(200, "Successfully processed " + NatToString(|records.value|) + " files", finished);
  }

  /** The `for record in event['Records']` loop: each record's outcome, up
      to the first record whose location cannot be read. */
  method ProcessRecords(rs: seq<Json>, unquotePlus: string -> string, settings: Settings, services: Services,
                        clock: nat -> Clock, render: Json -> string)
    returns (outcomes: seq<Outcome>)
    ensures outcomes == Outcomes(rs, unquotePlus, settings, services, clock, render)
  {
    outcomes := [];
    var i := 0;
    while i < |rs|
      invariant 0 <= i <= |rs|
      invariant outcomes == Outcomes(rs[..i], unquotePlus, settings, services, clock, render)
      invariant |outcomes| == i
    {
      assert rs[..i + 1][..i] == rs[..i];
      var loc := RecordLocation(rs[i], unquotePlus);
      if loc.None? {
        OutcomesPrefix(rs, i, unquotePlus, settings, services, clock, render);
        return;
      }
      var outcome := ProcessRecord(loc.value, settings, services, clock(i), render);
      outcomes := outcomes + [outcome];
      i := i + 1;
    }
    assert rs[..i] == rs;
  }

  /** Once record i cannot be read, no later record adds an outcome. */
  lemma {:induction false} OutcomesPrefix(records: seq<Json>, i: nat, unquotePlus: string -> string, settings: Settings,
                                          services: Services, clock: nat -> Clock, render: Json -> string)
    requires i < |records| && RecordLocation(records[i], unquotePlus).None?
    requires |Outcomes(records[..i], unquotePlus, settings, services, clock, render)| == i
    ensures Outcomes(records, unquotePlus, settings, services, clock, render)
         == Outcomes(records[..i], unquotePlus, settings, services, clock, render)
    decreases |records|
  {
    if |records| == i + 1 {
      assert records[..|records| - 1] == records[..i];
    } else {
      var init := records[..|records| - 1];
      assert init[..i] == records[..i];
      OutcomesPrefix(init, i, unquotePlus, settings, services, clock, render);
      OutcomesIndependent(init, unquotePlus, settings, services, clock, render);
    }
  }
}
