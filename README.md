# HealthLake demo pipeline: a verified model

This project is a Dafny model of the deterministic parts of a demo that
turns clinical notes and recorded dictations into FHIR R4 resources stored
in AWS HealthLake. The demo has these stages:

- A Lambda reads a clinical note from S3 and runs Amazon Comprehend Medical
  on it. It then sorts the entities it finds into medications, diagnoses
  and procedures, and tags the cardiovascular ones
  (`clinical_notes_nlp.py`).
- A second Lambda does the same for an audio dictation once Amazon
  Transcribe Medical has produced its transcript. It also records every
  occurrence of a fixed list of cath-lab terms (`audio_transcription.py`).
- A builder turns the NLP results into a Patient, a DocumentReference,
  Observations, MedicationStatements and Conditions. It PUTs them to the
  datastore and writes a summary (`fhir_resource_creator.py`).
- An import Lambda validates FHIR JSON files dropped in a bucket, stages
  them and starts HealthLake import jobs (`lambda_import.py`).
- A small stand-alone Lambda maps Comprehend Medical entities straight to
  MedicationStatements and Conditions (`lambda/medical-nlp-lambda.py`).
- The scripts around the demo are:
  - a read-side analytics report (`scripts/healthlake-analytics.py`);
  - a SigV4-signing curl generator (`scripts/aws-curl.py`);
  - a datastore cleanup tool (`sample-healthlake/scripts/healthlake_cleanup.py`).

## How the model is built

- Every AWS call (S3, Comprehend Medical, Transcribe, HealthLake, STS
  credentials) is a parameter of the operation that makes it: a function
  value, or a `Result`/`Option` that says whether the call raised.
- `uuid4()` is a function `uuid: nat -> string` that gives the n-th id
  drawn. The clock is a parameter.
- `json.loads`, `json.dumps` and `str()` of a JSON value are parameters
  too, and so is `unquote_plus`.
- JSON values are the datatype `JsonData.Json`. Its helpers follow
  Python's truthiness, `dict.get` with a default, subscripting, and
  `len` (for example `Get` and `Truthy`).
- Where the source mutates a dict of result lists in place, the model is
  a class with one `seq` field per list. The methods append to those
  fields, and each method's `ensures` says the new contents are the old
  contents followed by a specification function of the input. This covers
  `results` in `clinical_notes_nlp.py` and `audio_transcription.py`, and
  the analytics object of `healthlake-analytics.py`.
- Loops in the source (the `find` loop, the `+=` accumulators, the builder
  loops and the cleanup loops) are methods with `while` loops. Each is
  proved equal to a recursive specification function, and the properties
  are then proved about that function.
- Python string operations (`split`, `join`, `replace`, `find`, `strip`,
  `lower`, slicing, `str(int)`) are modelled in module `Text`. UTF-8 and
  base64 (section 4 of RFC 4648) are in module `Encoding`, with
  round-trip lemmas.

## Model

| member | source | states |
|---|---|---|
| AudioTranscription.FormatOfExtension | sample-healthlake/terraform/audio_transcription.py:71-78 | The format is one of wav, mp3, mp4 and flac. Those four map to themselves, m4a maps to mp4, and every other extension maps to wav. |
| AudioTranscription.MediaFormatOfFile | sample-healthlake/terraform/audio_transcription.py:71 | Only the lower-cased text after the last '.' of the key decides the format. |
| AudioTranscription.MediaFormatWithoutDot | sample-healthlake/terraform/audio_transcription.py:71 | A key without a '.' is looked up whole, lower-cased. |
| AudioTranscription.S3SchemeIsNotHttps | sample-healthlake/terraform/audio_transcription.py:156 | An s3:// URI never takes the https branch. |
| AudioTranscription.S3UriRoundTrip | sample-healthlake/terraform/audio_transcription.py:167-171 | "s3://bucket/key" parses to exactly that bucket and key, so re-joining them gives the URI back. This holds for both parsers. |
| AudioTranscription.S3UriWithoutKey | sample-healthlake/terraform/audio_transcription.py:169-171 | An s3:// URI with no '/' after the bucket gives the empty key. |
| AudioTranscription.HttpsParts | sample-healthlake/terraform/audio_transcription.py:158 | Removing "https://" and splitting at '/' gives the host, then the segments of the path. |
| AudioTranscription.VirtualHostedUri | sample-healthlake/terraform/audio_transcription.py:156-161 | For any host holding ".s3." and no '/', "https://host/path" gives the host's text before its first ".s3." as bucket and the whole path as key, under both parsers. |
| AudioTranscription.VirtualHostedBucket | sample-healthlake/terraform/audio_transcription.py:156-161 | "https://bucket.s3.region/path" gives the bucket back whole, dots included, whenever no ".s3." starts inside it. |
| AudioTranscription.DottedBucketExample | sample-healthlake/terraform/audio_transcription.py:156-161 | "https://my.bucket.s3.us-east-1.amazonaws.com/a/b" gives bucket "my.bucket" and key "a/b". |
| AudioTranscription.HttpsHostOnly | sample-healthlake/terraform/audio_transcription.py:156-161 | An https URI with no '/' after a host holding ".s3." gives the bucket before ".s3." and the empty key, under both parsers. |
| AudioTranscription.PathStyleUri | sample-healthlake/terraform/audio_transcription.py:162-166 | A path-style URI gives the first segment as bucket and the other segments, joined by '/', as key. This needs ".s3." to occur nowhere in the URI. |
| AudioTranscription.PathStyleParts | sample-healthlake/terraform/audio_transcription.py:164-166 | The pieces of a path-style URI: the host first, and the location built from the remaining pieces. |
| AudioTranscription.PathStyleMisread | sample-healthlake/terraform/audio_transcription.py:156-161 | As written: a path-style URI whose bucket contains ".s3." is read as virtual-hosted. The host becomes the bucket, and the bucket is pushed into the key. |
| AudioTranscription.MisreadParts | sample-healthlake/terraform/audio_transcription.py:158-161 | A host without ".s3." read as virtual-hosted gives the whole host as bucket and the whole path as key. |
| AudioTranscription.PathStyleMisreadExample | sample-healthlake/terraform/audio_transcription.py:156-161 | The concrete input `https://s3.us-east-1.amazonaws.com/my.s3.bucket/out.json` parses to bucket `s3.us-east-1.amazonaws.com` and key `my.s3.bucket/out.json`. |
| AudioTranscription.PathStyleUriByHost | sample-healthlake/terraform/audio_transcription.py:151-166 | Corrected parser, which tests only the host for ".s3.": a path-style URI gives its bucket and key whatever they contain. |
| AudioTranscription.HttpsWithoutPath | sample-healthlake/terraform/audio_transcription.py:162-166 | An https URI with no '/' after a host that lacks ".s3." raises at `parts[1]`, under both parsers. |
| AudioTranscription.HitsAtIndex | sample-healthlake/terraform/audio_transcription.py:302-309 | The k-th recorded hit is the one built at the k-th occurrence. |
| AudioTranscription.HitCategoryOfList | sample-healthlake/terraform/audio_transcription.py:305 | A hit's category is "cath_lab_equipment" exactly when its term is in the equipment list, and "cath_lab_procedure" otherwise. |
| AudioTranscription.TermHitsExact | sample-healthlake/terraform/audio_transcription.py:297-311 | A term's hits are at exactly the positions where it occurs, overlapping ones included. Each position gives one hit, in increasing order, and each hit carries the term, its category, the audio source and a context that contains the term. |
| AudioTranscription.TermHitsPositions | sample-healthlake/terraform/audio_transcription.py:297-311 | The hit positions of a term are exactly its occurrences. |
| AudioTranscription.TermHitsContexts | sample-healthlake/terraform/audio_transcription.py:307 | Every hit's context slice contains the term. |
| AudioTranscription.ContextHoldsTerm | sample-healthlake/terraform/audio_transcription.py:307 | The slice [max(0, p-50), p+len+50) around an occurrence contains the term. |
| AudioTranscription.CathHitsSnoc | sample-healthlake/terraform/audio_transcription.py:297 | Scanning one more term appends exactly that term's hits. |
| AudioTranscription.TermHitsMembers | sample-healthlake/terraform/audio_transcription.py:297-311 | Every hit of a term is an occurrence of it, and every occurrence has a hit. |
| AudioTranscription.CathHitsExact | sample-healthlake/terraform/audio_transcription.py:292-311 | Over all terms, every hit is an occurrence of some listed term with that term's category, and every occurrence of every term is a hit. |
| AudioTranscription.DoctorMentionsOct | sample-healthlake/terraform/audio_transcription.py:299 | Matching is by substring: "the doctor" gives a hit for the term "oct" at position 5. |
| AudioTranscription.NoTermHits | sample-healthlake/terraform/audio_transcription.py:299-301 | A term that does not occur gives no hit. |
| AudioTranscription.FindTermHits | sample-healthlake/terraform/audio_transcription.py:297-311 | The `while True` / `find` loop for one term returns exactly that term's hits. |
| AudioTranscription.CollectCathHits | sample-healthlake/terraform/audio_transcription.py:296-311 | The loop over the terms returns the hits of each term in turn. |
| AudioTranscription.ToMention | sample-healthlake/terraform/audio_transcription.py:322-329 | The cardiovascular entry copies the text, score, category, type and offsets, with the audio source. |
| AudioTranscription.MentionIndicesExact | sample-healthlake/terraform/audio_transcription.py:319-321 | The entities kept are exactly those whose lower-cased text contains a cardio keyword. |
| AudioTranscription.MentionIndicesIncreasing | sample-healthlake/terraform/audio_transcription.py:319 | The kept entities stay in input order, each once. |
| AudioTranscription.CardioMentionsExact | sample-healthlake/terraform/audio_transcription.py:314-330 | Each entity mentioning a cardio keyword gives exactly one entry, and the others none, in input order. |
| AudioTranscription.TranscriptionResults.constructor | sample-healthlake/terraform/audio_transcription.py:194-206 | The results record starts with the transcript and the entities, and with all five lists empty. |
| AudioTranscription.TranscriptionResults.CategorizeTranscriptionEntities | sample-healthlake/terraform/audio_transcription.py:231-265 | Each of the three lists is extended by exactly its category's entities, in order, tagged with the audio source. Nothing else changes. |
| AudioTranscription.TranscriptionResults.ExtractCathLabEntities | sample-healthlake/terraform/audio_transcription.py:267-330 | The cath-lab list is extended by every occurrence of every term in the lower-cased transcript. The cardiovascular list is extended by the mentions. Nothing else changes. |
| AudioTranscription.TranscriptionResults.RecordTermHits | sample-healthlake/terraform/audio_transcription.py:296-311 | The term loop extends only the cath-lab list, by the hits of the terms. |
| AudioTranscription.TranscriptionResults.RecordCardioMentions | sample-healthlake/terraform/audio_transcription.py:314-330 | The entity loop extends only the cardiovascular list, by the mentions. |
| AudioTranscription.ReplaceAudioExtensionOfRecording | sample-healthlake/terraform/audio_transcription.py:340 | `<stem>.wav` or `<stem>.mp3` becomes `<stem>` followed by the suffix, after both replace calls. |
| AudioTranscription.KeysOfRecording | sample-healthlake/terraform/audio_transcription.py:338-362 | The results key of a recording is "transcriptions/<stem>_transcription_results.json". Its summary key is "transcriptions/summaries/<stem>_summary.json". |
| ClinicalNotesNlp.OutputKeyOfNote | sample-healthlake/terraform/clinical_notes_nlp.py:39 | A note `<stem>.txt` is stored as "processed/<stem>_processed.json". |
| ClinicalNotesNlp.OutputKeyOtherwise | sample-healthlake/terraform/clinical_notes_nlp.py:39 | A key without ".txt" is stored under "processed/" unchanged. |
| ClinicalNotesNlp.CardioTypeFirstMatch | sample-healthlake/terraform/clinical_notes_nlp.py:181-189 | The type is that of list j exactly when list j matches and no earlier list does. There is no type exactly when no list matches. |
| ClinicalNotesNlp.MedicationWinsOverCondition | sample-healthlake/terraform/clinical_notes_nlp.py:181-189 | "aspirin for chest pain" is tagged as a medication, though it names a condition too. |
| ClinicalNotesNlp.ToCardioEntry | sample-healthlake/terraform/clinical_notes_nlp.py:191-200 | The entry copies the text, score, upper-cased category, offsets and attributes (default []), with the first-match type. |
| ClinicalNotesNlp.CardioIndicesExact | sample-healthlake/terraform/clinical_notes_nlp.py:174-190 | The kept entities are exactly those with some matching term. |
| ClinicalNotesNlp.CardioIndicesIncreasing | sample-healthlake/terraform/clinical_notes_nlp.py:174 | The kept entities stay in input order, each once. |
| ClinicalNotesNlp.CardioEntriesExact | sample-healthlake/terraform/clinical_notes_nlp.py:174-200 | Each cardiovascular entity gives exactly one entry, and the others none, in input order. |
| ClinicalNotesNlp.NlpResults.constructor | sample-healthlake/terraform/clinical_notes_nlp.py:69-79 | The results record starts with the entities and four empty lists. |
| ClinicalNotesNlp.NlpResults.CategorizeEntities | sample-healthlake/terraform/clinical_notes_nlp.py:104-135 | The medications, diagnoses and procedures lists are extended by exactly their category's entities, in order. The other lists are unchanged. |
| ClinicalNotesNlp.NlpResults.ExtractCardiovascularEntities | sample-healthlake/terraform/clinical_notes_nlp.py:137-200 | Only the cardiovascular list changes. It is extended by one entry per matching entity. |
| Comprehend.ToFinding | sample-healthlake/terraform/clinical_notes_nlp.py:109-134 | A categorised entry carries the text, the score as confidence, the upper-cased type, the attributes (default []) and the given source. |
| Comprehend.CategoryIndicesExact | sample-healthlake/terraform/clinical_notes_nlp.py:108-135 | The kept entities are exactly those whose upper-cased category is the one asked for. |
| Comprehend.CategoryIndicesIncreasing | sample-healthlake/terraform/clinical_notes_nlp.py:108 | The kept entities stay in input order, each once. |
| Comprehend.CategorizedAtIndices | sample-healthlake/terraform/audio_transcription.py:235-265 | The k-th finding is built from the k-th kept entity. |
| Comprehend.CategorizedExact | sample-healthlake/terraform/clinical_notes_nlp.py:108-135 | A category's list keeps exactly its entities, each once and in input order, each turned into its finding. |
| Comprehend.CategoriesPartition | sample-healthlake/terraform/clinical_notes_nlp.py:108-135 | The three lists and the dropped entities add up to the whole input. |
| MedicalNlpLambda.EventField | lambda/medical-nlp-lambda.py:12-14 | A missing event field reads as "". |
| MedicalNlpLambda.ResourceOf | lambda/medical-nlp-lambda.py:33-83 | A medication loop builds a MedicationStatement and a condition loop builds a Condition. Each has the drawn id and subject "Patient/<patient_id>". |
| MedicalNlpLambda.ResourcesOkIff | lambda/medical-nlp-lambda.py:33-83 | A loop completes exactly when every entity gets through it. |
| MedicalNlpLambda.StepOkIff | lambda/medical-nlp-lambda.py:34-53 | One iteration raises exactly when its entity cannot be read. |
| MedicalNlpLambda.ResourcesExact | lambda/medical-nlp-lambda.py:33-83 | On success a loop keeps exactly the entities whose Category equals its category (case-sensitive), one resource each, in entity order. |
| MedicalNlpLambda.ResourcesSnoc | lambda/medical-nlp-lambda.py:34-53 | A completed loop got through its front and then its last entity. |
| MedicalNlpLambda.StepKeeps | lambda/medical-nlp-lambda.py:35-53 | An entity of the loop's category gives the resource built from its text and formatted score. Any other entity gives nothing. |
| MedicalNlpLambda.ExactIndicesExact | lambda/medical-nlp-lambda.py:33-58 | The kept positions are exactly the entities of that category. |
| MedicalNlpLambda.ResourcesBounded | lambda/medical-nlp-lambda.py:85-92 | The two loops together build at most one resource per entity. |
| MedicalNlpLambda.CompletedCounts | lambda/medical-nlp-lambda.py:85-94 | A completed run answers 200. It reports every entity and every PHI entity. Medications plus conditions never exceed the entity count, and every resource refers to the patient. |
| MedicalNlpLambda.CompletedIff | lambda/medical-nlp-lambda.py:16-102 | The handler completes exactly when the three calls succeed and every entity passes both loops. Otherwise it answers 500. |
| MedicalNlpLambda.LambdaHandler | lambda/medical-nlp-lambda.py:6-102 | The handler's loops give exactly the specified response. |
| MedicalNlpLambda.CreateResources | lambda/medical-nlp-lambda.py:33-53 | One loop returns exactly the specified resources, or the error it raised. |
| MedicalNlpLambda.ResourcesNext | lambda/medical-nlp-lambda.py:34-53 | One more iteration appends that entity's resource, skips it, or fails. |
| MedicalNlpLambda.FailurePersists | lambda/medical-nlp-lambda.py:96-102 | Once an iteration raises, the loop as a whole fails with that error. |
| FhirResourceCreator.Limit | sample-healthlake/terraform/fhir_resource_creator.py:322 | `xs[:n]` is the first min(n, len) elements. |
| FhirResourceCreator.PhiTextsAppend | sample-healthlake/terraform/fhir_resource_creator.py:157-170 | Bucketing works entity by entity, so input order is kept within a bucket. |
| FhirResourceCreator.PhiTextsOne | sample-healthlake/terraform/fhir_resource_creator.py:158-170 | One entity adds its stripped text to its bucket, or nothing. |
| FhirResourceCreator.PhiTextsStripped | sample-healthlake/terraform/fhir_resource_creator.py:159-160 | Every bucketed text is non-empty and stripped. |
| FhirResourceCreator.PhiBucketsPartition | sample-healthlake/terraform/fhir_resource_creator.py:157-170 | Each entity lands in at most one of the five buckets, and the buckets plus the ignored entities make up the input. |
| FhirResourceCreator.PhiTextsStep | sample-healthlake/terraform/fhir_resource_creator.py:157-170 | One more entity adds its text to the bucket it belongs to. |
| FhirResourceCreator.CollectPatientInfo | sample-healthlake/terraform/fhir_resource_creator.py:149-170 | The loop fills `patient_info` with exactly the specified buckets. |
| FhirResourceCreator.TakeEach | sample-healthlake/terraform/fhir_resource_creator.py:192-203 | Each string is cut to n characters. |
| FhirResourceCreator.ParseName | sample-healthlake/terraform/fhir_resource_creator.py:206-229 | With two or more tokens, the family name is the last token cut to 50, and the given names are up to three leading tokens, each cut to 50. With fewer tokens, the name is the text cut to 100. |
| FhirResourceCreator.NameRoundTrip | sample-healthlake/terraform/fhir_resource_creator.py:208-221 | A name of 2 to 4 short tokens comes back whole: the given names followed by the family name are its tokens. |
| FhirResourceCreator.ParseNames | sample-healthlake/terraform/fhir_resource_creator.py:206-229 | The names loop parses each name text. |
| FhirResourceCreator.BuildIdentifiers | sample-healthlake/terraform/fhir_resource_creator.py:187-203 | The identifiers loop gives one value per ID, cut to 50 characters. |
| FhirResourceCreator.BirthDateSetIff | sample-healthlake/terraform/fhir_resource_creator.py:232-243 | A birth date is set exactly when the digits of the first AGE give 0 < age < 150. |
| FhirResourceCreator.BirthYearRoundTrip | sample-healthlake/terraform/fhir_resource_creator.py:238-241 | The birth date is "<year>-01-01", and the year reads back as the current year minus the age. |
| FhirResourceCreator.PatientOf | sample-healthlake/terraform/fhir_resource_creator.py:172-260 | The Patient has the drawn id, gender 'unknown' and active true. It has one name: the parsed first NAME, or "Patient from Clinical Note". It has one identifier per ID, exactly its first 50 characters (`[:50]`), absent when there are none; at most one address, exactly the first address's first 200 characters; and the birth date rule. |
| FhirResourceCreator.CreatePatientFromPhi | sample-healthlake/terraform/fhir_resource_creator.py:140-260 | `create_patient_from_phi` returns exactly that Patient for the buckets of the record's PHI. |
| FhirResourceCreator.DocumentReferenceOf | sample-healthlake/terraform/fhir_resource_creator.py:262-311 | The DocumentReference has the drawn id, refers to the Patient and carries the current date. |
| FhirResourceCreator.DocumentContentRoundTrip | sample-healthlake/terraform/fhir_resource_creator.py:274-303 | The attachment size is the UTF-8 length of the note. Decoding the data as base64 and then UTF-8 gives the note back. |
| FhirResourceCreator.CreateCardiovascularObservations | sample-healthlake/terraform/fhir_resource_creator.py:313-371 | The loop returns exactly the specified Observations. |
| FhirResourceCreator.CreateMedicationStatements | sample-healthlake/terraform/fhir_resource_creator.py:373-406 | The loop returns exactly the specified MedicationStatements. |
| FhirResourceCreator.CreateConditionResources | sample-healthlake/terraform/fhir_resource_creator.py:450-496 | The loop returns exactly the specified Conditions. |
| FhirResourceCreator.CreateProcedureResources | sample-healthlake/terraform/fhir_resource_creator.py:408-448 | One Procedure per procedure entry, performed at the record's timestamp or, without one, now. |
| FhirResourceCreator.ProceduresLinked | sample-healthlake/terraform/fhir_resource_creator.py:408-448 | Every Procedure refers to the Patient, carries its entry's text and the performed time, and the i-th draws the i-th id. |
| FhirResourceCreator.ObservationsLinked | sample-healthlake/terraform/fhir_resource_creator.py:313-371 | There are min(5, n) Observations. They refer to the Patient and draw consecutive ids. |
| FhirResourceCreator.ObservationsKind | sample-healthlake/terraform/fhir_resource_creator.py:335 | They are all Observations. |
| FhirResourceCreator.MedicationStatementsLinked | sample-healthlake/terraform/fhir_resource_creator.py:373-406 | There are min(3, n) MedicationStatements. They refer to the Patient and draw consecutive ids. |
| FhirResourceCreator.MedicationStatementsKind | sample-healthlake/terraform/fhir_resource_creator.py:383 | They are all MedicationStatements. |
| FhirResourceCreator.ConditionsLinked | sample-healthlake/terraform/fhir_resource_creator.py:450-496 | There are min(3, n) Conditions. They refer to the Patient and draw consecutive ids. |
| FhirResourceCreator.ConditionsKind | sample-healthlake/terraform/fhir_resource_creator.py:460 | They are all Conditions. |
| FhirResourceCreator.LinkedAppend | sample-healthlake/terraform/fhir_resource_creator.py:128-135 | Two linked runs drawn one after the other make one linked run. |
| FhirResourceCreator.RankSortedAppend | sample-healthlake/terraform/fhir_resource_creator.py:128-135 | Appending a run of later kinds keeps the kind order. |
| FhirResourceCreator.CreateFhirResourcesFromNlp | sample-healthlake/terraform/fhir_resource_creator.py:111-138 | `create_fhir_resources_from_nlp` returns exactly the specified bundle. |
| FhirResourceCreator.CreateFindings | sample-healthlake/terraform/fhir_resource_creator.py:127-135 | The findings are the Observations, MedicationStatements and Conditions, appended in that order. |
| FhirResourceCreator.OneKindSorted | sample-healthlake/terraform/fhir_resource_creator.py:128-135 | A run of one kind is in kind order. |
| FhirResourceCreator.FindingsLinked | sample-healthlake/terraform/fhir_resource_creator.py:127-135 | The findings refer to the Patient and draw ids from the third on. |
| FhirResourceCreator.FindingsSorted | sample-healthlake/terraform/fhir_resource_creator.py:127-135 | The findings come as Observations, then MedicationStatements, then Conditions. |
| FhirResourceCreator.ThreeRunsSorted | sample-healthlake/terraform/fhir_resource_creator.py:127-135 | Three runs of increasing kind, concatenated, are in kind order. |
| FhirResourceCreator.FindingsLength | sample-healthlake/terraform/fhir_resource_creator.py:313-496 | There are min(5, cardio) + min(3, meds) + min(3, diagnoses) findings. |
| FhirResourceCreator.AssembledShape | sample-healthlake/terraform/fhir_resource_creator.py:115-135 | A Patient, then a DocumentReference, then linked findings make a bundle in kind order. Every resource after the Patient refers to it, and ids are drawn in order. |
| FhirResourceCreator.BundleShape | sample-healthlake/terraform/fhir_resource_creator.py:111-138 | The bundle is the Patient, the DocumentReference, at most 5 Observations, at most 3 MedicationStatements and at most 3 Conditions, in that order. Its length is 2 + min(5,c) + min(3,m) + min(3,d), and it never holds a Procedure. Every resource after the Patient refers to it. |
| FhirResourceCreator.BundleIdsDistinct | sample-healthlake/terraform/fhir_resource_creator.py:111-138 | With distinct uuids, the bundle's ids are distinct. |
| FhirResourceCreator.FhirBaseUrlPlain | sample-healthlake/terraform/fhir_resource_creator.py:509-510 | An endpoint without "/datastore/" gets "/datastore/<id>/r4" appended. |
| FhirResourceCreator.FhirBaseUrlOfDatastoreEndpoint | sample-healthlake/terraform/fhir_resource_creator.py:509-510 | An endpoint that already names a datastore path keeps only the part before it, and the configured datastore id wins. |
| FhirResourceCreator.StoreResponseOf | sample-healthlake/terraform/fhir_resource_creator.py:520-589 | The status is 'created' exactly when the PUT answered 200 or 201, and 'error' otherwise. A created resource gets its location. An error carries the HTTP status and the body, or "Unknown error". |
| FhirResourceCreator.StoreOne | sample-healthlake/terraform/fhir_resource_creator.py:515-591 | One PUT gives the entry its outcome makes: "created" with the location on 200 or 201, "error" with the body or "Unknown error" otherwise, "error" with the message when the call raised. |
| FhirResourceCreator.StoreResourcesInHealthlake | sample-healthlake/terraform/fhir_resource_creator.py:498-591 | The PUT loop gives exactly one response per resource, in order, each the response to that resource's PUT at its URL. |
| FhirResourceCreator.StoresPartition | sample-healthlake/terraform/fhir_resource_creator.py:609-610 | When every status is 'created' or 'error', the two counts add up to the number of responses. |
| FhirResourceCreator.SummaryCountsPartition | sample-healthlake/terraform/fhir_resource_creator.py:593-611 | The summary's successful and failed stores add up to the responses, and to the resources created. |
| FhirResourceCreator.CountTypesSum | sample-healthlake/terraform/fhir_resource_creator.py:605-608 | The six per-type counts add up to the resource count. |
| FhirResourceCreator.CountTypePositive | sample-healthlake/terraform/fhir_resource_creator.py:605-608 | A type is counted exactly when some resource has it. |
| FhirResourceCreator.BreakdownCounts | sample-healthlake/terraform/fhir_resource_creator.py:605-608 | The breakdown has a key for each type present and no other, each with its positive count. The counts sum to the resource count. |
| LambdaImport.FirstMissing | sample-healthlake/terraform/lambda_import.py:175-183 | Returns nothing exactly when every field is present. Otherwise it returns the first missing field in list order. |
| LambdaImport.ValidateFhirResource | sample-healthlake/terraform/lambda_import.py:156-185 | A resource is valid exactly when it meets the per-type rules, and then the message is "Valid FHIR resource". |
| LambdaImport.MissingResourceTypeMessage | sample-healthlake/terraform/lambda_import.py:160-164 | A resource without resourceType is rejected with "Missing required field: resourceType". |
| LambdaImport.FindingMessageNamesFirstMissing | sample-healthlake/terraform/lambda_import.py:173-183 | An invalid Observation or Procedure is rejected naming the first missing one of status, code and subject. |
| LambdaImport.PatientNeedsIdentifierOrName | sample-healthlake/terraform/lambda_import.py:169-171 | Any Patient passes exactly when it has an identifier or a name; one with neither is rejected with "Patient resource must have either identifier or name". |
| LambdaImport.OtherTypesValid | sample-healthlake/terraform/lambda_import.py:185 | Any other type only needs resourceType. |
| LambdaImport.FileName | sample-healthlake/terraform/lambda_import.py:59 | The last '/'-segment holds no '/'. |
| LambdaImport.StagingKeyOfPath | sample-healthlake/terraform/lambda_import.py:59 | The staging key is "import-ready/<date path>/" followed by the file name, whatever folders the key had. |
| LambdaImport.FileNameSuffix | sample-healthlake/terraform/lambda_import.py:59 | The file name is the whole key, or the part after its last '/'. |
| LambdaImport.StagingKeyKeepsExtension | sample-healthlake/terraform/lambda_import.py:37-59 | The staged copy keeps the ".json" extension that the filter demanded. |
| LambdaImport.TrackingKey | sample-healthlake/terraform/lambda_import.py:96 | The tracking key is "import-jobs/<job id>.json", with the id readable back from it. |
| LambdaImport.ImportInputUri | sample-healthlake/terraform/lambda_import.py:137 | The input URI parses back to the staging bucket and key. |
| LambdaImport.ImportOutputUri | sample-healthlake/terraform/lambda_import.py:141 | The output URI parses back to the same bucket and "import-results/". |
| LambdaImport.ImportRequestNames | sample-healthlake/terraform/lambda_import.py:126-154 | The job name is "import-<type>-<timestamp>". The client token extends it, and the datastore and role are passed on. |
| LambdaImport.ImportedRecord | sample-healthlake/terraform/lambda_import.py:29-106 | A record is imported only when its key ends in ".json", its content is an object with resourceType, and every call succeeded. The import reads exactly the staged copy, and the job is tracked under its key. |
| LambdaImport.NonJsonSkipped | sample-healthlake/terraform/lambda_import.py:37-39 | A record is skipped before anything is read exactly when its key does not end in ".json". |
| LambdaImport.OutcomesIndependent | sample-healthlake/terraform/lambda_import.py:29-106 | Each record has its own outcome, so a skip never stops later records. Only an unreadable record ends the loop. |
| LambdaImport.ProcessRecords | sample-healthlake/terraform/lambda_import.py:29-106 | The record loop yields exactly the specified outcomes: one per record, in order, up to the first record whose bucket or key cannot be read, which raises outside the per-record handling. |
| LambdaImport.LambdaHandler | sample-healthlake/terraform/lambda_import.py:16-124 | With every record handled, the answer is 200 reporting len(Records) files, skipped ones included. An exception outside the per-record handling answers 500. |
| LambdaImport.EventRecordsOfOtherValues | sample-healthlake/terraform/lambda_import.py:28-29 | `Records` given as an empty dict or empty string iterates nothing, so the handler answers 200 with 0 files; a non-empty dict or string raises at `record['s3']`. |
| LambdaImport.OutcomesPrefix | sample-healthlake/terraform/lambda_import.py:116-124 | Once a record cannot be read, no later record adds an outcome. |
| HealthLakeAnalytics.PatientIdOfReference | scripts/healthlake-analytics.py:110 | The patient id is the subject reference with "Patient/" removed, and "" without a subject. |
| HealthLakeAnalytics.CollectSingles | scripts/healthlake-analytics.py:158-180 | When each entry gives one row, the rows match the entries one to one. |
| HealthLakeAnalytics.CollectFails | scripts/healthlake-analytics.py:103-142 | An entry that raises makes the whole analysis raise. |
| HealthLakeAnalytics.RequestUrlQuery | scripts/healthlake-analytics.py:31-36 | The URL starts with base/type. It has a query exactly when no id and some parameters are given, and the query is then the parameters. |
| HealthLakeAnalytics.EntryCountIsEntries | scripts/healthlake-analytics.py:83-88 | The count in the distribution is the number of entries the other analyses walk. |
| HealthLakeAnalytics.EntryCountOfBundle | scripts/healthlake-analytics.py:83-88 | A bundle with 'entry' counts its elements. No data, or data without 'entry', counts 0. |
| HealthLakeAnalytics.BaseOf | scripts/healthlake-analytics.py:109-114 | The shared row fields come from an Observation object. |
| HealthLakeAnalytics.RowOf | scripts/healthlake-analytics.py:117-138 | Every row carries the observation's patient, date, performer and status. |
| HealthLakeAnalytics.ObservationRowsShape | scripts/healthlake-analytics.py:116-138 | An observation with valueQuantity gives exactly one row. Otherwise one with component gives one row per component, in order, and others give none. Each row carries the shared fields. |
| HealthLakeAnalytics.DemographicName | scripts/healthlake-analytics.py:158-170 | A patient with a given and a family name is listed as "given family". |
| HealthLakeAnalytics.Preview | scripts/healthlake-analytics.py:216 | The preview is the text when it has at most 200 characters, else its first 200 characters and "...". |
| HealthLakeAnalytics.AttachedDataFound | scripts/healthlake-analytics.py:202 | The data of a single attachment is what the try block decodes. |
| HealthLakeAnalytics.DecodedNote | scripts/healthlake-analytics.py:203-205 | Base64 of the UTF-8 bytes of a note decodes back to the note. |
| HealthLakeAnalytics.WrappedNoteDecoded | scripts/healthlake-analytics.py:199-207 | Line-wrapped base64 "aGVs\nbG8=" previews as "hello", as the lenient `b64decode` reads it. |
| HealthLakeAnalytics.ContentOfEncodedNote | scripts/healthlake-analytics.py:199-207 | A note stored as base64 of its UTF-8 bytes reads back as the note. An empty note reads as "Content not available". |
| HealthLakeAnalytics.ContentMissing | scripts/healthlake-analytics.py:199-200 | A document without content reads as "Content not available". |
| HealthLakeAnalytics.VitalsMentioningExact | scripts/healthlake-analytics.py:243-244 | The filter keeps exactly the readings whose lower-cased type contains the term, and succeeds exactly when every type is a string. |
| HealthLakeAnalytics.NotesMentioningExact | scripts/healthlake-analytics.py:245 | The filter keeps exactly the notes whose lower-cased preview contains the term. |
| HealthLakeAnalytics.SummaryTotals | scripts/healthlake-analytics.py:240-242 | The totals are one patient per Patient entry and one note per DocumentReference entry. |
| HealthLakeAnalytics.HealthLakeAnalytics.constructor | scripts/healthlake-analytics.py:19-24 | The object keeps the datastore id, and its base URL is the datastore's r4 URL. |
| HealthLakeAnalytics.HealthLakeAnalytics.MakeFhirRequest | scripts/healthlake-analytics.py:26-52 | The request answers with the server's reply for the chosen URL. |
| HealthLakeAnalytics.HealthLakeAnalytics.AnalyzeResourceDistribution | scripts/healthlake-analytics.py:70-91 | The loop gives the count of each of the four labels, in order. |
| HealthLakeAnalytics.HealthLakeAnalytics.Resources | scripts/healthlake-analytics.py:54-80 | The four labelled results are the server's replies for the four type URLs. |
| HealthLakeAnalytics.HealthLakeAnalytics.AnalyzeVitalSigns | scripts/healthlake-analytics.py:93-144 | The loop gives exactly the specified rows of the Observation search. |
| HealthLakeAnalytics.HealthLakeAnalytics.FlattenObservation | scripts/healthlake-analytics.py:106-140 | The body of the observation loop, with its component loop, gives exactly that observation's rows. |
| HealthLakeAnalytics.HealthLakeAnalytics.AnalyzePatientDemographics | scripts/healthlake-analytics.py:146-182 | The loop gives exactly the specified demographics of the Patient search. |
| HealthLakeAnalytics.HealthLakeAnalytics.AnalyzeClinicalDocuments | scripts/healthlake-analytics.py:184-226 | The loop gives exactly the specified document summaries; each preview decodes the attachment as the lenient `b64decode` does, so wrapped or padded-then-continued base64 still reads back. |
| HealthLakeAnalytics.HealthLakeAnalytics.CreateCardiovascularSummary | scripts/healthlake-analytics.py:228-275 | The summary is built from the three analyses, and the run raises when any of them raises. |
| AwsCurl.FixedValue | scripts/aws-curl.py:31-32 | A zero-padded field reads back as its number. |
| AwsCurl.StampsOfOneInstant | scripts/aws-curl.py:31-32 | The request date is "YYYYMMDDTHHMMSSZ", and the date stamp is its first eight characters. Both come from one instant, and every field reads back. |
| AwsCurl.Hex | scripts/aws-curl.py:66-84 | A hex digest has two lower-case hex digits per byte. |
| AwsCurl.HexDigits | scripts/aws-curl.py:66-84 | Digits 2i and 2i+1 of the digest are the high and low halves of byte i. |
| AwsCurl.HexReadsBack | scripts/aws-curl.py:66-84 | Each byte reads back from its two digits, so the digest determines the bytes. |
| AwsCurl.PayloadChoice | scripts/aws-curl.py:35-51 | '@'-prefixed data names a file, a '.json' suffix names a file, another string is itself, a non-string value is dumped, and falsy data gives ''. |
| AwsCurl.SignedHeadersText | scripts/aws-curl.py:54-63 | The signed headers are "content-type;host;x-amz-date", with ";x-amz-security-token" exactly when there is a token. |
| AwsCurl.BuildCanonicalHeaders | scripts/aws-curl.py:54-63 | The two `+=` accumulators give exactly the specified canonical and signed headers. |
| AwsCurl.SignedTokenIffToken | scripts/aws-curl.py:60-63 | The token header is signed exactly when there is a token. |
| AwsCurl.SignedHeadersSplit | scripts/aws-curl.py:54-63 | Splitting the signed headers at ';' gives the header names back. |
| AwsCurl.HeaderLineNames | scripts/aws-curl.py:54-63 | Each canonical header line starts with its name and a ':'. |
| AwsCurl.SignedHeadersNameLines | scripts/aws-curl.py:54-63 | The signed-header list names exactly the canonical header lines, in the same order. |
| AwsCurl.CanonicalHeadersLines | scripts/aws-curl.py:54-63 | The canonical headers split into one line per header and an empty last piece. |
| AwsCurl.CanonicalRequestLines | scripts/aws-curl.py:69 | The canonical request is method, path, empty query, header lines, blank line, signed headers and payload hash, one per line. |
| AwsCurl.CredentialScopeParts | scripts/aws-curl.py:72 | The scope is "<date>/us-east-1/healthlake/aws4_request". |
| AwsCurl.StringToSignParts | scripts/aws-curl.py:73 | The string to sign is the algorithm, the date, the scope and the request hash, one per line. |
| AwsCurl.Chain4 | scripts/aws-curl.py:76-81 | The key chain over four parts is four nested HMACs. |
| AwsCurl.SigningKeySteps | scripts/aws-curl.py:75-80 | The signing key is four HMACs in a row: keyed by "AWS4"+secret over the date, then over the region, the service and "aws4_request". |
| AwsCurl.SigningKeyFollowsScope | scripts/aws-curl.py:76-83 | The signing key is HMAC chained from "AWS4"+secret over exactly the parts of the scope, in order. |
| AwsCurl.AuthorizationFields | scripts/aws-curl.py:87 | The header's three comma-separated fields carry the credential, the signed headers and the signature. |
| AwsCurl.AuthorizationPrefix | scripts/aws-curl.py:87 | Everything up to the signature is fixed by the key, the scope and the headers. |
| AwsCurl.RequestHeadersShape | scripts/aws-curl.py:90-98 | The headers are content type, date, authorization and accept, in that order, with the token header exactly when there is a token. |
| AwsCurl.SignAwsRequest | scripts/aws-curl.py:11-100 | Without credentials the call fails with "No AWS credentials found". |
| AwsCurl.SignedRequestHeaders | scripts/aws-curl.py:11-100 | A signed request has the four headers in order, plus the token header exactly when there is a token. The authorization names the key, the date's scope and the signed headers, and the payload is the chosen one. |
| AwsCurl.SignFailsIff | scripts/aws-curl.py:16-51 | Signing fails exactly when there are no credentials or the payload cannot be read. |
| AwsCurl.CurlHeaderLines | scripts/aws-curl.py:110-111 | One -H line per header, in order. |
| AwsCurl.CurlLinesShape | scripts/aws-curl.py:107-114 | The command is the first line, then one -H per header, then -d exactly when the payload is non-empty and the method is not GET. |
| AwsCurl.BuildCurlCommand | scripts/aws-curl.py:107-116 | The loop over the headers builds exactly the specified command. |
| AwsCurl.MakeCurlCommand | scripts/aws-curl.py:102-139 | Gives the command for the signed request, or none when signing raises. |
| HealthLakeCleanup.SearchAllResources | sample-healthlake/scripts/healthlake_cleanup.py:18-32 | A search that raises, or a response without ResourceDocument, gives an empty list. |
| HealthLakeCleanup.EntryStepIds | sample-healthlake/scripts/healthlake_cleanup.py:76-81 | An entry is skipped exactly when its id is falsy, and a visited entry carries its own truthy id. |
| HealthLakeCleanup.TaggedIds | sample-healthlake/scripts/healthlake_cleanup.py:76-81 | The targets of one type all have that type and a truthy id. |
| HealthLakeCleanup.ScanSkipsIdless | sample-healthlake/scripts/healthlake_cleanup.py:72-107 | The targets of one type are its entries with a truthy id, in order, up to the first exception, and all of them when there is none. |
| HealthLakeCleanup.PlanSkipsIdless | sample-healthlake/scripts/healthlake_cleanup.py:63-107 | The same over all types, in type order. |
| HealthLakeCleanup.TargetsWellFormed | sample-healthlake/scripts/healthlake_cleanup.py:63-107 | Every target names a searched type and has a truthy id. |
| HealthLakeCleanup.FoundWellFormed | sample-healthlake/scripts/healthlake_cleanup.py:63-81 | Every entry found with an id names a searched type and has a truthy id. |
| HealthLakeCleanup.PlanOrdered | sample-healthlake/scripts/healthlake_cleanup.py:52-56 | All Observation targets come before all Procedure targets, and those before all Patient targets. |
| HealthLakeCleanup.FoundOrdered | sample-healthlake/scripts/healthlake_cleanup.py:52-56 | The same order for the first n types. |
| HealthLakeCleanup.FailedSearchFindsNothing | sample-healthlake/scripts/healthlake_cleanup.py:26-70 | A failed search contributes no target and lets the run go on to the next type. |
| HealthLakeCleanup.SuccessesBound | sample-healthlake/scripts/healthlake_cleanup.py:97-104 | The execute-mode total never exceeds the number of targets, and reaches it exactly when every delete succeeds. |
| HealthLakeCleanup.SuccessesAppend | sample-healthlake/scripts/healthlake_cleanup.py:97-104 | Successes over a concatenation add up. |
| HealthLakeCleanup.TallyAppend | sample-healthlake/scripts/healthlake_cleanup.py:63-107 | Tallies of consecutive runs combine. |
| HealthLakeCleanup.ScanCrashStays | sample-healthlake/scripts/healthlake_cleanup.py:113-116 | Once an entry raised, later entries change nothing. |
| HealthLakeCleanup.PlanCrashStays | sample-healthlake/scripts/healthlake_cleanup.py:113-116 | Once a type raised, later types change nothing. |
| HealthLakeCleanup.VisitEntries | sample-healthlake/scripts/healthlake_cleanup.py:72-107 | The inner loop deletes exactly the targets of its type, or only counts them in a dry run. It stops at the first exception. |
| HealthLakeCleanup.CleanupDatastore | sample-healthlake/scripts/healthlake_cleanup.py:47-116 | In a dry run nothing is deleted and the total is the number of targets. In execute mode exactly the targets are deleted, in type order, and the total is the number of successful deletes. An exception ends the run. |
| HealthLakeCleanup.ParseArguments | sample-healthlake/scripts/healthlake_cleanup.py:118-134 | The id is the first argument, else the stripped terraform output. The script exits when neither exists, and the run is a dry run exactly when "--execute" is absent. |
| HealthLakeCleanup.ExecuteFlagAlone | sample-healthlake/scripts/healthlake_cleanup.py:120-134 | Given alone, "--execute" is taken as the datastore id, and the run deletes. |
| HealthLakeCleanup.Run | sample-healthlake/scripts/healthlake_cleanup.py:118-141 | `main` end to end: it exits exactly when no id is found, issues no delete without "--execute", and otherwise runs the cleanup on the id found. |
| Text.FindFirst | sample-healthlake/terraform/audio_transcription.py:299 | `find` gives the first occurrence at or after the start, or -1 when there is none. |
| Text.OccurrencesExact | sample-healthlake/terraform/audio_transcription.py:297-311 | The occurrences listed are exactly the matching positions, each once, in increasing order. |
| Text.FindThenRest | sample-healthlake/terraform/audio_transcription.py:299-311 | One step of the find loop gives the first hit and then the hits after it. |
| Text.ReplaceAllAppend | sample-healthlake/terraform/audio_transcription.py:340 | `replace` distributes over a concatenation when no occurrence straddles the seam. |
| Text.ReplaceSuffix | sample-healthlake/terraform/clinical_notes_nlp.py:39 | Replacing an extension that occurs only at the end replaces just that. |
| Text.JoinSplit | sample-healthlake/terraform/audio_transcription.py:164-166 | Joining the pieces of a split gives the text back. |
| Text.SplitJoin | sample-healthlake/terraform/audio_transcription.py:164-166 | Splitting a join gives the pieces back when none holds the separator. |
| Text.SplitOnce | sample-healthlake/terraform/audio_transcription.py:169 | `split(c, 1)` gives the text before the first separator and the rest, which re-join to the text. |
| Text.BeforeFirst | sample-healthlake/terraform/fhir_resource_creator.py:509 | `s.split(sep)[0]` is the prefix up to the first occurrence of sep, and the whole text without one. |
| Text.Take | sample-healthlake/terraform/fhir_resource_creator.py:199 | `s[:n]` is the prefix of `s` of length min(n, len(s)). |
| Text.Strip | sample-healthlake/terraform/fhir_resource_creator.py:159 | `strip()` is the slice of the text between a leading and a trailing run of white space, with no white space at either of its ends; it is empty exactly when the text is all white space. |
| Text.Words | sample-healthlake/terraform/fhir_resource_creator.py:209 | `split()` gives non-empty runs of non-white-space characters, and none exactly when the text is all white space. |
| Text.WordsJoin | sample-healthlake/terraform/fhir_resource_creator.py:209 | Words joined by single spaces split back into exactly those words. |
| Text.DigitsOf | sample-healthlake/terraform/fhir_resource_creator.py:236 | The digits of a text: a one-character text gives itself if it is a digit and nothing otherwise; empty exactly when the text has no digit. |
| Text.DigitsOfAppend | sample-healthlake/terraform/fhir_resource_creator.py:236 | The digits of two texts joined are the digits of the first followed by those of the second, so the result is the text's digits in order. |
| Text.NatToStringRoundTrip | sample-healthlake/terraform/lambda_import.py:111 | `str(n)` reads back as n. |
| Encoding.Utf8RoundTrip | sample-healthlake/terraform/fhir_resource_creator.py:301-303 | Decoding the UTF-8 encoding of a text gives the text. |
| Encoding.Base64RoundTrip | sample-healthlake/terraform/fhir_resource_creator.py:303 | Decoding the base64 encoding of bytes gives the bytes. |
| Encoding.Base64Decode | scripts/healthlake-analytics.py:204 | `b64decode` with its default `validate=False` raises on any non-ASCII character. |
| Encoding.Base64SkipsForeign | scripts/healthlake-analytics.py:204 | An ASCII character outside the alphabet, other than '=', is dropped wherever it stands. |
| Encoding.Base64StopsAtPadding | scripts/healthlake-analytics.py:204 | The '=' that completes a padded last group ends the input: any ASCII text after it is ignored. |
| Encoding.WrappedExample | scripts/healthlake-analytics.py:204 | "aGVs\nbG8=" decodes to the bytes of "hello". |
| Encoding.PaddedThenMoreExample | scripts/healthlake-analytics.py:204 | "QQ==QUJD" decodes to the single byte of "A". |

## Left out

- Every AWS call (S3, Comprehend Medical, Transcribe Medical, HealthLake, STS, boto3 sessions) and all HTTP traffic. Their answers are parameters.
- `uuid4()`, `datetime.now()` and `utcnow()` are parameters. Their ISO-8601 formatting is not modelled.
- `wait_for_transcription_completion`, because it polls with `time.sleep` against the wall clock.
- The handlers' own S3 reads and writes, and `load_nlp_results_from_s3`, `get_latest_nlp_results`, `get_import_job_status` and `process_batch_import`, because they only move data between services.
- `json.loads`, `json.dumps`, `str()` of a value and `unquote_plus` are parameters. The model does not implement them.
- SHA-256 and HMAC are uninterpreted functions, and `SigV4Auth` in `make_fhir_request` is not modelled. Only the assembly of the strings they work on is.
- Floating-point work: confidence scores are carried as opaque JSON values, and the `:.2f` rendering of a score is a parameter that may fail. Averages are not modelled.
- `generate_analytics_report` and every `print`, logging call, pandas or matplotlib import, and the file writes of the scripts.
- The `subprocess` call to `terraform output` in the cleanup script is a `Result` parameter.
- `get_healthlake_client` is not modelled.
- HealthLakeCleanup.Run: each type's search is an oracle of the datastore id and the type only. The model does not capture that a later search could see the effect of earlier deletes.
- Text: `lower`, `upper`, `strip`, `split()` and `isdigit` are modelled on ASCII only. Unicode case mapping and white space are not.
- Encoding: UTF-8 decoding accepts exactly the encodings of code points. The error handling of Python's decoder beyond "it raised" is not modelled.
- Encoding.Base64Decode: follows the non-strict path of `binascii.a2b_base64` as CPython 3.11 writes it. Other interpreter versions are not modelled.
- HealthLakeAnalytics.CardiovascularSummary: the average heart rate and the blood-pressure line are only printed and are not modelled. Where `sum` over string values or `:.0f` on None or a string would raise, the model still answers Some.
- MedicalNlpLambda.LambdaHandler: the event is a map from strings to strings, so a non-string `patient_id` or `text` cannot be represented.
- HealthLakeCleanup.CleanupDatastore: `delete` is a pure oracle, so a duplicate id's second delete gets the same answer as its first.
- FhirResourceCreator.CreateFhirResourcesFromNlp: one `now` stands for every `get_fhir_datetime()` call of a run.
- LambdaImport.LambdaHandler: reading the three environment variables happens before the `try`; the KeyError a missing one raises is not modelled.
- AwsCurl.SignAwsRequest: the URL is split into host and path by a parameter, not by `urlparse`.
- The Terraform definitions and the demo scripts under `data/` and `old/` are not part of this model. The two `old/` copies of `aws-curl.py` and `medical-nlp-lambda.py` are identical to the modelled files.

## Findings

| source | as written | input that shows it | evidently intended | confidence | as-written member | corrected member |
|---|---|---|---|---|---|---|
| sample-healthlake/terraform/audio_transcription.py:156-166 | Tests for ".s3." anywhere in the transcript URI to choose the virtual-hosted reading | `https://s3.us-east-1.amazonaws.com/my.s3.bucket/out.json` is parsed to bucket `s3.us-east-1.amazonaws.com`, key `my.s3.bucket/out.json` | Test only the host, giving bucket `my.s3.bucket`, key `out.json` | not executed; medium | AudioTranscription.PathStyleMisreadExample | AudioTranscription.PathStyleUriByHost |
