/** The audio-transcription handler: the media format chosen for an upload,
    the parsing of the transcript location returned by Transcribe Medical,
    the results record filled from the transcript's entities, and the keys
    under which the record and its summary are stored. */
module AudioTranscription {
  import opened Wrappers
  import opened Text
  import opened JsonData
  import opened Comprehend

  // ---------------------------------------------------------------------
  // Media format
  // ---------------------------------------------------------------------

  /** The format lookup with its 'wav' default. */
  function FormatOfExtension(ext: string): (f: string)
    ensures f in {"wav", "mp3", "mp4", "flac"}
    ensures ext in {"wav", "mp3", "mp4", "flac"} ==> f == ext
    ensures ext == "m4a" ==> f == "mp4"
    ensures ext !in {"wav", "mp3", "mp4", "flac", "m4a"} ==> f == "wav"
  {
    if ext == "wav" then "wav"
    else if ext == "mp3" then "mp3"
    else if ext == "mp4" then "mp4"
    else if ext == "flac" then "flac"
    else if ext == "m4a" then "mp4"
    else "wav"
  }

  /** The format of an upload: the lower-cased text after the key's last '.'. */
  function MediaFormat(key: string): string {
    var parts := Split(key, '.');
    FormatOfExtension(Lower(parts[|parts| - 1]))
  }

  /** Only the text after the last dot decides the format, whatever the case. */
  lemma MediaFormatOfFile(stem: string, ext: string)
    requires '.' !in ext
    ensures MediaFormat(stem + "." + ext) == FormatOfExtension(Lower(ext))
  {
    SplitLast(stem, '.', ext);
  }

  /** A key without any dot is looked up as a whole. */
  lemma MediaFormatWithoutDot(key: string)
    requires '.' !in key
    ensures MediaFormat(key) == FormatOfExtension(Lower(key))
  {
    SplitNone(key, '.');
  }

  // ---------------------------------------------------------------------
  // Transcript location
  // ---------------------------------------------------------------------

  datatype S3Location = S3Location(bucket: string, key: string)

  /** The location named by a transcript URI, or the IndexError raised for an
      https URI without any path. The virtual-hosted form is recognised by
      ".s3." anywhere in the URI. */
  function ParseTranscriptUri(uri: string): Result<S3Location> {
    if StartsWith(uri, "https://") then
      var parts := Split(ReplaceAll(uri, "https://", ""), '/');
      if Contains(uri, ".s3.") then HostedLocation(parts) else PathStyleLocation(parts)
    else S3SchemeLocation(uri)
  }

  /** The same parse with the virtual-hosted form recognised by ".s3." in the
      host, the first component after "https://". */
  function ParseTranscriptUriByHost(uri: string): Result<S3Location> {
    if StartsWith(uri, "https://") then
      var parts := Split(ReplaceAll(uri, "https://", ""), '/');
      if Contains(parts[0], ".s3.") then HostedLocation(parts) else PathStyleLocation(parts)
    else S3SchemeLocation(uri)
  }

  /** `bucket-name.s3.region.amazonaws.com/path/to/file` */
  function HostedLocation(parts: seq<string>): Result<S3Location>
    requires |parts| >= 1
  {
    Ok(S3Location(BeforeFirst(parts[0], ".s3."), Join(parts[1..], "/")))
  }

  /** `s3.region.amazonaws.com/bucket-name/path/to/file` */
  function PathStyleLocation(parts: seq<string>): Result<S3Location>
    requires |parts| >= 1
  {
    if |parts| > 2 then Ok(S3Location(parts[1], Join(parts[2..], "/")))
    else if |parts| == 2 then Ok(S3Location(parts[1], parts[1]))
    else Err("list index out of range")
  }

  /** `s3://bucket/key` */
  function S3SchemeLocation(uri: string): Result<S3Location> {
    var uriParts := SplitOnce(ReplaceAll(uri, "s3://", ""), '/');
    Ok(S3Location(uriParts[0], if |uriParts| > 1 then uriParts[1] else ""))
  }

  /** An s3:// URI is not an https one. */
  lemma S3SchemeIsNotHttps(rest: string)
    ensures !StartsWith("s3://" + rest, "https://")
  {
    assert ("s3://" + rest)[1] == '3';
  }

  /** An s3:// URI splits into the bucket and the key, which re-join to it. */
  lemma S3UriRoundTrip(bucket: string, key: string)
    requires '/' !in bucket && !Contains(bucket + "/" + key, "s3://")
    ensures ParseTranscriptUri("s3://" + bucket + "/" + key) == Ok(S3Location(bucket, key))
    ensures ParseTranscriptUriByHost("s3://" + bucket + "/" + key) == Ok(S3Location(bucket, key))
  {
    var rest := bucket + "/" + key;
    assert "s3://" + bucket + "/" + key == "s3://" + rest;
    S3SchemeIsNotHttps(rest);
    DropPrefix("s3://", rest);
    assert rest[|bucket|] == '/' && rest[..|bucket|] == bucket;
    assert rest == bucket + ['/'] + key;
  }

  /** An s3:// URI without a '/' after the bucket has the empty key. */
  lemma S3UriWithoutKey(bucket: string)
    requires '/' !in bucket && !Contains(bucket, "s3://")
    ensures ParseTranscriptUri("s3://" + bucket) == Ok(S3Location(bucket, ""))
  {
    S3SchemeIsNotHttps(bucket);
    DropPrefix("s3://", bucket);
  }

  /** The https forms: removing "https://" and splitting the rest at '/'. */
  lemma HttpsParts(host: string, path: string)
    requires '/' !in host && !Contains(host + "/" + path, "https://")
    ensures Split(ReplaceAll("https://" + host + "/" + path, "https://", ""), '/') == [host] + Split(path, '/')
  {
    var rest := host + "/" + path;
    assert "https://" + host + "/" + path == "https://" + rest;
    DropPrefix("https://", rest);
    assert rest == host + ['/'] + path;
    SplitFirst(host, '/', path);
  }

  /** A virtual-hosted URI gives the text of the host before its first
      ".s3." as bucket and the path as key, whatever dots the bucket holds. */
  lemma {:induction false} VirtualHostedUri(host: string, path: string)
    requires '/' !in host && Contains(host, ".s3.")
    requires !Contains(host + "/" + path, "https://")
    ensures var uri := "https://" + host + "/" + path;
      && ParseTranscriptUri(uri) == Ok(S3Location(BeforeFirst(host, ".s3."), path))
      && ParseTranscriptUriByHost(uri) == Ok(S3Location(BeforeFirst(host, ".s3."), path))
  {
    HttpsParts(host, path);
    assert "https://" + host + "/" + path == "https://" + host + ("/" + path);
    ContainsInside("https://", host, "/" + path, ".s3.");
    var parts := [host] + Split(path, '/');
    assert parts[1..] == Split(path, '/');
    JoinSplit(path, '/');
  }

  /** Built from a bucket and a region, the URI gives the bucket back whole
      as long as no ".s3." starts inside it: dots in the bucket are fine. */
  lemma {:induction false} VirtualHostedBucket(bucket: string, region: string, path: string)
    requires '/' !in bucket && '/' !in region && !Contains(bucket + ".s3", ".s3.")
    requires !Contains(bucket + ".s3." + region + "/" + path, "https://")
    ensures var uri := "https://" + bucket + ".s3." + region + "/" + path;
      ParseTranscriptUri(uri) == Ok(S3Location(bucket, path)) &&
      ParseTranscriptUriByHost(uri) == Ok(S3Location(bucket, path))
  {
    var host := bucket + ".s3." + region;
    HostedBucket(bucket, region);
    assert "https://" + bucket + ".s3." == "https://" + (bucket + ".s3.");
    assert "https://" + bucket + ".s3." + region == "https://" + host;
    assert bucket + ".s3." + region + "/" + path == host + "/" + path;
    VirtualHostedUri(host, path);
  }

  /** The host of a virtual-hosted URI holds no '/', contains ".s3." and
      gives back the bucket before it. */
  lemma {:induction false} HostedBucket(bucket: string, region: string)
    requires '/' !in bucket && '/' !in region && !Contains(bucket + ".s3", ".s3.")
    ensures var host := bucket + ".s3." + region;
      '/' !in host && Contains(host, ".s3.") && BeforeFirst(host, ".s3.") == bucket
  {
    var host := bucket + ".s3." + region;
    assert '/' !in host by {
      assert forall i :: 0 <= i < |host| ==> host[i] == (if i < |bucket| then bucket[i] else (".s3." + region)[i - |bucket|]);
    }
    assert MatchAt(host, ".s3.", |bucket|) by {
      assert host[|bucket|..|bucket| + 4] == ".s3.";
    }
    assert host[..|bucket| + 3] == bucket + ".s3";
    forall q | 0 <= q < |bucket|
      ensures !MatchAt(host, ".s3.", q)
    {
      MatchAtPrefix(host, |bucket| + 3, ".s3.", q);
    }
    var b := BeforeFirst(host, ".s3.");
    assert |b| == |bucket|;
    assert b == host[..|bucket|] == bucket;
  }

  const DottedBucket := "my.bucket"

  /** "my.bucket.s3" has no ".s3.": its dots stand at 2 and 9, and a match
      ending at 9 would start at the 'k' of position 6. */
  lemma DottedBucketPlain()
    ensures !Contains(DottedBucket + ".s3", ".s3.") && '/' !in DottedBucket
  {
    var s := DottedBucket + ".s3";
    assert s == "my.bucket.s3";
    forall q | 0 <= q <= |s| - 4
      ensures !MatchAt(s, ".s3.", q)
    {
      MatchAtChar(s, ".s3.", q, q);
      MatchAtChar(s, ".s3.", q, q + 3);
    }
  }

  const ExampleRegion := "us-east-1.amazonaws.com"

  /** A virtual-hosted URI of a dotted bucket, "https://my.bucket.s3.
      us-east-1.amazonaws.com/a/b": bucket "my.bucket", key "a/b". */
  lemma DottedBucketExample()
    ensures ParseTranscriptUri("https://" + DottedBucket + ".s3." + ExampleRegion + "/" + "a/b")
         == Ok(S3Location(DottedBucket, "a/b"))
  {
    DottedBucketPlain();
    NotContainsByChar(DottedBucket + ".s3." + ExampleRegion + "/" + "a/b", "https://", 'h');
    VirtualHostedBucket(DottedBucket, ExampleRegion, "a/b");
  }

  /** A path-style URI gives the first path segment as bucket and the rest as
      key, as long as ".s3." occurs nowhere in the URI. */
  lemma PathStyleUri(host: string, bucket: string, path: string)
    requires '/' !in host && '/' !in bucket
    requires !Contains(host + "/" + bucket + "/" + path, ".s3.")
    requires !Contains(host + "/" + bucket + "/" + path, "https://")
    ensures ParseTranscriptUri("https://" + host + "/" + bucket + "/" + path) == Ok(S3Location(bucket, path))
  {
    var rest := host + "/" + bucket + "/" + path;
    var uri := "https://" + host + "/" + bucket + "/" + path;
    assert uri == "https://" + rest;
    ContainsPastPrefix("https://", rest, ".s3.");
    PathStyleParts(host, bucket, path);
  }

  /** The pieces of a path-style URI and the location they give. */
  lemma PathStyleParts(host: string, bucket: string, path: string)
    requires '/' !in host && '/' !in bucket
    requires !Contains(host + "/" + bucket + "/" + path, "https://")
    ensures var parts := Split(ReplaceAll("https://" + host + "/" + bucket + "/" + path, "https://", ""), '/');
      |parts| >= 1 && parts[0] == host && PathStyleLocation(parts) == Ok(S3Location(bucket, path))
  {
    var tail := bucket + "/" + path;
    assert host + "/" + tail == host + "/" + bucket + "/" + path;
    assert "https://" + host + "/" + tail == "https://" + host + "/" + bucket + "/" + path;
    HttpsParts(host, tail);
    assert tail == bucket + ['/'] + path;
    SplitFirst(bucket, '/', path);
    var parts := [host] + ([bucket] + Split(path, '/'));
    assert parts[2..] == Split(path, '/');
    JoinSplit(path, '/');
  }

  /** As written, a path-style URI whose bucket name contains ".s3." is read
      as virtual-hosted: the whole host becomes the bucket and the real bucket
      is pushed into the key. */
  lemma PathStyleMisread(host: string, bucket: string, path: string)
    requires '/' !in host && '/' !in bucket
    requires !Contains(host, ".s3.") && Contains(bucket, ".s3.")
    requires !Contains(host + "/" + bucket + "/" + path, "https://")
    ensures ParseTranscriptUri("https://" + host + "/" + bucket + "/" + path) == Ok(S3Location(host, bucket + "/" + path))
  {
    var uri := "https://" + host + "/" + bucket + "/" + path;
    assert uri == ("https://" + host + "/") + bucket + ("/" + path);
    ContainsInside("https://" + host + "/", bucket, "/" + path, ".s3.");
    assert host + "/" + (bucket + "/" + path) == host + "/" + bucket + "/" + path;
    assert "https://" + host + "/" + (bucket + "/" + path) == uri;
    assert uri[..8] == "https://";
    MisreadParts(host, bucket + "/" + path);
  }

  /** The pieces of an https URI read as virtual-hosted with a host lacking
      ".s3.": the whole host is the bucket, the whole path the key. */
  lemma MisreadParts(host: string, tail: string)
    requires '/' !in host && !Contains(host, ".s3.")
    requires !Contains(host + "/" + tail, "https://")
    ensures var parts := Split(ReplaceAll("https://" + host + "/" + tail, "https://", ""), '/');
      |parts| >= 1 && HostedLocation(parts) == Ok(S3Location(host, tail))
  {
    HttpsParts(host, tail);
    var parts := [host] + Split(tail, '/');
    assert parts[1..] == Split(tail, '/');
    JoinSplit(tail, '/');
  }

  const ExampleHost := "s3.us-east-1.amazonaws.com"
  const ExampleBucket := "my.s3.bucket"

  /** The example's host has no ".s3.": its only '3' is its second character. */
  lemma ExampleHostPlain()
    ensures !Contains(ExampleHost, ".s3.") && '/' !in ExampleHost
  {
    ExampleHostPieces();
    NotContainsPastChar("s3", ".us-east-1.amazonaws.com", ".s3.", 2);
  }

  lemma ExampleHostPieces()
    ensures ExampleHost == "s3" + ".us-east-1.amazonaws.com"
  {
  }

  /** The example's bucket holds ".s3.". */
  lemma ExampleBucketDotted()
    ensures Contains(ExampleBucket, ".s3.") && '/' !in ExampleBucket
  {
    assert MatchAt(ExampleBucket, ".s3.", 2);
  }

  /** The rest of the example URI has no scheme in it: it has no 'h'. */
  lemma ExampleNoScheme(path: string)
    requires 'h' !in path
    ensures !Contains(ExampleHost + "/" + ExampleBucket + "/" + path, "https://")
  {
    NotContainsByChar(ExampleHost + "/" + ExampleBucket + "/" + path, "https://", 'h');
  }

  /** The input that shows it: a bucket named "my.s3.bucket" addressed in
      path style. */
  lemma PathStyleMisreadExample()
    ensures ParseTranscriptUri("https://" + ExampleHost + "/" + ExampleBucket + "/" + "out.json")
         == Ok(S3Location(ExampleHost, ExampleBucket + "/" + "out.json"))
  {
    ExampleHostPlain();
    ExampleBucketDotted();
    ExampleNoScheme("out.json");
    PathStyleMisread(ExampleHost, ExampleBucket, "out.json");
  }

  /** Testing the host instead, a path-style URI gives its bucket and key
      whatever the bucket and the key contain. */
  lemma PathStyleUriByHost(host: string, bucket: string, path: string)
    requires '/' !in host && '/' !in bucket && !Contains(host, ".s3.")
    requires !Contains(host + "/" + bucket + "/" + path, "https://")
    ensures ParseTranscriptUriByHost("https://" + host + "/" + bucket + "/" + path) == Ok(S3Location(bucket, path))
  {
    PathStyleParts(host, bucket, path);
  }

  /** An https URI with no '/' after a host that holds ".s3." reads as
      virtual-hosted with the empty key. */
  lemma {:induction false} HttpsHostOnly(host: string)
    requires '/' !in host && Contains(host, ".s3.") && !Contains(host, "https://")
    ensures ParseTranscriptUri("https://" + host) == Ok(S3Location(BeforeFirst(host, ".s3."), ""))
    ensures ParseTranscriptUriByHost("https://" + host) == Ok(S3Location(BeforeFirst(host, ".s3."), ""))
  {
    DropPrefix("https://", host);
    assert "https://" + host == "https://" + host + "";
    ContainsInside("https://", host, "", ".s3.");
    SplitNone(host, '/');
    assert [host][1..] == [];
  }

  /** An https URI with no '/' after a host that lacks ".s3." raises. */
  lemma HttpsWithoutPath(host: string)
    requires '/' !in host && !Contains(host, ".s3.") && !Contains(host, "https://")
    ensures ParseTranscriptUri("https://" + host).Err?
    ensures ParseTranscriptUriByHost("https://" + host).Err?
  {
    DropPrefix("https://", host);
    ContainsPastPrefix("https://", host, ".s3.");
    SplitNone(host, '/');
  }

  // ---------------------------------------------------------------------
  // Cath-lab mentions in the transcript
  // ---------------------------------------------------------------------

  const AudioSource := "audio_transcription"

  const CathLabTerms: seq<string> := [
    "catheter", "guidewire", "balloon", "stent", "contrast",
    "fluoroscopy", "angiography", "hemodynamics", "pressure",
    "injection", "vessel", "artery", "coronary", "lad", "rca", "lcx",
    "stenosis", "occlusion", "thrombus", "dissection",
    "complications", "bleeding", "hematoma", "perforation",
    "access site", "femoral", "radial", "closure device",
    "procedure time", "contrast volume", "radiation dose"]

  const CathProcedures: seq<string> := [
    "angioplasty", "ptca", "pci", "stenting", "atherectomy",
    "thrombectomy", "balloon angioplasty", "drug eluting stent",
    "bare metal stent", "rotablation", "cutting balloon",
    "intravascular ultrasound", "ivus", "oct", "ffr",
    "fractional flow reserve", "instantaneous wave free ratio"]

  const CardioKeywords: seq<string> := [
    "coronary", "cardiac", "heart", "cardiovascular", "vessel",
    "artery", "stenosis", "ischemia", "myocardial", "angina"]

  /** An entry of `cath_lab_specific`. */
  datatype CathHit = CathHit(text: string, category: string, position: nat, context: string, source: string)

  function HitCategory(term: string): string {
    if term in CathLabTerms then "cath_lab_equipment" else "cath_lab_procedure"
  }

  /** The hit for `term` found at `pos` of the lower-cased transcript. */
  function MakeHit(text: string, term: string, category: string, pos: nat): CathHit {
    var lo := if pos >= 50 then pos - 50 else 0;
    CathHit(term, category, pos, Slice(text, lo, pos + |term| + 50), AudioSource)
  }

  function HitsAt(text: string, term: string, category: string, ps: seq<nat>): (hs: seq<CathHit>)
    ensures |hs| == |ps|
  {
    if ps == [] then []
    else [MakeHit(text, term, category, ps[0])] + HitsAt(text, term, category, ps[1..])
  }

  /** The k-th hit is the hit at the k-th position. */
  lemma {:induction false} HitsAtIndex(text: string, term: string, category: string, ps: seq<nat>)
    ensures forall k :: 0 <= k < |ps| ==> HitsAt(text, term, category, ps)[k] == MakeHit(text, term, category, ps[k])
  {
    if ps != [] {
      HitsAtIndex(text, term, category, ps[1..]);
    }
  }

  /** The hits at a first position and then at the rest. */
  lemma HitsAtCons(text: string, term: string, category: string, p: nat, rest: seq<nat>)
    ensures HitsAt(text, term, category, [p] + rest)
         == [MakeHit(text, term, category, p)] + HitsAt(text, term, category, rest)
  {
    assert ([p] + rest)[1..] == rest;
  }

  /** One hit per occurrence of `term`, overlapping ones included. */
  function TermHits(text: string, term: string, category: string): seq<CathHit> {
    HitsAt(text, term, category, Occurrences(text, term, 0))
  }

  /** The hits of each term in turn. */
  function CathHits(text: string, terms: seq<string>): seq<CathHit> {
    if terms == [] then []
    else CathHits(text, terms[..|terms| - 1]) + TermHits(text, terms[|terms| - 1], HitCategory(terms[|terms| - 1]))
  }

  /** The category of a hit says which list its term comes from. */
  lemma HitCategoryOfList(term: string)
    ensures HitCategory(term) == "cath_lab_equipment" <==> term in CathLabTerms
    ensures HitCategory(term) == "cath_lab_procedure" <==> term !in CathLabTerms
  {
  }

  /** The hits of a term are at exactly the positions where it occurs, each
      once and in increasing order, and each one's context holds the term. */
  lemma TermHitsExact(text: string, term: string, category: string)
    ensures var hs := TermHits(text, term, category);
      && (forall p: nat :: (exists k :: 0 <= k < |hs| && hs[k].position == p) <==> MatchAt(text, term, p))
      && (forall k, l :: 0 <= k < l < |hs| ==> hs[k].position < hs[l].position)
      && (forall k :: 0 <= k < |hs| ==>
            hs[k].text == term && hs[k].category == category && hs[k].source == AudioSource
            && Contains(hs[k].context, term))
  {
    var ps := Occurrences(text, term, 0);
    OccurrencesExact(text, term, 0);
    HitsAtIndex(text, term, category, ps);
    TermHitsPositions(text, term, category);
    TermHitsContexts(text, term, category);
  }

  lemma TermHitsPositions(text: string, term: string, category: string)
    ensures var hs := TermHits(text, term, category);
      forall p: nat :: (exists k :: 0 <= k < |hs| && hs[k].position == p) <==> MatchAt(text, term, p)
  {
    var ps := Occurrences(text, term, 0);
    var hs := TermHits(text, term, category);
    OccurrencesExact(text, term, 0);
    HitsAtIndex(text, term, category, ps);
    forall p: nat
      ensures (exists k :: 0 <= k < |hs| && hs[k].position == p) <==> MatchAt(text, term, p)
    {
      if MatchAt(text, term, p) {
        assert p in ps;
        var k :| 0 <= k < |ps| && ps[k] == p;
        assert hs[k].position == p;
      }
    }
  }

  lemma TermHitsContexts(text: string, term: string, category: string)
    ensures var hs := TermHits(text, term, category);
      forall k :: 0 <= k < |hs| ==> Contains(hs[k].context, term)
  {
    var ps := Occurrences(text, term, 0);
    var hs := TermHits(text, term, category);
    OccurrencesExact(text, term, 0);
    HitsAtIndex(text, term, category, ps);
    forall k | 0 <= k < |hs|
      ensures Contains(hs[k].context, term)
    {
      assert ps[k] in ps;
      ContextHoldsTerm(text, term, category, ps[k]);
    }
  }

  /** The context slice around an occurrence contains the term. */
  lemma ContextHoldsTerm(text: string, term: string, category: string, pos: nat)
    requires MatchAt(text, term, pos)
    ensures Contains(MakeHit(text, term, category, pos).context, term)
  {
    var lo := if pos >= 50 then pos - 50 else 0;
    var hi := if pos + |term| + 50 < |text| then pos + |term| + 50 else |text|;
    var ctx := MakeHit(text, term, category, pos).context;
    assert ctx == text[..hi][lo..];
    MatchAtPrefix(text, hi, term, pos);
    MatchAtShift(text[..hi], term, lo, pos - lo);
    assert MatchAt(ctx, term, pos - lo);
  }

  /** Scanning one more term appends that term's hits. */
  lemma CathHitsSnoc(text: string, terms: seq<string>, n: nat)
    requires n < |terms|
    ensures CathHits(text, terms[..n + 1]) == CathHits(text, terms[..n]) + TermHits(text, terms[n], HitCategory(terms[n]))
  {
    assert terms[..n + 1][..n] == terms[..n];
  }

  /** The hits of one term, as members: each is an occurrence of the term,
      and each occurrence has one. */
  lemma TermHitsMembers(text: string, term: string, category: string)
    ensures forall h :: h in TermHits(text, term, category) ==>
      h.text == term && h.category == category && MatchAt(text, term, h.position)
    ensures forall p: nat :: MatchAt(text, term, p) ==>
      exists h :: h in TermHits(text, term, category) && h.text == term && h.position == p
  {
    var hs := TermHits(text, term, category);
    TermHitsExact(text, term, category);
    forall h | h in hs
      ensures MatchAt(text, term, h.position)
    {
      var k :| 0 <= k < |hs| && hs[k] == h;
      assert exists k' :: 0 <= k' < |hs| && hs[k'].position == h.position;
    }
    forall p: nat | MatchAt(text, term, p)
      ensures exists h :: h in hs && h.text == term && h.position == p
    {
      var k :| 0 <= k < |hs| && hs[k].position == p;
      assert hs[k] in hs;
    }
  }

  /** Every hit of the scan is an occurrence of one of the terms, with that
      term's category, and every occurrence of every term is a hit. */
  lemma {:induction false} CathHitsExact(text: string, terms: seq<string>)
    ensures forall h :: h in CathHits(text, terms) ==>
      h.text in terms && MatchAt(text, h.text, h.position) && h.category == HitCategory(h.text)
    ensures forall t, p: nat :: t in terms && MatchAt(text, t, p) ==>
      exists h :: h in CathHits(text, terms) && h.text == t && h.position == p
  {
    if terms != [] {
      var init := terms[..|terms| - 1];
      var last := terms[|terms| - 1];
      var prior := CathHits(text, init);
      var hs := TermHits(text, last, HitCategory(last));
      var all := CathHits(text, terms);
      CathHitsExact(text, init);
      TermHitsMembers(text, last, HitCategory(last));
      assert all == prior + hs;
      forall h | h in all
        ensures h.text in terms
      {
        if h in prior {
          InFrontOrLast(terms, h.text);
        }
      }
      forall t, p: nat | t in terms && MatchAt(text, t, p)
        ensures exists h :: h in all && h.text == t && h.position == p
      {
        InFrontOrLast(terms, t);
        if t in init {
          var h :| h in prior && h.text == t && h.position == p;
          assert h in all;
        } else {
          var h :| h in hs && h.text == t && h.position == p;
          assert h in all;
        }
      }
    }
  }

  /** Matching is by substring: "doctor" yields a hit for the term "oct" at
      the position of "oct" inside it. */
  lemma DoctorMentionsOct()
    ensures exists h :: h in TermHits("the doctor", "oct", HitCategory("oct")) && h.position == 5
  {
    assert MatchAt("the doctor", "oct", 5);
    TermHitsExact("the doctor", "oct", HitCategory("oct"));
    var hs := TermHits("the doctor", "oct", HitCategory("oct"));
    var k :| 0 <= k < |hs| && hs[k].position == 5;
    assert hs[k] in hs;
  }

  /** The loop state of the `find` loop: the hits found so far followed by
      the hits at the occurrences from `start` on are all the term's hits. */
  ghost predicate FoundSoFar(text: string, term: string, category: string, hits: seq<CathHit>, start: nat) {
    hits + HitsAt(text, term, category, Occurrences(text, term, start)) == TermHits(text, term, category)
  }

  /** The hits from `start` on: the hit where `find` stops, then the hits
      after it. */
  lemma HitsFromFound(text: string, term: string, category: string, start: nat)
    requires Find(text, term, start) != -1
    ensures HitsAt(text, term, category, Occurrences(text, term, start))
         == [MakeHit(text, term, category, Find(text, term, start))]
            + HitsAt(text, term, category, Occurrences(text, term, Find(text, term, start) + 1))
  {
    FindThenRest(text, term, start);
    var pos := Find(text, term, start);
    HitsAtCons(text, term, category, pos, Occurrences(text, term, pos + 1));
  }

  /** Before the loop nothing is found. */
  lemma FoundNone(text: string, term: string, category: string)
    ensures FoundSoFar(text, term, category, [], 0)
  {
    assert [] + TermHits(text, term, category) == TermHits(text, term, category);
  }

  /** A found occurrence moves its hit into the found list. */
  lemma FoundNext(text: string, term: string, category: string, hits: seq<CathHit>, start: nat)
    requires FoundSoFar(text, term, category, hits, start)
    requires Find(text, term, start) != -1
    ensures FoundSoFar(text, term, category, hits + [MakeHit(text, term, category, Find(text, term, start))],
                       Find(text, term, start) + 1)
  {
    var pos := Find(text, term, start);
    var hit := MakeHit(text, term, category, pos);
    var later := HitsAt(text, term, category, Occurrences(text, term, pos + 1));
    HitsFromFound(text, term, category, start);
    assert HitsAt(text, term, category, Occurrences(text, term, start)) == [hit] + later;
    MoveFirst(hits, hit, later, TermHits(text, term, category));
  }

  /** When `find` fails the found list is complete. */
  lemma FoundAll(text: string, term: string, category: string, hits: seq<CathHit>, start: nat)
    requires FoundSoFar(text, term, category, hits, start)
    requires Find(text, term, start) == -1
    ensures hits == TermHits(text, term, category)
  {
    FindThenRest(text, term, start);
    assert hits + [] == hits;
  }

  /** A term that does not occur has no hits. */
  lemma NoTermHits(text: string, term: string, category: string)
    requires !Contains(text, term)
    ensures TermHits(text, term, category) == []
  {
    ContainsIffFound(text, term);
    FindThenRest(text, term, 0);
  }

  /** The `find` loop for one term: the hits at every occurrence, in order. */
  method FindTermHits(text: string, term: string, category: string) returns (hits: seq<CathHit>)
    ensures hits == TermHits(text, term, category)
  {
    hits := [];
    if Contains(text, term) {
      var startPos: nat := 0;
      FoundNone(text, term, category);
      while true
        invariant startPos <= |text| + 1
        invariant FoundSoFar(text, term, category, hits, startPos)
        decreases |text| + 1 - startPos
      {
        var pos := Find(text, term, startPos);
        if pos == -1 {
          FoundAll(text, term, category, hits, startPos);
          break;
        }
        hits, startPos := FoundStep(text, term, category, hits, startPos);
      }
    } else {
      NoTermHits(text, term, category);
    }
  }

  /** One pass of the `find` loop after a hit: the hit is recorded and the
      search resumes one past it. */
  method FoundStep(text: string, term: string, category: string, hits: seq<CathHit>, startPos: nat)
    returns (found: seq<CathHit>, next: nat)
    requires FoundSoFar(text, term, category, hits, startPos)
    requires Find(text, term, startPos) != -1
    ensures FoundSoFar(text, term, category, found, next)
    ensures startPos < next <= |text| + 1
  {
    var pos := Find(text, term, startPos);
    FoundNext(text, term, category, hits, startPos);
    found, next := hits + [MakeHit(text, term, category, pos)], pos + 1;
  }

  /** The loop over the terms: the hits of each term in turn. */
  method CollectCathHits(text: string, terms: seq<string>) returns (found: seq<CathHit>)
    ensures found == CathHits(text, terms)
  {
    found := [];
    var n := 0;
    while n < |terms|
      invariant 0 <= n <= |terms|
      invariant found == CathHits(text, terms[..n])
    {
      var term := terms[n];
      var hits := FindTermHits(text, term, HitCategory(term));
      CathHitsSnoc(text, terms, n);
      found := found + hits;
      n := n + 1;
    }
    assert terms[..n] == terms;
  }

  // ---------------------------------------------------------------------
  // Cardiovascular mentions among the entities
  // ---------------------------------------------------------------------

  /** An entry of `cardiovascular_entities` built from a transcript. */
  datatype CardioMention = CardioMention(
    text: Option<string>,
    confidence: Option<Json>,
    category: Option<string>,
    entityType: Option<string>,
    beginOffset: Option<Json>,
    endOffset: Option<Json>,
    source: string)

  predicate MentionsCardio(e: Entity) {
    ContainsAny(LowerText(e), CardioKeywords)
  }

  function ToMention(e: Entity): (m: CardioMention)
    ensures m.text == e.text && m.confidence == e.score && m.category == e.category
    ensures m.entityType == e.entityType && m.beginOffset == e.beginOffset && m.endOffset == e.endOffset
    ensures m.source == AudioSource
  {
    CardioMention(e.text, e.score, e.category, e.entityType, e.beginOffset, e.endOffset, AudioSource)
  }

  function CardioMentions(es: seq<Entity>): seq<CardioMention> {
    if es == [] then []
    else
      var e := es[|es| - 1];
      CardioMentions(es[..|es| - 1]) + (if MentionsCardio(e) then [ToMention(e)] else [])
  }

  function MentionIndices(es: seq<Entity>): seq<nat> {
    if es == [] then []
    else MentionIndices(es[..|es| - 1]) + (if MentionsCardio(es[|es| - 1]) then [|es| - 1] else [])
  }

  lemma {:induction false} MentionIndicesExact(es: seq<Entity>)
    ensures forall i: nat :: i in MentionIndices(es) <==> i < |es| && MentionsCardio(es[i])
  {
    if es != [] {
      var init := es[..|es| - 1];
      MentionIndicesExact(init);
      forall i: nat | i < |init|
        ensures es[i] == init[i]
      {
      }
    }
  }

  lemma {:induction false} MentionIndicesIncreasing(es: seq<Entity>)
    ensures StrictlyIncreasing(MentionIndices(es))
  {
    if es != [] {
      var init := es[..|es| - 1];
      MentionIndicesIncreasing(init);
      MentionIndicesExact(init);
      var idx0 := MentionIndices(init);
      assert forall k :: 0 <= k < |idx0| ==> idx0[k] in idx0;
    }
  }

  /** Each entity mentioning a cardio keyword gives exactly one entry, the
      others none, in input order. */
  lemma {:induction false} CardioMentionsExact(es: seq<Entity>)
    ensures var idx := MentionIndices(es);
      && |CardioMentions(es)| == |idx|
      && forall k :: 0 <= k < |idx| ==>
           idx[k] < |es| && CardioMentions(es)[k] == ToMention(es[idx[k]])
  {
    if es != [] {
      var init := es[..|es| - 1];
      CardioMentionsExact(init);
      var idx0 := MentionIndices(init);
      assert forall k :: 0 <= k < |idx0| ==> es[idx0[k]] == init[idx0[k]];
    }
  }

  // ---------------------------------------------------------------------
  // The results record
  // ---------------------------------------------------------------------

  /** The lists of the transcription results record that the two steps fill
      in place. */
  class TranscriptionResults {
    var transcriptionText: string
    var entities: seq<Entity>
    var medications: seq<Finding>
    var diagnoses: seq<Finding>
    var procedures: seq<Finding>
    var cardiovascularEntities: seq<CardioMention>
    var cathLabSpecific: seq<CathHit>

    /** The record as the handler sets it up once the entities are known. */
    constructor (transcriptionText: string, entities: seq<Entity>)
      ensures this.transcriptionText == transcriptionText && this.entities == entities
      ensures medications == [] && diagnoses == [] && procedures == []
      ensures cardiovascularEntities == [] && cathLabSpecific == []
    {
      this.transcriptionText := transcriptionText;
      this.entities := entities;
      medications, diagnoses, procedures := [], [], [];
      cardiovascularEntities, cathLabSpecific := [], [];
    }

    /** Appends each entity of category MEDICATION, MEDICAL_CONDITION or
        PROCEDURE to its list, tagged with the audio source. */
    method CategorizeTranscriptionEntities()
      modifies this
      ensures transcriptionText == old(transcriptionText) && entities == old(entities)
      ensures cardiovascularEntities == old(cardiovascularEntities) && cathLabSpecific == old(cathLabSpecific)
      ensures medications == old(medications) + Categorized(entities, MEDICATION, Some(AudioSource))
      ensures diagnoses == old(diagnoses) + Categorized(entities, MEDICAL_CONDITION, Some(AudioSource))
      ensures procedures == old(procedures) + Categorized(entities, PROCEDURE, Some(AudioSource))
    {
      var i := 0;
      while i < |entities|
        invariant 0 <= i <= |entities|
        invariant transcriptionText == old(transcriptionText) && entities == old(entities)
        invariant cardiovascularEntities == old(cardiovascularEntities) && cathLabSpecific == old(cathLabSpecific)
        invariant medications == old(medications) + Categorized(entities[..i], MEDICATION, Some(AudioSource))
        invariant diagnoses == old(diagnoses) + Categorized(entities[..i], MEDICAL_CONDITION, Some(AudioSource))
        invariant procedures == old(procedures) + Categorized(entities[..i], PROCEDURE, Some(AudioSource))
      {
        var entity := entities[i];
        var category := CategoryKey(entity);
        assert entities[..i + 1][..i] == entities[..i];
        if category == MEDICATION {
          medications := medications + [ToFinding(entity, Some(AudioSource))];
        } else if category == MEDICAL_CONDITION {
          diagnoses := diagnoses + [ToFinding(entity, Some(AudioSource))];
        } else if category == PROCEDURE {
          procedures := procedures + [ToFinding(entity, Some(AudioSource))];
        }
        i := i + 1;
      }
      assert entities[..i] == entities;
    }

    /** Records every occurrence of every cath-lab term in the lower-cased
        transcript, then every entity mentioning a cardio keyword. */
    method ExtractCathLabEntities()
      modifies this
      ensures transcriptionText == old(transcriptionText) && entities == old(entities)
      ensures medications == old(medications) && diagnoses == old(diagnoses) && procedures == old(procedures)
      ensures cathLabSpecific == old(cathLabSpecific) + CathHits(Lower(transcriptionText), CathLabTerms + CathProcedures)
      ensures cardiovascularEntities == old(cardiovascularEntities) + CardioMentions(entities)
    {
      RecordTermHits(Lower(transcriptionText), CathLabTerms + CathProcedures);
      RecordCardioMentions();
    }

    /** The loop over the terms, extending the cath-lab list. */
    method RecordTermHits(text: string, terms: seq<string>)
      modifies this
      ensures transcriptionText == old(transcriptionText) && entities == old(entities)
      ensures medications == old(medications) && diagnoses == old(diagnoses) && procedures == old(procedures)
      ensures cardiovascularEntities == old(cardiovascularEntities)
      ensures cathLabSpecific == old(cathLabSpecific) + CathHits(text, terms)
    {
      var found := CollectCathHits(text, terms);
      cathLabSpecific := cathLabSpecific + found;
    }

    /** The loop over the entities: one mention per entity whose lower-cased
        text contains a cardio keyword. */
    method RecordCardioMentions()
      modifies this
      ensures transcriptionText == old(transcriptionText) && entities == old(entities)
      ensures medications == old(medications) && diagnoses == old(diagnoses) && procedures == old(procedures)
      ensures cathLabSpecific == old(cathLabSpecific)
      ensures cardiovascularEntities == old(cardiovascularEntities) + CardioMentions(entities)
    {
      var i := 0;
      while i < |entities|
        invariant 0 <= i <= |entities|
        invariant transcriptionText == old(transcriptionText) && entities == old(entities)
        invariant medications == old(medications) && diagnoses == old(diagnoses) && procedures == old(procedures)
        invariant cathLabSpecific == old(cathLabSpecific)
        invariant cardiovascularEntities == old(cardiovascularEntities) + CardioMentions(entities[..i])
      {
        var entity := entities[i];
        assert entities[..i + 1][..i] == entities[..i];
        if ContainsAny(LowerText(entity), CardioKeywords) {
          cardiovascularEntities := cardiovascularEntities + [ToMention(entity)];
        }
        i := i + 1;
      }
      assert entities[..i] == entities;
    }
  }

  // ---------------------------------------------------------------------
  // Output keys
  // ---------------------------------------------------------------------

  /** `key.replace('.wav', suffix).replace('.mp3', suffix)` */
  function ReplaceAudioExtension(key: string, suffix: string): string {
    ReplaceAll(ReplaceAll(key, ".wav", suffix), ".mp3", suffix)
  }

  function ResultsKey(key: string): string {
    "transcriptions/" + ReplaceAudioExtension(key, "_transcription_results.json")
  }

  function SummaryKey(key: string): string {
    "transcriptions/summaries/" + ReplaceAudioExtension(key, "_summary.json")
  }

  /** A recording `<stem>.wav` or `<stem>.mp3` becomes `<stem><suffix>`, for a
      suffix that starts with '_' and holds no '3'. */
  lemma ReplaceAudioExtensionOfRecording(stem: string, ext: string, suffix: string)
    requires ext == ".wav" || ext == ".mp3"
    requires !Contains(stem, ".wav") && !Contains(stem, ".mp3")
    requires suffix != [] && suffix[0] == '_' && '3' !in suffix
    ensures ReplaceAudioExtension(stem + ext, suffix) == stem + suffix
  {
    NotContainsByChar(suffix, ".mp3", '3');
    NoStraddleBySeamChar(stem, suffix, ".mp3");
    ReplaceAllAppend(stem, suffix, ".mp3", suffix);
    ReplaceAllAbsent(stem, ".mp3", suffix);
    ReplaceAllAbsent(suffix, ".mp3", suffix);
    if ext == ".wav" {
      ReplaceSuffix(stem, ".wav", suffix);
    } else {
      NotContainsByChar(".mp3", ".wav", 'w');
      NoStraddleBySeamChar(stem, ".mp3", ".wav");
      ReplaceAllAppend(stem, ".mp3", ".wav", suffix);
      ReplaceAllAbsent(stem, ".wav", suffix);
      ReplaceAllAbsent(".mp3", ".wav", suffix);
      ReplaceSuffix(stem, ".mp3", suffix);
    }
  }

  /** The results and summary keys of a `.wav` or `.mp3` recording. */
  lemma KeysOfRecording(stem: string, ext: string)
    requires ext == ".wav" || ext == ".mp3"
    requires !Contains(stem, ".wav") && !Contains(stem, ".mp3")
    ensures ResultsKey(stem + ext) == "transcriptions/" + stem + "_transcription_results.json"
    ensures SummaryKey(stem + ext) == "transcriptions/summaries/" + stem + "_summary.json"
  {
    assert "_transcription_results.json"[0] == '_';
    assert "_summary.json"[0] == '_';
    ReplaceAudioExtensionOfRecording(stem, ext, "_transcription_results.json");
    ReplaceAudioExtensionOfRecording(stem, ext, "_summary.json");
  }
}
