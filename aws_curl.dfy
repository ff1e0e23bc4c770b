/** The request signer and curl-command builder: the AWS Signature Version 4
    canonical request, credential scope, string to sign, signing-key chain
    and Authorization header for the `healthlake` service in `us-east-1`,
    and the shell command that replays the signed request. SHA-256, HMAC,
    URL parsing, JSON dumping and file reading are parameters. */
module AwsCurl {
  import opened Wrappers
  import opened Text
  import opened JsonData
  import opened Encoding

  const Service := "healthlake"
  const Region := "us-east-1"
  const Algorithm := "AWS4-HMAC-SHA256"
  const FhirJson := "application/fhir+json"

  // ---------------------------------------------------------------------
  // The timestamp
  // ---------------------------------------------------------------------

  /** `datetime.utcnow()` */
  datatype DateTime = DateTime(year: nat, month: nat, day: nat, hour: nat, minute: nat, second: nat)

  predicate ValidDateTime(t: DateTime) {
    1 <= t.year <= 9999 && 1 <= t.month <= 12 && 1 <= t.day <= 31
    && t.hour < 24 && t.minute < 60 && t.second < 60
  }

  function Pow10(n: nat): (p: nat)
    ensures p >= 1
  {
    if n == 0 then 1 else 10 * Pow10(n - 1)
  }

  /** The last `width` decimal digits of `n`, zero-padded. */
  function Fixed(n: nat, width: nat): (s: string)
    ensures |s| == width && AllDigits(s)
  {
    if width == 0 then [] else Fixed(n / 10, width - 1) + [DigitChar(n % 10)]
  }

  /** A number that fits reads back from its padded digits. */
  lemma {:induction false} FixedValue(n: nat, width: nat)
    requires n < Pow10(width)
    ensures DigitsValue(Fixed(n, width)) == n
  {
    if width > 0 {
      var s := Fixed(n, width);
      var q, r := n / 10, n % 10;
      assert n == q * 10 + r;
      assert s[..|s| - 1] == Fixed(q, width - 1) && s[|s| - 1] == DigitChar(r);
      assert q < Pow10(width - 1);
      FixedValue(q, width - 1);
      assert DigitsValue(s) == DigitsValue(Fixed(q, width - 1)) * 10 + DigitValue(DigitChar(r));
    }
  }

  /** `t.strftime('%Y%m%d')` */
  function DateStamp(t: DateTime): string {
    Fixed(t.year, 4) + Fixed(t.month, 2) + Fixed(t.day, 2)
  }

  /** `t.strftime('%Y%m%dT%H%M%SZ')` */
  function AmzDate(t: DateTime): string {
    DateStamp(t) + "T" + Fixed(t.hour, 2) + Fixed(t.minute, 2) + Fixed(t.second, 2) + "Z"
  }

  /** The two stamps come from one instant: the date stamp is the first
      eight characters of the request date, and each field reads back. */
  lemma StampsOfOneInstant(t: DateTime)
    requires ValidDateTime(t)
    ensures var d := AmzDate(t);
      && |d| == 16 && d[..8] == DateStamp(t) && d[8] == 'T' && d[15] == 'Z'
      && AllDigits(d[..8]) && AllDigits(d[9..15])
      && DigitsValue(d[..4]) == t.year && DigitsValue(d[4..6]) == t.month && DigitsValue(d[6..8]) == t.day
      && DigitsValue(d[9..11]) == t.hour && DigitsValue(d[11..13]) == t.minute && DigitsValue(d[13..15]) == t.second
  {
    var d := AmzDate(t);
    assert d[..4] == Fixed(t.year, 4);
    assert d[4..6] == Fixed(t.month, 2);
    assert d[6..8] == Fixed(t.day, 2);
    assert d[9..11] == Fixed(t.hour, 2);
    assert d[11..13] == Fixed(t.minute, 2);
    assert d[13..15] == Fixed(t.second, 2);
    assert Pow10(2) == 100 && Pow10(4) == 10000;
    FixedValue(t.year, 4);
    FixedValue(t.month, 2);
    FixedValue(t.day, 2);
    FixedValue(t.hour, 2);
    FixedValue(t.minute, 2);
    FixedValue(t.second, 2);
  }

  lemma DigitsHaveNoSeparator(s: string, c: char)
    requires AllDigits(s) && !IsDigit(c)
    ensures c !in s
  {
  }

  // ---------------------------------------------------------------------
  // Hex digests
  // ---------------------------------------------------------------------

  function HexDigit(d: nat): (c: char)
    requires d < 16
    ensures d < 10 ==> IsDigit(c) && DigitValue(c) == d
    ensures d >= 10 ==> 'a' <= c <= 'f' && c as int - 'a' as int + 10 == d
  {
    if d < 10 then DigitChar(d) else ('a' as int + d - 10) as char
  }

  predicate IsHex(s: string) {
    forall i :: 0 <= i < |s| ==> IsDigit(s[i]) || 'a' <= s[i] <= 'f'
  }

  /** `.hexdigest()`: two lower-case hex digits per byte, the high half first. */
  function Hex(bs: seq<byte>): (h: string)
    ensures |h| == 2 * |bs| && IsHex(h)
  {
    if bs == [] then []
    else [HexDigit(bs[0] / 16), HexDigit(bs[0] % 16)] + Hex(bs[1..])
  }

  /** Digits 2i and 2i+1 of the digest are the high and low halves of byte i. */
  lemma {:induction false} HexDigits(bs: seq<byte>)
    ensures var h := Hex(bs);
      forall i :: 0 <= i < |bs| ==> h[2 * i] == HexDigit(bs[i] / 16) && h[2 * i + 1] == HexDigit(bs[i] % 16)
  {
    if bs != [] {
      HexDigits(bs[1..]);
      var h := Hex(bs);
      var rest := Hex(bs[1..]);
      forall i | 1 <= i < |bs|
        ensures h[2 * i] == HexDigit(bs[i] / 16) && h[2 * i + 1] == HexDigit(bs[i] % 16)
      {
        assert bs[i] == bs[1..][i - 1];
        assert h[2 * i] == rest[2 * (i - 1)] && h[2 * i + 1] == rest[2 * (i - 1) + 1];
      }
    }
  }

  /** The value of a lower-case hex digit. */
  function HexValue(c: char): (d: nat)
    requires IsDigit(c) || 'a' <= c <= 'f'
    ensures d < 16
  {
    if IsDigit(c) then DigitValue(c) else c as int - 'a' as int + 10
  }

  /** Each byte reads back from its two digits: the digest names the bytes. */
  lemma HexReadsBack(bs: seq<byte>, i: nat)
    requires i < |bs|
    ensures var h := Hex(bs); HexValue(h[2 * i]) * 16 + HexValue(h[2 * i + 1]) == bs[i]
  {
    var h := Hex(bs);
    HexDigits(bs);
    assert h[2 * i] == HexDigit(bs[i] / 16) && h[2 * i + 1] == HexDigit(bs[i] % 16);
    assert bs[i] == (bs[i] / 16) * 16 + bs[i] % 16;
  }

  lemma HexHasNoSeparator(h: string, c: char)
    requires IsHex(h) && !IsDigit(c) && !('a' <= c <= 'f')
    ensures c !in h
  {
  }

  // ---------------------------------------------------------------------
  // The payload
  // ---------------------------------------------------------------------

  /** The `data` argument: absent, a string, or another JSON value. */
  datatype Data = NoData | Text(s: string) | Value(j: Json)

  /** The payload: a file named after '@', a file ending in ".json", any
      other string itself, another value dumped as JSON, nothing for a falsy
      argument. None when a file cannot be read. */
  function Payload(data: Data, readFile: string -> Option<string>, dumps: Json -> string): Option<string> {
    match data
    case NoData => Some("")
    case Text(s) =>
      if s == "" then Some("")
      else if StartsWith(s, "@") then readFile(s[1..])
      else if EndsWith(s, ".json") then readFile(s)
      else Some(s)
    case Value(j) => if j.Truthy() then Some(dumps(j)) else Some("")
  }

  lemma PayloadChoice(data: Data, readFile: string -> Option<string>, dumps: Json -> string)
    ensures data.NoData? ==> Payload(data, readFile, dumps) == Some("")
    ensures data.Text? && data.s != [] && data.s[0] == '@' ==> Payload(data, readFile, dumps) == readFile(data.s[1..])
    ensures data.Text? && data.s != [] && data.s[0] != '@' && EndsWith(data.s, ".json") ==>
              Payload(data, readFile, dumps) == readFile(data.s)
    ensures data.Text? && (data.s == [] || (data.s[0] != '@' && !EndsWith(data.s, ".json"))) ==>
              Payload(data, readFile, dumps) == Some(data.s)
    ensures data.Value? ==> Payload(data, readFile, dumps) == if data.j.Truthy() then Some(dumps(data.j)) else Some("")
  {
  }

  // ---------------------------------------------------------------------
  // Fields joined by a one-character separator
  // ---------------------------------------------------------------------

  /** Three fields joined by a separator none of them holds split back. */
  lemma SplitFields3(a: string, b: string, d: string, c: char)
    requires c !in a && c !in b && c !in d
    ensures Split(a + [c] + b + [c] + d, c) == [a, b, d]
  {
    SplitAppend(a + [c] + b, c, d);
    SplitAppend(a, c, b);
    SplitNone(a, c);
    SplitNone(b, c);
    SplitNone(d, c);
  }

  /** Four fields joined by a separator none of them holds split back. */
  lemma SplitFields4(a: string, b: string, d: string, e: string, c: char)
    requires c !in a && c !in b && c !in d && c !in e
    ensures Split(a + [c] + b + [c] + d + [c] + e, c) == [a, b, d, e]
  {
    SplitAppend(a + [c] + b + [c] + d, c, e);
    SplitFields3(a, b, d, c);
    SplitNone(e, c);
  }

  // ---------------------------------------------------------------------
  // Canonical headers and signed headers
  // ---------------------------------------------------------------------

  /** The lines of the canonical headers, in order: the content type, the
      host, the request date, and the session token when there is one. */
  function HeaderLines(host: string, amzDate: string, token: string): seq<string> {
    ["content-type:" + FhirJson, "host:" + host, "x-amz-date:" + amzDate]
    + if token != "" then ["x-amz-security-token:" + token] else []
  }

  /** The names of the signed headers, in the same order. */
  function HeaderNames(token: string): seq<string> {
    ["content-type", "host", "x-amz-date"] + if token != "" then ["x-amz-security-token"] else []
  }

  /** Each line followed by a newline. */
  function JoinTerminated(lines: seq<string>): string {
    if lines == [] then "" else lines[0] + "\n" + JoinTerminated(lines[1..])
  }

  /** The canonical headers: every header line newline-terminated. */
  function CanonicalHeaders(host: string, amzDate: string, token: string): string {
    JoinTerminated(HeaderLines(host, amzDate, token))
  }

  /** The signed-header list: the header names joined by ';'. */
  function SignedHeaders(token: string): string {
    Join(HeaderNames(token), ";")
  }

  lemma {:induction false} JoinTerminatedSnoc(lines: seq<string>, line: string)
    ensures JoinTerminated(lines + [line]) == JoinTerminated(lines) + line + "\n"
  {
    if lines == [] {
      assert [] + [line] == [line];
      assert [line][1..] == [];
    } else {
      assert (lines + [line])[1..] == lines[1..] + [line];
      JoinTerminatedSnoc(lines[1..], line);
    }
  }

  lemma AppendLine(done: seq<string>, acc: string, line: string)
    requires acc == JoinTerminated(done)
    ensures acc + (line + "\n") == JoinTerminated(done + [line])
  {
    JoinTerminatedSnoc(done, line);
  }

  /** The signed-header list spelled out: the three fixed names, and the
      token header after them exactly when there is a token. */
  lemma SignedHeadersText(token: string)
    ensures SignedHeaders(token) ==
      if token != "" then "content-type;host;x-amz-date" + ";x-amz-security-token" else "content-type;host;x-amz-date"
  {
    var three := ["content-type", "host", "x-amz-date"];
    ThreeNamesJoined();
    var names := HeaderNames(token);
    if token != "" {
      JoinLast(names, ";");
      assert names[..3] == three && names[3] == "x-amz-security-token";
    } else {
      assert names == three;
    }
  }

  lemma ThreeNamesJoined()
    ensures Join(["content-type", "host", "x-amz-date"], ";") == "content-type;host;x-amz-date"
  {
    var three := ["content-type", "host", "x-amz-date"];
    assert three[1..] == ["host", "x-amz-date"] && three[1..][1..] == ["x-amz-date"];
  }

  /** The two accumulators of `sign_aws_request`, built with `+=` as the
      source builds them. */
  method BuildCanonicalHeaders(host: string, amzDate: string, token: string)
    returns (canonicalHeaders: string, signedHeaders: string)
    ensures canonicalHeaders == CanonicalHeaders(host, amzDate, token)
    ensures signedHeaders == SignedHeaders(token)
  {
    AppendLine([], "", "content-type:" + FhirJson);
    canonicalHeaders := "content-type:" + FhirJson + "\n";
    ghost var done := ["content-type:" + FhirJson];
    AppendLine(done, canonicalHeaders, "host:" + host);
    canonicalHeaders := canonicalHeaders + ("host:" + host + "\n");
    done := done + ["host:" + host];
    AppendLine(done, canonicalHeaders, "x-amz-date:" + amzDate);
    canonicalHeaders := canonicalHeaders + ("x-amz-date:" + amzDate + "\n");
    done := done + ["x-amz-date:" + amzDate];
    signedHeaders := "content-type;host;x-amz-date";
    SignedHeadersText(token);
    if token != "" {
      AppendLine(done, canonicalHeaders, "x-amz-security-token:" + token);
      canonicalHeaders := canonicalHeaders + ("x-amz-security-token:" + token + "\n");
      done := done + ["x-amz-security-token:" + token];
      signedHeaders := signedHeaders + ";x-amz-security-token";
    }
    assert done == HeaderLines(host, amzDate, token);
  }

  /** The security-token header is signed exactly when there is a token. */
  lemma SignedTokenIffToken(token: string)
    ensures EndsWith(SignedHeaders(token), ";x-amz-security-token") <==> token != ""
    ensures StartsWith(SignedHeaders(token), "content-type;host;x-amz-date")
  {
    SignedHeadersText(token);
    var base := "content-type;host;x-amz-date";
    var s := SignedHeaders(token);
    if token == "" {
      assert s[|s| - 21] != ';';
    } else {
      assert s[..|base|] == base;
    }
  }

  /** The name of a canonical header line: what precedes its first ':'. */
  function HeaderName(line: string): string {
    SplitOnce(line, ':')[0]
  }

  /** Splitting the signed-header list at ';' gives the header names back. */
  lemma SignedHeadersSplit(token: string)
    ensures Split(SignedHeaders(token), ';') == HeaderNames(token)
  {
    var names := HeaderNames(token);
    assert ';' !in "content-type" && ';' !in "host" && ';' !in "x-amz-date" && ';' !in "x-amz-security-token";
    assert forall i :: 0 <= i < |names| ==> ';' !in names[i];
    SplitJoin(names, ';');
  }

  /** The name of a header line is the text before its ':'. */
  lemma NameOfLine(name: string, value: string)
    requires ':' !in name
    ensures HeaderName(name + ":" + value) == name
  {
    assert name + ":" + value == name + [':'] + value;
    SplitOnceAt(name, ':', value);
  }

  /** The first three header lines start with their names. */
  lemma FixedLineNames(host: string, amzDate: string)
    ensures HeaderName("content-type:" + FhirJson) == "content-type"
    ensures HeaderName("host:" + host) == "host"
    ensures HeaderName("x-amz-date:" + amzDate) == "x-amz-date"
  {
    assert "content-type:" + FhirJson == "content-type" + ":" + FhirJson;
    NameOfLine("content-type", FhirJson);
    assert "host:" + host == "host" + ":" + host;
    NameOfLine("host", host);
    assert "x-amz-date:" + amzDate == "x-amz-date" + ":" + amzDate;
    NameOfLine("x-amz-date", amzDate);
  }

  /** The token line starts with its name. */
  lemma TokenLineName(token: string)
    ensures HeaderName("x-amz-security-token:" + token) == "x-amz-security-token"
  {
    assert "x-amz-security-token:" + token == "x-amz-security-token" + ":" + token;
    NameOfLine("x-amz-security-token", token);
  }

  /** Each canonical header line starts with its header's name and a ':'. */
  lemma HeaderLineNames(host: string, amzDate: string, token: string)
    ensures |HeaderNames(token)| == |HeaderLines(host, amzDate, token)|
    ensures forall i :: 0 <= i < |HeaderNames(token)| ==> HeaderNames(token)[i] == HeaderName(HeaderLines(host, amzDate, token)[i])
  {
    FixedLineNames(host, amzDate);
    TokenLineName(token);
  }

  /** The signed-header list names exactly the canonical headers, in the
      same order. */
  lemma SignedHeadersNameLines(host: string, amzDate: string, token: string)
    ensures var lines := HeaderLines(host, amzDate, token);
      var names := Split(SignedHeaders(token), ';');
      |names| == |lines| && forall i :: 0 <= i < |lines| ==> names[i] == HeaderName(lines[i])
  {
    SignedHeadersSplit(token);
    HeaderLineNames(host, amzDate, token);
  }

  /** No canonical header line holds a newline of its own. */
  lemma HeaderLinesSingle(host: string, amzDate: string, token: string)
    requires '\n' !in host && '\n' !in amzDate && '\n' !in token
    ensures forall i :: 0 <= i < |HeaderLines(host, amzDate, token)| ==> '\n' !in HeaderLines(host, amzDate, token)[i]
  {
    assert '\n' !in "content-type:" + FhirJson;
    assert '\n' !in "host:" && '\n' !in "x-amz-date:" && '\n' !in "x-amz-security-token:";
  }

  /** Newline-terminated lines split back into the lines and an empty last
      piece. */
  lemma {:induction false} SplitTerminated(lines: seq<string>)
    requires forall i :: 0 <= i < |lines| ==> '\n' !in lines[i]
    ensures Split(JoinTerminated(lines), '\n') == lines + [""]
  {
    if lines == [] {
      SplitNone("", '\n');
    } else {
      var head, rest := lines[0], lines[1..];
      var tail := JoinTerminated(rest);
      assert '\n' !in head;
      assert forall i :: 0 <= i < |rest| ==> rest[i] == lines[i + 1];
      SplitTerminated(rest);
      assert JoinTerminated(lines) == head + ['\n'] + tail;
      SplitFirst(head, '\n', tail);
      assert Split(JoinTerminated(lines), '\n') == [head] + (rest + [""]);
      assert lines == [head] + rest;
    }
  }

  /** The canonical headers split into one line per header and an empty
      last piece. */
  lemma CanonicalHeadersLines(host: string, amzDate: string, token: string)
    requires '\n' !in host && '\n' !in amzDate && '\n' !in token
    ensures Split(CanonicalHeaders(host, amzDate, token), '\n') == HeaderLines(host, amzDate, token) + [""]
  {
    HeaderLinesSingle(host, amzDate, token);
    SplitTerminated(HeaderLines(host, amzDate, token));
  }

  // ---------------------------------------------------------------------
  // Canonical request and string to sign
  // ---------------------------------------------------------------------

  /** `f'{method}\n{path}\n\n{canonical_headers}\n{signed_headers}\n{payload_hash}'` */
  function CanonicalRequest(verb: string, path: string, canonicalHeaders: string, signedHeaders: string, payloadHash: string): string {
    verb + "\n" + path + "\n" + "\n" + canonicalHeaders + "\n" + signedHeaders + "\n" + payloadHash
  }

  lemma Regroup<T>(a: T, b: T, d: T, xs: seq<T>, ys: seq<T>)
    ensures [a] + ([b] + ([d] + (xs + ys))) == [a, b, d] + xs + ys
  {
  }

  lemma SplitTailShape(middle: string, sh: string, hash: string, c: char)
    requires c !in sh && c !in hash
    ensures Split(middle + [c] + sh + [c] + hash, c) == Split(middle, c) + [sh, hash]
  {
    var tail := sh + [c] + hash;
    assert Split(tail, c) == [sh, hash] by {
      SplitFirst(sh, c, hash);
      SplitNone(hash, c);
    }
    SplitAppend(middle, c, tail);
    assert middle + [c] + tail == middle + [c] + sh + [c] + hash;
  }

  lemma SplitHeadShape(verb: string, path: string, body: string, c: char)
    requires c !in verb && c !in path
    ensures Split(verb + [c] + path + [c] + [c] + body, c) == [verb, path, ""] + Split(body, c)
  {
    assert verb + [c] + path + [c] + [c] + body == verb + [c] + (path + [c] + ([] + [c] + body));
    SplitFirst([], c, body);
    SplitFirst(path, c, [] + [c] + body);
    SplitFirst(verb, c, path + [c] + ([] + [c] + body));
    Regroup(verb, path, [], Split(body, c), []);
    assert Split(body, c) + [] == Split(body, c);
  }

  /** The generic shape of the canonical request: two single-line fields,
      an empty one, the multi-line middle, and two single-line fields. */
  lemma SplitRequestShape(verb: string, path: string, middle: string, sh: string, hash: string, c: char)
    requires c !in verb && c !in path && c !in sh && c !in hash
    ensures Split(verb + [c] + path + [c] + [c] + middle + [c] + sh + [c] + hash, c)
            == [verb, path, ""] + Split(middle, c) + [sh, hash]
  {
    var body := middle + [c] + sh + [c] + hash;
    assert verb + [c] + path + [c] + [c] + middle + [c] + sh + [c] + hash == verb + [c] + path + [c] + [c] + body;
    SplitHeadShape(verb, path, body, c);
    SplitTailShape(middle, sh, hash, c);
  }

  /** The canonical request is the method, the path, an empty query, the
      header lines, a blank line, the signed headers and the payload hash,
      one per line. */
  lemma CanonicalRequestLines(verb: string, path: string, host: string, amzDate: string, token: string, payloadHash: string)
    requires '\n' !in verb && '\n' !in path && '\n' !in host && '\n' !in amzDate && '\n' !in token && '\n' !in payloadHash
    ensures Split(CanonicalRequest(verb, path, CanonicalHeaders(host, amzDate, token), SignedHeaders(token), payloadHash), '\n')
            == [verb, path, ""] + HeaderLines(host, amzDate, token) + ["", SignedHeaders(token), payloadHash]
  {
    var sh := SignedHeaders(token);
    var lines := HeaderLines(host, amzDate, token);
    assert '\n' !in sh by {
      SignedHeadersText(token);
    }
    SplitRequestShape(verb, path, CanonicalHeaders(host, amzDate, token), sh, payloadHash, '\n');
    CanonicalHeadersLines(host, amzDate, token);
    assert [verb, path, ""] + (lines + [""]) + [sh, payloadHash] == [verb, path, ""] + lines + ["", sh, payloadHash];
  }

  function CredentialScope(dateStamp: string): string {
    dateStamp + "/" + Region + "/" + Service + "/" + "aws4_request"
  }

  /** The scope names the date, the region, the service and the terminator. */
  lemma CredentialScopeParts(dateStamp: string)
    requires '/' !in dateStamp
    ensures Split(CredentialScope(dateStamp), '/') == [dateStamp, Region, Service, "aws4_request"]
  {
    assert '/' !in Region && '/' !in Service && '/' !in "aws4_request";
    SplitFields4(dateStamp, Region, Service, "aws4_request", '/');
  }

  function StringToSign(amzDate: string, scope: string, requestHash: string): string {
    Algorithm + "\n" + amzDate + "\n" + scope + "\n" + requestHash
  }

  /** The string to sign is the algorithm, the request date, the scope and
      the hash of the canonical request, one per line. */
  lemma StringToSignParts(amzDate: string, scope: string, requestHash: string)
    requires '\n' !in amzDate && '\n' !in scope && '\n' !in requestHash
    ensures Split(StringToSign(amzDate, scope, requestHash), '\n') == [Algorithm, amzDate, scope, requestHash]
  {
    assert '\n' !in Algorithm;
    SplitFields4(Algorithm, amzDate, scope, requestHash, '\n');
  }

  // ---------------------------------------------------------------------
  // Signing key, signature and Authorization header
  // ---------------------------------------------------------------------

  /** The primitives: `hashlib.sha256(...).digest()` and
      `hmac.new(key, msg, hashlib.sha256).digest()`. */
  datatype Crypto = Crypto(sha256: seq<byte> -> seq<byte>, hmac: (seq<byte>, seq<byte>) -> seq<byte>)

  /** `get_signature_key`: four HMACs in a row, keyed first by "AWS4" and
      the secret, over the date, the region, the service and "aws4_request";
      SigningKeySteps writes them out. */
  function SigningKey(crypto: Crypto, secretKey: string, dateStamp: string, regionName: string, serviceName: string): seq<byte> {
    Chain(crypto, Utf8Encode("AWS4" + secretKey), [dateStamp, regionName, serviceName, "aws4_request"])
  }

  /** HMAC chained over the parts in order, starting from `key`. */
  function Chain(crypto: Crypto, key: seq<byte>, parts: seq<string>): seq<byte>
    decreases |parts|
  {
    if parts == [] then key else Chain(crypto, crypto.hmac(key, Utf8Encode(parts[0])), parts[1..])
  }

  lemma ChainStep(crypto: Crypto, key: seq<byte>, part: string, rest: seq<string>)
    ensures Chain(crypto, key, [part] + rest) == Chain(crypto, crypto.hmac(key, Utf8Encode(part)), rest)
  {
    assert ([part] + rest)[1..] == rest;
  }

  /** Chaining over four parts is four nested HMACs. */
  lemma Chain4(crypto: Crypto, key: seq<byte>, a: string, b: string, c: string, d: string)
    ensures Chain(crypto, key, [a, b, c, d]) ==
      crypto.hmac(crypto.hmac(crypto.hmac(crypto.hmac(key, Utf8Encode(a)), Utf8Encode(b)), Utf8Encode(c)), Utf8Encode(d))
  {
    var k1 := crypto.hmac(key, Utf8Encode(a));
    var k2 := crypto.hmac(k1, Utf8Encode(b));
    var k3 := crypto.hmac(k2, Utf8Encode(c));
    ChainStep(crypto, k3, d, []);
    ChainStep(crypto, k2, c, [d]);
    ChainStep(crypto, k1, b, [c, d]);
    ChainStep(crypto, key, a, [b, c, d]);
    assert [a, b, c, d] == [a] + [b, c, d] && [b, c, d] == [b] + [c, d] && [c, d] == [c] + [d] && [d] == [d] + [];
  }

  /** The four HMACs of `get_signature_key`, one after the other. */
  lemma SigningKeySteps(crypto: Crypto, secretKey: string, dateStamp: string, regionName: string, serviceName: string)
    ensures var kDate := crypto.hmac(Utf8Encode("AWS4" + secretKey), Utf8Encode(dateStamp));
      var kRegion := crypto.hmac(kDate, Utf8Encode(regionName));
      var kService := crypto.hmac(kRegion, Utf8Encode(serviceName));
      SigningKey(crypto, secretKey, dateStamp, regionName, serviceName) == crypto.hmac(kService, Utf8Encode("aws4_request"))
  {
    Chain4(crypto, Utf8Encode("AWS4" + secretKey), dateStamp, regionName, serviceName, "aws4_request");
  }

  /** The signing key is HMAC chained from "AWS4" + secret over exactly the
      parts of the credential scope, in order. */
  lemma SigningKeyFollowsScope(crypto: Crypto, secretKey: string, dateStamp: string)
    requires '/' !in dateStamp
    ensures SigningKey(crypto, secretKey, dateStamp, Region, Service)
            == Chain(crypto, Utf8Encode("AWS4" + secretKey), Split(CredentialScope(dateStamp), '/'))
  {
    CredentialScopeParts(dateStamp);
  }

  function AuthorizationHeader(accessKey: string, scope: string, signedHeaders: string, signature: string): string {
    Algorithm + " Credential=" + accessKey + "/" + scope + ", SignedHeaders=" + signedHeaders + ", Signature=" + signature
  }

  /** The header's three comma-separated fields carry the credential, the
      signed headers and the signature. */
  lemma AuthorizationFields(accessKey: string, scope: string, signedHeaders: string, signature: string)
    requires ',' !in accessKey && ',' !in scope && ',' !in signedHeaders && ',' !in signature
    ensures Split(AuthorizationHeader(accessKey, scope, signedHeaders, signature), ',') ==
      [Algorithm + " Credential=" + accessKey + "/" + scope, " SignedHeaders=" + signedHeaders, " Signature=" + signature]
  {
    var credential := Algorithm + " Credential=" + accessKey + "/" + scope;
    var sh := " SignedHeaders=" + signedHeaders;
    var sig := " Signature=" + signature;
    assert ',' !in Algorithm + " Credential=" && ',' !in " SignedHeaders=" && ',' !in " Signature=";
    assert ',' !in credential && ',' !in sh && ',' !in sig;
    assert ", SignedHeaders=" == [','] + " SignedHeaders=" && ", Signature=" == [','] + " Signature=";
    assert AuthorizationHeader(accessKey, scope, signedHeaders, signature) == credential + [','] + sh + [','] + sig;
    SplitFields3(credential, sh, sig, ',');
  }

  /** Everything but the signature is fixed by the key, scope and headers. */
  lemma AuthorizationPrefix(accessKey: string, scope: string, signedHeaders: string, signature: string)
    ensures var prefix := Algorithm + " Credential=" + accessKey + "/" + scope + ", SignedHeaders=" + signedHeaders + ", Signature=";
      StartsWith(AuthorizationHeader(accessKey, scope, signedHeaders, signature), prefix)
  {
    var prefix := Algorithm + " Credential=" + accessKey + "/" + scope + ", SignedHeaders=" + signedHeaders + ", Signature=";
    assert AuthorizationHeader(accessKey, scope, signedHeaders, signature) == prefix + signature;
    assert (prefix + signature)[..|prefix|] == prefix;
  }

  // ---------------------------------------------------------------------
  // sign_aws_request
  // ---------------------------------------------------------------------

  /** The session's credentials; an empty token stands for none. */
  datatype Credentials = Credentials(accessKey: string, secretKey: string, token: string)

  /** What the signer calls but does not define. */
  datatype Env = Env(
    crypto: Crypto,
    parseUrl: string -> (string, string),
    readFile: string -> Option<string>,
    dumps: Json -> string)

  datatype Signed = Signed(headers: seq<(string, string)>, payload: string)

  /** The signature of a request. */
  function Signature(crypto: Crypto, verb: string, path: string, host: string, payload: string,
                     creds: Credentials, t: DateTime): string {
    var amzDate := AmzDate(t);
    var payloadHash := Hex(crypto.sha256(Utf8Encode(payload)));
    var request := CanonicalRequest(verb, path, CanonicalHeaders(host, amzDate, creds.token), SignedHeaders(creds.token), payloadHash);
    var scope := CredentialScope(DateStamp(t));
    var toSign := StringToSign(amzDate, scope, Hex(crypto.sha256(Utf8Encode(request))));
    var key := SigningKey(crypto, creds.secretKey, DateStamp(t), Region, Service);
    Hex(crypto.hmac(key, Utf8Encode(toSign)))
  }

  /** The `headers` dictionary, in insertion order. */
  function RequestHeaders(amzDate: string, authorization: string, token: string): seq<(string, string)> {
    var headers := [("Content-Type", FhirJson), ("X-Amz-Date", amzDate), ("Authorization", authorization), ("Accept", FhirJson)];
    if token != "" then headers + [("X-Amz-Security-Token", token)] else headers
  }

  /** Some header is the session token. */
  predicate CarriesToken(headers: seq<(string, string)>) {
    exists i :: 0 <= i < |headers| && headers[i].0 == "X-Amz-Security-Token"
  }

  /** The content type, the date, the authorization and the accept header,
      in that order, and the token header exactly when there is a token. */
  lemma RequestHeadersShape(amzDate: string, authorization: string, token: string)
    ensures var h := RequestHeaders(amzDate, authorization, token);
      && |h| == (if token != "" then 5 else 4)
      && h[0] == ("Content-Type", FhirJson) && h[1] == ("X-Amz-Date", amzDate)
      && h[2] == ("Authorization", authorization) && h[3] == ("Accept", FhirJson)
      && (CarriesToken(h) <==> token != "")
      && (token != "" ==> h[4] == ("X-Amz-Security-Token", token))
  {
    var h := RequestHeaders(amzDate, authorization, token);
    assert "Content-Type" != "X-Amz-Security-Token" && "X-Amz-Date" != "X-Amz-Security-Token";
    assert "Authorization" != "X-Amz-Security-Token" && "Accept" != "X-Amz-Security-Token";
    if token != "" {
      assert h[4].0 == "X-Amz-Security-Token";
    }
  }

  /** `sign_aws_request`: the headers and the payload; an error when there
      are no credentials or a payload file cannot be read. */
  function SignAwsRequest(verb: string, url: string, data: Data, credentials: Option<Credentials>,
                          t: DateTime, env: Env): (r: Result<Signed>)
    ensures credentials.None? ==> r == Err("No AWS credentials found")
  {
    if credentials.None? then Err("No AWS credentials found")
    else
      var creds := credentials.value;
      var (host, path) := env.parseUrl(url);
      match Payload(data, env.readFile, env.dumps)
      case None => Err("payload file could not be read")
      case Some(payload) =>
        var signature := Signature(env.crypto, verb, path, host, payload, creds, t);
        var authorization := AuthorizationHeader(creds.accessKey, CredentialScope(DateStamp(t)), SignedHeaders(creds.token), signature);
        Ok(Signed(RequestHeaders(AmzDate(t), authorization, creds.token), payload))
  }

  /** A signed request carries the content type, the date, the
      authorization and the accept header, in that order, and the token
      header exactly when there is a token. The authorization names the
      access key, the scope of the request's date and the signed headers. */
  lemma SignedRequestHeaders(verb: string, url: string, data: Data, creds: Credentials, t: DateTime, env: Env)
    requires SignAwsRequest(verb, url, data, Some(creds), t, env).Ok?
    ensures var s := SignAwsRequest(verb, url, data, Some(creds), t, env).value;
      && |s.headers| == (if creds.token != "" then 5 else 4)
      && s.headers[0] == ("Content-Type", FhirJson) && s.headers[1] == ("X-Amz-Date", AmzDate(t))
      && s.headers[2].0 == "Authorization" && s.headers[3] == ("Accept", FhirJson)
      && (CarriesToken(s.headers) <==> creds.token != "")
      && StartsWith(s.headers[2].1, Algorithm + " Credential=" + creds.accessKey + "/" + CredentialScope(DateStamp(t))
                                    + ", SignedHeaders=" + SignedHeaders(creds.token) + ", Signature=")
      && Payload(data, env.readFile, env.dumps) == Some(s.payload)
  {
    var s := SignAwsRequest(verb, url, data, Some(creds), t, env).value;
    SignedParts(verb, url, data, creds, t, env);
    var signature := Signature(env.crypto, verb, env.parseUrl(url).1, env.parseUrl(url).0, s.payload, creds, t);
    var authorization := AuthorizationHeader(creds.accessKey, CredentialScope(DateStamp(t)), SignedHeaders(creds.token), signature);
    HeadersShapeOf(s.headers, AmzDate(t), authorization, creds.token);
    AuthorizationPrefix(creds.accessKey, CredentialScope(DateStamp(t)), SignedHeaders(creds.token), signature);
  }

  /** RequestHeadersShape for a sequence known to be the headers. */
  lemma HeadersShapeOf(h: seq<(string, string)>, amzDate: string, authorization: string, token: string)
    requires h == RequestHeaders(amzDate, authorization, token)
    ensures && |h| == (if token != "" then 5 else 4)
      && h[0] == ("Content-Type", FhirJson) && h[1] == ("X-Amz-Date", amzDate)
      && h[2] == ("Authorization", authorization) && h[3] == ("Accept", FhirJson)
      && (CarriesToken(h) <==> token != "")
  {
    RequestHeadersShape(amzDate, authorization, token);
  }

  /** What a successful signing is made of. */
  lemma SignedParts(verb: string, url: string, data: Data, creds: Credentials, t: DateTime, env: Env)
    requires SignAwsRequest(verb, url, data, Some(creds), t, env).Ok?
    ensures var s := SignAwsRequest(verb, url, data, Some(creds), t, env).value;
      var signature := Signature(env.crypto, verb, env.parseUrl(url).1, env.parseUrl(url).0, s.payload, creds, t);
      && Payload(data, env.readFile, env.dumps) == Some(s.payload)
      && s.headers == RequestHeaders(AmzDate(t), AuthorizationHeader(creds.accessKey, CredentialScope(DateStamp(t)),
                                                                       SignedHeaders(creds.token), signature), creds.token)
  {
    var payload := Payload(data, env.readFile, env.dumps).value;
    var (host, path) := env.parseUrl(url);
    var signature := Signature(env.crypto, verb, path, host, payload, creds, t);
    var authorization := AuthorizationHeader(creds.accessKey, CredentialScope(DateStamp(t)), SignedHeaders(creds.token), signature);
    assert SignAwsRequest(verb, url, data, Some(creds), t, env) == Ok(Signed(RequestHeaders(AmzDate(t), authorization, creds.token), payload));
  }

  /** Signing fails exactly when there are no credentials or the payload
      cannot be read. */
  lemma SignFailsIff(verb: string, url: string, data: Data, credentials: Option<Credentials>, t: DateTime, env: Env)
    ensures SignAwsRequest(verb, url, data, credentials, t, env).Err? <==>
            credentials.None? || Payload(data, env.readFile, env.dumps).None?
  {
  }

  // ---------------------------------------------------------------------
  // make_curl_command
  // ---------------------------------------------------------------------

  /** What separates the lines of the command: a space, a backslash and a newline. */
  const Continuation := " \\\n"

  function FirstLine(verb: string, url: string): string {
    "curl -X " + verb + " \"" + url + "\""
  }

  function CurlHeaderLine(header: (string, string)): string {
    "    -H \"" + header.0 + ": " + header.1 + "\""
  }

  function DataLine(payload: string): string {
    "    -d '" + payload + "'"
  }

  predicate SendsData(verb: string, payload: string) {
    payload != "" && Upper(verb) != "GET"
  }

  function CurlHeaderLines(headers: seq<(string, string)>): (lines: seq<string>)
    ensures |lines| == |headers|
    ensures forall i :: 0 <= i < |headers| ==> lines[i] == CurlHeaderLine(headers[i])
  {
    seq(|headers|, i requires 0 <= i < |headers| => CurlHeaderLine(headers[i]))
  }

  /** The lines of the command: the curl call, one -H per header in order,
      and the -d line only for a non-empty payload of a method other than GET. */
  function CurlLines(verb: string, url: string, headers: seq<(string, string)>, payload: string): seq<string> {
    [FirstLine(verb, url)] + CurlHeaderLines(headers) + if SendsData(verb, payload) then [DataLine(payload)] else []
  }

  lemma CurlLinesShape(verb: string, url: string, headers: seq<(string, string)>, payload: string)
    ensures var lines := CurlLines(verb, url, headers, payload);
      && |lines| == 1 + |headers| + (if SendsData(verb, payload) then 1 else 0)
      && lines[0] == FirstLine(verb, url)
      && (forall i :: 0 <= i < |headers| ==> lines[i + 1] == CurlHeaderLine(headers[i]))
      && (DataLine(payload) in lines[1 + |headers|..] <==> SendsData(verb, payload))
  {
    var lines := CurlLines(verb, url, headers, payload);
    assert lines[1 + |headers|..] == if SendsData(verb, payload) then [DataLine(payload)] else [];
  }

  /** Builds the command line by line, as the loop over the headers does. */
  method BuildCurlCommand(verb: string, url: string, headers: seq<(string, string)>, payload: string)
    returns (curlCmd: string)
    ensures curlCmd == Join(CurlLines(verb, url, headers, payload), Continuation)
  {
    curlCmd := FirstLine(verb, url);
    var i := 0;
    while i < |headers|
      invariant 0 <= i <= |headers|
      invariant curlCmd == Join([FirstLine(verb, url)] + CurlHeaderLines(headers[..i]), Continuation)
    {
      var before := [FirstLine(verb, url)] + CurlHeaderLines(headers[..i]);
      var after := [FirstLine(verb, url)] + CurlHeaderLines(headers[..i + 1]);
      assert after == before + [CurlHeaderLine(headers[i])];
      assert after[..|after| - 1] == before;
      JoinLast(after, Continuation);
      curlCmd := curlCmd + Continuation + CurlHeaderLine(headers[i]);
      i := i + 1;
    }
    assert headers[..i] == headers;
    var lines := [FirstLine(verb, url)] + CurlHeaderLines(headers);
    if SendsData(verb, payload) {
      var all := lines + [DataLine(payload)];
      assert all[..|all| - 1] == lines;
      JoinLast(all, Continuation);
      curlCmd := curlCmd + Continuation + DataLine(payload);
      assert CurlLines(verb, url, headers, payload) == all;
    } else {
      assert CurlLines(verb, url, headers, payload) == lines;
    }
  }

  /** `make_curl_command`: the command for the signed request, or None when
      signing raises. */
  method MakeCurlCommand(verb: string, url: string, data: Data, credentials: Option<Credentials>,
                         t: DateTime, env: Env) returns (curlCmd: Option<string>)
    ensures var s := SignAwsRequest(verb, url, data, credentials, t, env);
      curlCmd == if s.Err? then None else Some(Join(CurlLines(verb, url, s.value.headers, s.value.payload), Continuation))
  {
    var signed := SignAwsRequest(verb, url, data, credentials, t, env);
    if signed.Err? {
      return None;
    }
    var cmd := BuildCurlCommand(verb, url, signed.value.headers, signed.value.payload);
    curlCmd := Some(cmd);
  }
}
