/**
 * The Volcengine-style V4 request signer of `JimengClient` (src/index.ts):
 * query canonicalisation, the compact timestamp and its date stamp, the
 * credential scope, the chained signing key, and the assembly of the canonical
 * request, the string to sign and the `Authorization` header.
 *
 * SHA-256 and HMAC-SHA256 are not modelled: their hex digests are the
 * uninterpreted fields of `Crypto`, and the intermediate HMAC keys (buffers that
 * are only ever fed back into HMAC) are symbolic terms of type `Key`.
 */
module Signer {
  import opened Wrappers
  import opened Strings

  /** An HMAC key: the secret text itself, or the HMAC of a key over a message. */
  datatype Key = SecretKey(text: string) | Mac(key: Key, data: string)

  /** The digests the signer needs, as lowercase hex strings. */
  datatype Crypto = Crypto(sha256Hex: string -> string, hmacHex: (Key, string) -> string)

  /** The client's immutable credentials and addressing. */
  datatype Credentials = Credentials(
    accessKey: string,
    secretKey: string,
    endpoint: string,
    host: string,
    region: string,
    service: string)

  /** The five headers `signV4Request` returns. */
  datatype Headers = Headers(
    xDate: string,
    authorization: string,
    xContentSha256: string,
    contentType: string,
    host: string)

  datatype SignedRequest = SignedRequest(url: string, headers: Headers)

  const Algorithm: string := "HMAC-SHA256"
  const SignedHeaderNames: string := "content-type;host;x-content-sha256;x-date"
  const ContentType: string := "application/json"
  const Method: string := "POST"
  const CanonicalUri: string := "/"

  predicate IsDigit(c: char) {
    '0' <= c <= '9'
  }

  predicate AllDigits(s: string) {
    forall i :: 0 <= i < |s| ==> IsDigit(s[i])
  }

  /**
   * `toISOString().replace(/[:\-]|\.\d{3}/g, '')`: every ':' and '-' is removed,
   * and so is every '.' followed by three digits together with those digits.
   */
  function CompactTimestamp(iso: string): string
    decreases |iso|
  {
    if iso == [] then []
    else if iso[0] == ':' || iso[0] == '-' then CompactTimestamp(iso[1..])
    else if |iso| >= 4 && iso[0] == '.' && IsDigit(iso[1]) && IsDigit(iso[2]) && IsDigit(iso[3])
    then CompactTimestamp(iso[4..])
    else [iso[0]] + CompactTimestamp(iso[1..])
  }

  /** `currentDate.substring(0, 8)` */
  function DateStamp(compact: string): (r: string)
    ensures |compact| >= 8 ==> r == compact[..8]
    ensures |compact| < 8 ==> r == compact
  {
    JsSubstring(compact, 0, 8)
  }

  /** `region || this.region` */
  function UsedRegion(callRegion: Option<string>, clientRegion: string): string {
    OrDefault(callRegion, clientRegion)
  }

  /** The text of an ISO-8601 instant as `toISOString` writes it, for years 0 to 9999. */
  function IsoInstant(year: string, month: string, day: string, hour: string, minute: string,
                      second: string, millis: string): string
  {
    year + ("-" + (month + ("-" + (day + ("T" + (hour + (":" + (minute + (":" + (second
      + ("." + (millis + "Z"))))))))))))
  }

  lemma {:induction false} CompactKeeps(x: string, rest: string)
    requires AllDigits(x) || x == "T" || x == "Z"
    ensures CompactTimestamp(x + rest) == x + CompactTimestamp(rest)
    decreases |x|
  {
    if x != [] {
      var s := x + rest;
      assert s[0] == x[0] && s[1..] == x[1..] + rest;
      if x == "T" || x == "Z" {
        assert x[1..] == [];
        assert s[1..] == rest;
      } else {
        assert AllDigits(x[1..]);
        CompactKeeps(x[1..], rest);
        assert [x[0]] + x[1..] == x;
      }
    } else {
      assert x + rest == rest;
    }
  }

  lemma CompactDropsSeparator(sep: string, rest: string)
    requires sep == "-" || sep == ":"
    ensures CompactTimestamp(sep + rest) == CompactTimestamp(rest)
  {
    assert (sep + rest)[1..] == rest;
  }

  lemma CompactDropsMillis(millis: string, rest: string)
    requires |millis| == 3 && AllDigits(millis)
    ensures CompactTimestamp("." + (millis + rest)) == CompactTimestamp(rest)
  {
    var s := "." + (millis + rest);
    assert s[1] == millis[0] && s[2] == millis[1] && s[3] == millis[2];
    assert s[4..] == rest;
  }

  /**
   * For a timestamp as `toISOString` writes it, the compact form is
   * `YYYYMMDDTHHMMSSZ` and the date stamp is `YYYYMMDD`.
   */
  lemma IsoCompactForm(year: string, month: string, day: string, hour: string, minute: string,
                       second: string, millis: string)
    requires |year| == 4 && |month| == 2 && |day| == 2 && |hour| == 2 && |minute| == 2
    requires |second| == 2 && |millis| == 3
    requires AllDigits(year) && AllDigits(month) && AllDigits(day) && AllDigits(hour)
    requires AllDigits(minute) && AllDigits(second) && AllDigits(millis)
    ensures CompactTimestamp(IsoInstant(year, month, day, hour, minute, second, millis))
         == year + (month + (day + ("T" + (hour + (minute + (second + "Z"))))))
    ensures DateStamp(CompactTimestamp(IsoInstant(year, month, day, hour, minute, second, millis)))
         == year + month + day
  {
    var t1 := millis + "Z";
    var t2 := "." + t1;
    var t3 := second + t2;
    var t4 := ":" + t3;
    var t5 := minute + t4;
    var t6 := ":" + t5;
    var t7 := hour + t6;
    var t8 := "T" + t7;
    var t9 := day + t8;
    var t10 := "-" + t9;
    var t11 := month + t10;
    var t12 := "-" + t11;
    var iso := year + t12;
    assert iso == IsoInstant(year, month, day, hour, minute, second, millis);
    CompactKeeps("Z", "");
    assert "Z" + "" == "Z";
    CompactDropsMillis(millis, "Z");
    CompactKeeps(second, t2);
    CompactDropsSeparator(":", t3);
    CompactKeeps(minute, t4);
    CompactDropsSeparator(":", t5);
    CompactKeeps(hour, t6);
    CompactKeeps("T", t7);
    CompactKeeps(day, t8);
    CompactDropsSeparator("-", t9);
    CompactKeeps(month, t10);
    CompactDropsSeparator("-", t11);
    CompactKeeps(year, t12);
    var r := "T" + (hour + (minute + (second + "Z")));
    assert CompactTimestamp(iso) == year + (month + (day + r));
    var c := year + (month + (day + r));
    assert c[..8] == year + month + day by {
      assert c[..8] == c[..4] + c[4..6] + c[6..8];
      assert c[..4] == year && c[4..6] == month && c[6..8] == day;
    }
  }

  /** The query-string pieces `key=value`, one per key, in ascending key order. */
  function QueryPairs(parameters: map<string, string>): (r: seq<string>)
    ensures |r| == |parameters|
    ensures forall i :: 0 <= i < |r| ==>
      r[i] == SortedKeys(parameters.Keys)[i] + "=" + parameters[SortedKeys(parameters.Keys)[i]]
  {
    var keys := SortedKeys(parameters.Keys);
    seq(|keys|, i requires 0 <= i < |keys| => keys[i] + "=" + parameters[keys[i]])
  }

  /**
   * `formatQuery`: the sorted `key=value` pieces joined by '&'. It is empty
   * exactly when there are no parameters, since every piece holds a '='.
   */
  function FormatQuery(parameters: map<string, string>): (r: string)
    ensures r == "" <==> parameters == map[]
  {
    var pairs := QueryPairs(parameters);
    JoinOfNonEmptyPieces(pairs, '&');
    JoinWith(pairs, '&')
  }

  lemma {:induction false} JoinOfNonEmptyPieces(parts: seq<string>, c: char)
    requires forall i :: 0 <= i < |parts| ==> parts[i] != ""
    ensures JoinWith(parts, c) == "" <==> |parts| == 0
  {
    if |parts| >= 2 {
      assert JoinWith(parts, c) == parts[0] + [c] + JoinWith(parts[1..], c);
    }
  }

  /**
   * When no key or value contains '&', splitting the query on '&' gives back
   * exactly one `key=value` piece per parameter, keys strictly ascending.
   */
  lemma FormatQueryPieces(parameters: map<string, string>)
    requires parameters != map[]
    requires forall k :: k in parameters ==> '&' !in k && '&' !in parameters[k]
    ensures SplitOn(FormatQuery(parameters), '&') == QueryPairs(parameters)
  {
    var pairs := QueryPairs(parameters);
    var keys := SortedKeys(parameters.Keys);
    forall i | 0 <= i < |pairs| ensures '&' !in pairs[i] {
      assert keys[i] in parameters;
      assert pairs[i] == keys[i] + "=" + parameters[keys[i]];
    }
    SplitJoin(pairs, '&');
  }

  /** Two keys come out in their order. */
  lemma SortedPair(a: string, b: string)
    requires !LexLessEq(b, a)
    ensures SortedKeys({a, b}) == [a, b]
  {
    var r := SortedKeys({a, b});
    assert a != b;
    assert |r| == 2 && r[0] != r[1] && LexLessEq(r[0], r[1]);
    assert r[0] in {a, b} && r[1] in {a, b};
  }

  /** The pieces of a two-parameter query, in key order. */
  lemma PairPieces(a: string, va: string, b: string, vb: string)
    requires !LexLessEq(b, a)
    ensures QueryPairs(map[a := va, b := vb]) == [a + "=" + va, b + "=" + vb]
  {
    var q := map[a := va, b := vb];
    assert a != b;
    assert q.Keys == {a, b};
    SortedPair(a, b);
    var pairs := QueryPairs(q);
    assert pairs[0] == a + "=" + va && pairs[1] == b + "=" + vb;
  }

  /** A query of two parameters lists them in key order, joined by one '&'. */
  lemma FormatPair(a: string, va: string, b: string, vb: string)
    requires !LexLessEq(b, a)
    ensures FormatQuery(map[a := va, b := vb]) == a + "=" + va + "&" + b + "=" + vb
  {
    PairPieces(a, va, b, vb);
    JoinTwo(a + "=" + va, b + "=" + vb, '&');
  }

  lemma JoinTwo(x: string, y: string, c: char)
    ensures JoinWith([x, y], c) == x + [c] + y
  {
    assert [x, y][1..] == [y];
  }

  /** The two-parameter query every endpoint of the client uses. */
  lemma ActionVersionQuery(action: string, version: string)
    ensures FormatQuery(map["Action" := action, "Version" := version])
         == "Action" + "=" + action + "&" + "Version" + "=" + version
  {
    assert !LexLessEq("Version", "Action");
    FormatPair("Action", action, "Version", version);
  }

  /** The messages an HMAC key was chained over, innermost first. */
  function Chain(k: Key): seq<string> {
    match k
    case SecretKey(_) => []
    case Mac(inner, data) => Chain(inner) + [data]
  }

  /** The secret text at the root of a key chain. */
  function Root(k: Key): string {
    match k
    case SecretKey(text) => text
    case Mac(inner, _) => Root(inner)
  }

  /** `getSignatureKey`: HMAC chained from the secret over date, region, service and "request", in that order. */
  function GetSignatureKey(key: string, dateStamp: string, regionName: string, serviceName: string): (r: Key)
    ensures Root(r) == key
    ensures Chain(r) == [dateStamp, regionName, serviceName, "request"]
  {
    var kDate := Mac(SecretKey(key), dateStamp);
    var kRegion := Mac(kDate, regionName);
    var kService := Mac(kRegion, serviceName);
    assert Chain(kDate) == [] + [dateStamp] && Chain(kRegion) == Chain(kDate) + [regionName];
    assert Chain(kService) == Chain(kRegion) + [serviceName];
    assert Root(kDate) == key;
    assert Root(kRegion) == Root(kDate);
    assert Root(kService) == Root(kRegion);
    Mac(kService, "request")
  }

  /** The four header lines of the canonical request, in their fixed order. */
  function HeaderLines(host: string, payloadHash: string, timestamp: string): seq<string> {
    ["content-type:" + ContentType, "host:" + host, "x-content-sha256:" + payloadHash,
     "x-date:" + timestamp]
  }

  /** `canonicalHeaders`: the header lines joined by '\n', with a final '\n'. */
  function CanonicalHeaders(host: string, payloadHash: string, timestamp: string): string {
    JoinWith(HeaderLines(host, payloadHash, timestamp), '\n') + "\n"
  }

  /** `canonicalRequest`: method, path, query, header block, signed-header list, payload hash, joined by '\n'. */
  function CanonicalRequest(query: string, canonicalHeaders: string, payloadHash: string): string {
    JoinWith([Method, CanonicalUri, query, canonicalHeaders, SignedHeaderNames, payloadHash], '\n')
  }

  /** `credentialScope` */
  function CredentialScope(dateStamp: string, region: string, service: string): string {
    dateStamp + "/" + region + "/" + service + "/request"
  }

  /** `stringToSign`: algorithm, timestamp, scope and the hash of the canonical request, joined by '\n'. */
  function StringToSign(timestamp: string, scope: string, canonicalHash: string): string {
    JoinWith([Algorithm, timestamp, scope, canonicalHash], '\n')
  }

  /** `authorizationHeader` */
  function Authorization(accessKey: string, scope: string, signature: string): string {
    Algorithm + " Credential=" + accessKey + "/" + scope + ", SignedHeaders=" + SignedHeaderNames
    + ", Signature=" + signature
  }

  /**
   * `signV4Request` with the current time passed in as the `toISOString` text.
   * The returned `X-Date` and `X-Content-Sha256` headers are the very values the
   * canonical request and the string to sign were built from, and the
   * signature is the HMAC under the chained key for the call's region.
   */
  function SignV4(cred: Credentials, crypto: Crypto, query: string, body: string,
                  region: Option<string>, isoNow: string): (r: SignedRequest)
    ensures r.url == cred.endpoint + "?" + query
    ensures r.headers.xDate == CompactTimestamp(isoNow)
    ensures r.headers.xContentSha256 == crypto.sha256Hex(body)
    ensures r.headers.contentType == ContentType && r.headers.host == cred.host
    ensures
      var scope := CredentialScope(DateStamp(r.headers.xDate), UsedRegion(region, cred.region), cred.service);
      var canonical := CanonicalRequest(query,
        CanonicalHeaders(r.headers.host, r.headers.xContentSha256, r.headers.xDate), r.headers.xContentSha256);
      var key := GetSignatureKey(cred.secretKey, DateStamp(r.headers.xDate), UsedRegion(region, cred.region), cred.service);
      r.headers.authorization == Authorization(cred.accessKey, scope,
        crypto.hmacHex(key, StringToSign(r.headers.xDate, scope, crypto.sha256Hex(canonical))))
  {
    var currentDate := CompactTimestamp(isoNow);
    var datestamp := DateStamp(currentDate);
    var usedRegion := UsedRegion(region, cred.region);
    var payloadHash := crypto.sha256Hex(body);
    var canonical := CanonicalRequest(query, CanonicalHeaders(cred.host, payloadHash, currentDate), payloadHash);
    var scope := CredentialScope(datestamp, usedRegion, cred.service);
    var toSign := StringToSign(currentDate, scope, crypto.sha256Hex(canonical));
    var signingKey := GetSignatureKey(cred.secretKey, datestamp, usedRegion, cred.service);
    var signature := crypto.hmacHex(signingKey, toSign);
    SignedRequest(cred.endpoint + "?" + query,
      Headers(currentDate, Authorization(cred.accessKey, scope, signature), payloadHash, ContentType, cred.host))
  }

  lemma {:induction false} JoinAppend(a: seq<string>, b: seq<string>, c: char)
    requires |a| >= 1 && |b| >= 1
    ensures JoinWith(a + b, c) == JoinWith(a, c) + [c] + JoinWith(b, c)
    decreases |a|
  {
    if |a| == 1 {
      assert (a + b)[1..] == b;
      assert (a + b)[0] == a[0];
    } else {
      JoinAppend(a[1..], b, c);
      assert (a + b)[1..] == a[1..] + b;
      assert (a + b)[0] == a[0];
    }
  }

  /**
   * With no '\n' inside the query, the host, the payload hash or the
   * timestamp, the canonical request consists of exactly these ten lines: the
   * method, the path, the query, the four header lines, the empty line that
   * ends the header block, the signed-header list and the payload hash.
   */
  lemma CanonicalRequestLines(query: string, host: string, payloadHash: string, timestamp: string)
    requires '\n' !in query && '\n' !in host && '\n' !in payloadHash && '\n' !in timestamp
    ensures SplitOn(CanonicalRequest(query, CanonicalHeaders(host, payloadHash, timestamp), payloadHash), '\n')
         == [Method, CanonicalUri, query] + HeaderLines(host, payloadHash, timestamp) + [""]
            + [SignedHeaderNames, payloadHash]
  {
    var a := [Method, CanonicalUri, query];
    var h := HeaderLines(host, payloadHash, timestamp);
    var b := [SignedHeaderNames, payloadHash];
    var block := CanonicalHeaders(host, payloadHash, timestamp);
    JoinAppend(h, [""], '\n');
    assert JoinWith(h + [""], '\n') == block;
    JoinAppend(h + [""], b, '\n');
    JoinAppend([block], b, '\n');
    assert JoinWith([block] + b, '\n') == JoinWith(h + [""] + b, '\n');
    JoinAppend(a, [block] + b, '\n');
    JoinAppend(a, h + [""] + b, '\n');
    assert a + ([block] + b) == [Method, CanonicalUri, query, block, SignedHeaderNames, payloadHash];
    assert a + (h + [""] + b) == a + h + [""] + b;
    var lines := a + h + [""] + b;
    forall i | 0 <= i < |lines| ensures '\n' !in lines[i] {
      if 3 <= i < 7 {
        assert lines[i] == h[i - 3];
      }
    }
    SplitJoin(lines, '\n');
  }

  /** With no '\n' in its parts, the string to sign has exactly these four lines. */
  lemma StringToSignLines(timestamp: string, scope: string, canonicalHash: string)
    requires '\n' !in timestamp && '\n' !in scope && '\n' !in canonicalHash
    ensures SplitOn(StringToSign(timestamp, scope, canonicalHash), '\n')
         == [Algorithm, timestamp, scope, canonicalHash]
  {
    SplitJoin([Algorithm, timestamp, scope, canonicalHash], '\n');
  }

  /** With no '/' in its parts, the credential scope is date, region, service and "request", in that order. */
  lemma CredentialScopeParts(dateStamp: string, region: string, service: string)
    requires '/' !in dateStamp && '/' !in region && '/' !in service
    ensures SplitOn(CredentialScope(dateStamp, region, service), '/')
         == [dateStamp, region, service, "request"]
  {
    var parts := [dateStamp, region, service, "request"];
    assert JoinWith(parts[3..], '/') == "request";
    assert JoinWith(parts[2..], '/') == service + "/request";
    assert JoinWith(parts[1..], '/') == region + "/" + service + "/request";
    assert JoinWith(parts, '/') == CredentialScope(dateStamp, region, service);
    SplitJoin(parts, '/');
  }
}
