/**
 * The Tervezo HTTP client, apart from the network: percent-encoding of a
 * query value (RFC 3986, sections 2.1 and 2.3), the URLs of its requests,
 * the status codes each verb accepts and the error texts it produces, and
 * the lenient decoding of list responses. A response arrives as a value;
 * sending the request and decoding JSON are not modelled.
 */
module TervezoApi {
  import opened Wrappers
  import opened Text
  import Utf8
  import opened TervezoModels

  // ---------------------------------------------------------------------------
  // Percent-encoding
  // ---------------------------------------------------------------------------

  /** The unreserved bytes of RFC 3986 section 2.3: ASCII letters, digits, '-', '_', '.', '~'. */
  predicate IsUnreserved(b: byte) {
    || 'A' as int <= b <= 'Z' as int
    || 'a' as int <= b <= 'z' as int
    || '0' as int <= b <= '9' as int
    || b == '-' as int || b == '_' as int || b == '.' as int || b == '~' as int
  }

  /** An upper-case hexadecimal digit. */
  function HexDigit(d: nat): (c: char)
    requires d < 16
    ensures IsUpperHex(c)
  {
    if d < 10 then ('0' as int + d) as char else ('A' as int + d - 10) as char
  }

  predicate IsUpperHex(c: char) {
    '0' <= c <= '9' || 'A' <= c <= 'F'
  }

  /** The value of a hexadecimal digit of either case. */
  function HexValue(c: char): Option<nat> {
    if '0' <= c <= '9' then Some(c as int - '0' as int)
    else if 'A' <= c <= 'F' then Some(c as int - 'A' as int + 10)
    else if 'a' <= c <= 'f' then Some(c as int - 'a' as int + 10)
    else None
  }

  lemma HexDigitValue(d: nat)
    requires d < 16
    ensures HexValue(HexDigit(d)) == Some(d)
  {
  }

  /** One byte as it appears in the URL: itself when unreserved, otherwise '%'
      followed by its two upper-case hexadecimal digits. */
  function EncodeByte(b: byte): (r: string)
    ensures IsUnreserved(b) ==> r == [b as char]
    ensures !IsUnreserved(b) ==> |r| == 3 && r[0] == '%'
  {
    if IsUnreserved(b) then [b as char] else ['%', HexDigit(b / 16), HexDigit(b % 16)]
  }

  /** How many bytes of `bs` must be escaped. */
  function ReservedCount(bs: seq<byte>): (n: nat)
    ensures n <= |bs|
  {
    if |bs| == 0 then 0 else (if IsUnreserved(bs[0]) then 0 else 1) + ReservedCount(bs[1..])
  }

  /** The encoding of a byte string, byte by byte. */
  function PercentEncoded(bs: seq<byte>): (r: string)
    ensures |r| == |bs| + 2 * ReservedCount(bs)
  {
    if |bs| == 0 then "" else EncodeByte(bs[0]) + PercentEncoded(bs[1..])
  }

  lemma {:induction false} PercentEncodedAppend(a: seq<byte>, b: seq<byte>)
    ensures PercentEncoded(a + b) == PercentEncoded(a) + PercentEncoded(b)
    decreases |a|
  {
    if |a| == 0 {
      assert a + b == b;
    } else {
      assert (a + b)[0] == a[0] && (a + b)[1..] == a[1..] + b;
      PercentEncodedAppend(a[1..], b);
    }
  }

  /** The characters an encoded URL component is made of. */
  predicate IsUrlChar(c: char) {
    (c as int < 256 && IsUnreserved(c as int)) || c == '%' || IsUpperHex(c)
  }

  /** The encoding uses only unreserved characters, '%' and upper-case hex digits. */
  lemma {:induction false} PercentEncodedAlphabet(bs: seq<byte>)
    ensures forall i :: 0 <= i < |PercentEncoded(bs)| ==> IsUrlChar(PercentEncoded(bs)[i])
    decreases |bs|
  {
    if |bs| > 0 {
      PercentEncodedAlphabet(bs[1..]);
      var head := EncodeByte(bs[0]);
      assert forall i :: 0 <= i < |head| ==> IsUrlChar(head[i]);
      assert forall i :: |head| <= i < |PercentEncoded(bs)| ==>
        PercentEncoded(bs)[i] == PercentEncoded(bs[1..])[i - |head|];
    }
  }

  /** Bytes shown as the characters with the same code. */
  function AsChars(bs: seq<byte>): (r: string)
    ensures |r| == |bs| && forall i :: 0 <= i < |bs| ==> r[i] as int == bs[i]
  {
    seq(|bs|, i requires 0 <= i < |bs| => bs[i] as char)
  }

  /** A byte string that needs no escaping is written as it is. */
  lemma {:induction false} PercentEncodedUnreserved(bs: seq<byte>)
    requires forall i :: 0 <= i < |bs| ==> IsUnreserved(bs[i])
    ensures PercentEncoded(bs) == AsChars(bs)
    decreases |bs|
  {
    if |bs| > 0 {
      PercentEncodedUnreserved(bs[1..]);
      assert AsChars(bs) == [bs[0] as char] + AsChars(bs[1..]);
    }
  }

  /** Reads an encoded component back into bytes: "%XY" with two hexadecimal
      digits is the byte 0xXY, and any other character below 256 is its own
      byte. Anything else is rejected. */
  function PercentDecode(s: string): (r: Option<seq<byte>>)
    ensures r.Some? ==> |r.value| <= |s|
    ensures r.Some? && '%' !in s ==> |r.value| == |s|
    decreases |s|
  {
    if |s| == 0 then Some([])
    else if s[0] == '%' then
      if |s| >= 3 && HexValue(s[1]).Some? && HexValue(s[2]).Some? then
        match PercentDecode(s[3..])
        case Some(rest) => Some([HexValue(s[1]).value * 16 + HexValue(s[2]).value] + rest)
        case None => None
      else None
    else if s[0] as int < 256 then
      match PercentDecode(s[1..])
      case Some(rest) => Some([s[0] as int] + rest)
      case None => None
    else None
  }

  /** Decoding an encoding gives back the bytes that were encoded. */
  lemma {:induction false} PercentRoundTrip(bs: seq<byte>)
    ensures PercentDecode(PercentEncoded(bs)) == Some(bs)
    decreases |bs|
  {
    if |bs| > 0 {
      PercentRoundTrip(bs[1..]);
      assert PercentEncoded(bs) == EncodeByte(bs[0]) + PercentEncoded(bs[1..]);
      DecodeAfterByte(bs[0], PercentEncoded(bs[1..]), bs[1..]);
      assert [bs[0]] + bs[1..] == bs;
    }
  }

  /** One encoded byte in front of an encoding that decodes is read back
      in front of its bytes. */
  lemma DecodeAfterByte(b: byte, t: string, rest: seq<byte>)
    requires PercentDecode(t) == Some(rest)
    ensures PercentDecode(EncodeByte(b) + t) == Some([b] + rest)
  {
    var e := EncodeByte(b) + t;
    if IsUnreserved(b) {
      assert e[0] == b as char && e[1..] == t;
    } else {
      HexDigitValue(b / 16);
      HexDigitValue(b % 16);
      assert e[0] == '%' && e[1] == HexDigit(b / 16) && e[2] == HexDigit(b % 16);
      assert e[3..] == t;
    }
  }

  /** `simple_percent_encode`: the UTF-8 bytes of `input`, each written as
      `EncodeByte` writes it. */
  method SimplePercentEncode(input: string) returns (encoded: string)
    ensures encoded == PercentEncoded(Utf8.Encode(input))
    ensures PercentDecode(encoded).Some? && Utf8.Decode(PercentDecode(encoded).value) == Some(input)
  {
    EncodedStringDecodes(input);
    encoded := EncodeBytes(Utf8.Encode(input));
  }

  /** The loop of `simple_percent_encode` over the bytes of its input. */
  method EncodeBytes(bytes: seq<byte>) returns (encoded: string)
    ensures encoded == PercentEncoded(bytes)
  {
    encoded := "";
    var i := 0;
    while i < |bytes|
      invariant 0 <= i <= |bytes|
      invariant encoded == PercentEncoded(bytes[..i])
    {
      var b := bytes[i];
      ghost var before := encoded;
      if IsUnreserved(b) {
        encoded := encoded + [b as char];
      } else {
        encoded := encoded + ['%', HexDigit(b / 16), HexDigit(b % 16)];
      }
      assert encoded == before + EncodeByte(b);
      PercentEncodedSnoc(bytes[..i], b);
      assert bytes[..i + 1] == bytes[..i] + [b];
      i := i + 1;
    }
    assert bytes[..i] == bytes;
  }

  lemma PercentEncodedSnoc(bs: seq<byte>, b: byte)
    ensures PercentEncoded(bs + [b]) == PercentEncoded(bs) + EncodeByte(b)
  {
    PercentEncodedAppend(bs, [b]);
    assert [b][1..] == [];
  }

  /** The encoding of a string decodes back to its UTF-8 bytes, and those to the string. */
  lemma EncodedStringDecodes(input: string)
    ensures PercentDecode(PercentEncoded(Utf8.Encode(input))) == Some(Utf8.Encode(input))
    ensures Utf8.Decode(Utf8.Encode(input)) == Some(input)
  {
    PercentRoundTrip(Utf8.Encode(input));
    Utf8.DecodeEncode(input);
  }

  /** An ASCII string is its own UTF-8 encoding. */
  lemma {:induction false} AsciiEncoding(s: string)
    requires forall i :: 0 <= i < |s| ==> s[i] as int < 0x80
    ensures |Utf8.Encode(s)| == |s|
    ensures forall i :: 0 <= i < |s| ==> Utf8.Encode(s)[i] == s[i] as int
    decreases |s|
  {
    if |s| > 0 {
      AsciiEncoding(s[1..]);
      assert Utf8.Encode(s) == [s[0] as int] + Utf8.Encode(s[1..]);
    }
  }

  /** A status filter made only of unreserved characters goes into the URL
      unchanged. */
  lemma UnreservedStringUnchanged(s: string)
    requires forall i :: 0 <= i < |s| ==> s[i] as int < 0x80 && IsUnreserved(s[i] as int)
    ensures PercentEncoded(Utf8.Encode(s)) == s
  {
    AsciiEncoding(s);
    var bs := Utf8.Encode(s);
    PercentEncodedUnreserved(bs);
    assert AsChars(bs) == s;
  }

  /** A space and a slash are escaped, letters are kept. */
  lemma EncodeExample()
    ensures PercentEncoded([0x61, 0x20, 0x2F]) == "a%20%2F"
  {
    assert [0x61, 0x20, 0x2F][1..] == [0x20, 0x2F];
    assert [0x20, 0x2F][1..] == [0x2F];
  }

  // ---------------------------------------------------------------------------
  // Request URLs
  // ---------------------------------------------------------------------------

  datatype TervezoConfig = TervezoConfig(baseUrl: string, apiKey: string)

  datatype Client = Client(baseUrl: string, apiKey: string)

  /** The client keeps the configured base URL without its trailing slashes. */
  function NewClient(config: TervezoConfig): (c: Client)
    ensures c.apiKey == config.apiKey && |c.baseUrl| <= |config.baseUrl|
    ensures config.baseUrl == c.baseUrl + config.baseUrl[|c.baseUrl|..]
    ensures forall i :: |c.baseUrl| <= i < |config.baseUrl| ==> config.baseUrl[i] == '/'
    ensures |c.baseUrl| > 0 ==> c.baseUrl[|c.baseUrl| - 1] != '/'
  {
    var base := TrimEnd(config.baseUrl, '/');
    assert config.baseUrl == base + config.baseUrl[|base|..];
    Client(base, config.apiKey)
  }

  /** Trimming the trailing slashes again changes nothing. */
  lemma NewClientIdempotent(config: TervezoConfig)
    ensures NewClient(TervezoConfig(NewClient(config).baseUrl, config.apiKey)) == NewClient(config)
  {
    var b := NewClient(config).baseUrl;
    assert TrimEnd(b, '/') == b;
  }

  /** `list_implementations`' URL: the collection, with "?status=" and the
      encoded filter when one is given. */
  method ListUrl(client: Client, statusFilter: Option<string>) returns (url: string)
    ensures statusFilter.None? ==> url == client.baseUrl + "/implementations"
    ensures statusFilter.Some? ==>
      url == client.baseUrl + "/implementations?status=" + PercentEncoded(Utf8.Encode(statusFilter.value))
    ensures statusFilter.Some? ==>
      var query := url[|client.baseUrl + "/implementations?status="|..];
      PercentDecode(query).Some? && Utf8.Decode(PercentDecode(query).value) == statusFilter
  {
    url := client.baseUrl + "/implementations";
    if statusFilter.Some? {
      var encoded := SimplePercentEncode(statusFilter.value);
      var prefix := client.baseUrl + "/implementations?status=";
      assert url + "?status=" == prefix;
      url := prefix + encoded;
      assert url[|prefix|..] == encoded;
    }
  }

  /** The single-implementation requests, by the path after the implementation id. */
  datatype Operation =
    | GetImplementation | GetTimeline | GetPlan | GetAnalysis | GetChanges | GetTestOutput
    | GetSsh | GetSteps | GetStatus | GetPrDetails
    | CreatePr | MergePr | ClosePr | ReopenPr | Restart | SendPrompt

  datatype Verb = GET | POST

  function OperationVerb(op: Operation): Verb {
    match op
    case CreatePr | MergePr | ClosePr | ReopenPr | Restart | SendPrompt => POST
    case _ => GET
  }

  function OperationPath(op: Operation): string {
    match op
    case GetImplementation => ""
    case GetTimeline => "/timeline"
    case GetPlan => "/plan"
    case GetAnalysis => "/analysis"
    case GetChanges => "/changes"
    case GetTestOutput => "/test-output"
    case GetSsh => "/ssh"
    case GetSteps => "/steps"
    case GetStatus => "/status"
    case GetPrDetails => "/pr"
    case CreatePr => "/pr"
    case MergePr => "/pr/merge"
    case ClosePr => "/pr/close"
    case ReopenPr => "/pr/reopen"
    case Restart => "/restart"
    case SendPrompt => "/prompt"
  }

  /** The URL of a request about implementation `id`. */
  function OperationUrl(client: Client, id: string, op: Operation): (url: string)
    ensures StartsWith(url, client.baseUrl + "/implementations/" + id)
  {
    var prefix := client.baseUrl + "/implementations/" + id;
    assert (prefix + OperationPath(op))[..|prefix|] == prefix;
    prefix + OperationPath(op)
  }

  /** No two operations send the same request: the verb and the path tell
      them apart. */
  lemma OperationsDistinct(a: Operation, b: Operation)
    requires OperationVerb(a) == OperationVerb(b) && OperationPath(a) == OperationPath(b)
    ensures a == b
  {
  }

  /** Requests about one implementation differ from the collection request. */
  lemma OperationUrlNotList(client: Client, id: string, op: Operation)
    ensures OperationUrl(client, id, op) != client.baseUrl + "/implementations"
  {
    var list := client.baseUrl + "/implementations";
    assert |OperationUrl(client, id, op)| > |list|;
  }

  /** `get_timeline`'s URL: the cursor is appended after "?after=" as it is,
      without escaping. */
  method TimelineUrl(client: Client, id: string, afterCursor: Option<string>) returns (url: string)
    ensures afterCursor.None? ==> url == OperationUrl(client, id, GetTimeline)
    ensures afterCursor.Some? ==> url == OperationUrl(client, id, GetTimeline) + "?after=" + afterCursor.value
  {
    url := client.baseUrl + "/implementations/" + id + "/timeline";
    if afterCursor.Some? {
      url := url + "?after=" + afterCursor.value;
    }
  }

  // ---------------------------------------------------------------------------
  // Response status
  // ---------------------------------------------------------------------------

  /** A response that arrived: its status, and its body or the reason it
      could not be read. */
  datatype HttpResponse = HttpResponse(status: nat, body: Result<string, string>)

  predicate GetAccepts(status: nat) {
    status == 200
  }

  predicate PostAccepts(status: nat) {
    status == 200 || status == 201
  }

  /** The number of status codes the `http` crate registers a reason
      phrase for. */
  const RegisteredCount: nat := 60

  /** The `i`-th status code with a registered reason phrase, in ascending
      order (0, which no response carries, past the end). */
  function RegisteredCode(i: nat): nat {
    match i
    case 0 => 100
    case 1 => 101
    case 2 => 102
    case 3 => 200
    case 4 => 201
    case 5 => 202
    case 6 => 203
    case 7 => 204
    case 8 => 205
    case 9 => 206
    case 10 => 207
    case 11 => 208
    case 12 => 226
    case 13 => 300
    case 14 => 301
    case 15 => 302
    case 16 => 303
    case 17 => 304
    case 18 => 305
    case 19 => 307
    case 20 => 308
    case 21 => 400
    case 22 => 401
    case 23 => 402
    case 24 => 403
    case 25 => 404
    case 26 => 405
    case 27 => 406
    case 28 => 407
    case 29 => 408
    case 30 => 409
    case 31 => 410
    case 32 => 411
    case 33 => 412
    case 34 => 413
    case 35 => 414
    case 36 => 415
    case 37 => 416
    case 38 => 417
    case 39 => 418
    case 40 => 421
    case 41 => 422
    case 42 => 423
    case 43 => 424
    case 44 => 426
    case 45 => 428
    case 46 => 429
    case 47 => 431
    case 48 => 451
    case 49 => 500
    case 50 => 501
    case 51 => 502
    case 52 => 503
    case 53 => 504
    case 54 => 505
    case 55 => 506
    case 56 => 507
    case 57 => 508
    case 58 => 510
    case 59 => 511
    case _ => 0
  }

  /** The reason phrase registered for the `i`-th code. */
  function RegisteredPhrase(i: nat): string {
    match i
    case 0 => "Continue"
    case 1 => "Switching Protocols"
    case 2 => "Processing"
    case 3 => "OK"
    case 4 => "Created"
    case 5 => "Accepted"
    case 6 => "Non Authoritative Information"
    case 7 => "No Content"
    case 8 => "Reset Content"
    case 9 => "Partial Content"
    case 10 => "Multi-Status"
    case 11 => "Already Reported"
    case 12 => "IM Used"
    case 13 => "Multiple Choices"
    case 14 => "Moved Permanently"
    case 15 => "Found"
    case 16 => "See Other"
    case 17 => "Not Modified"
    case 18 => "Use Proxy"
    case 19 => "Temporary Redirect"
    case 20 => "Permanent Redirect"
    case 21 => "Bad Request"
    case 22 => "Unauthorized"
    case 23 => "Payment Required"
    case 24 => "Forbidden"
    case 25 => "Not Found"
    case 26 => "Method Not Allowed"
    case 27 => "Not Acceptable"
    case 28 => "Proxy Authentication Required"
    case 29 => "Request Timeout"
    case 30 => "Conflict"
    case 31 => "Gone"
    case 32 => "Length Required"
    case 33 => "Precondition Failed"
    case 34 => "Payload Too Large"
    case 35 => "URI Too Long"
    case 36 => "Unsupported Media Type"
    case 37 => "Range Not Satisfiable"
    case 38 => "Expectation Failed"
    case 39 => "I'm a teapot"
    case 40 => "Misdirected Request"
    case 41 => "Unprocessable Entity"
    case 42 => "Locked"
    case 43 => "Failed Dependency"
    case 44 => "Upgrade Required"
    case 45 => "Precondition Required"
    case 46 => "Too Many Requests"
    case 47 => "Request Header Fields Too Large"
    case 48 => "Unavailable For Legal Reasons"
    case 49 => "Internal Server Error"
    case 50 => "Not Implemented"
    case 51 => "Bad Gateway"
    case 52 => "Service Unavailable"
    case 53 => "Gateway Timeout"
    case 54 => "HTTP Version Not Supported"
    case 55 => "Variant Also Negotiates"
    case 56 => "Insufficient Storage"
    case 57 => "Loop Detected"
    case 58 => "Not Extended"
    case 59 => "Network Authentication Required"
    case _ => ""
  }

  /** The phrase of the first registered code from the `i`-th on that is
      `status`, if any. */
  function ReasonFrom(i: nat, status: nat): Option<string>
    decreases RegisteredCount - i
  {
    if i >= RegisteredCount then None
    else if RegisteredCode(i) == status then Some(RegisteredPhrase(i))
    else ReasonFrom(i + 1, status)
  }

  /** The reason phrase the `http` crate registers for a status code, if
      it registers one. */
  function CanonicalReason(status: nat): Option<string> {
    ReasonFrom(0, status)
  }

  /** The search from the `i`-th code finds a phrase for `status` exactly
      when one of the registered codes from there on is `status`. */
  lemma {:induction false} ReasonFromFinds(i: nat, status: nat)
    ensures ReasonFrom(i, status).Some? <==> exists k :: i <= k < RegisteredCount && RegisteredCode(k) == status
    decreases RegisteredCount - i
  {
    if i < RegisteredCount && RegisteredCode(i) != status {
      ReasonFromFinds(i + 1, status);
      if k :| i <= k < RegisteredCount && RegisteredCode(k) == status {
        assert k != i;
      }
    }
  }

  /** Codes other than `status` are passed over. */
  lemma {:induction false} ReasonFromSkips(i: nat, j: nat, status: nat)
    requires i <= j
    requires forall m :: i <= m < j ==> RegisteredCode(m) != status
    ensures ReasonFrom(i, status) == ReasonFrom(j, status)
    decreases j - i
  {
    if i < j && i < RegisteredCount {
      ReasonFromSkips(i + 1, j, status);
    }
  }

  /** The reason phrase a status code is printed with: the registered one,
      or "<unknown status code>" for a code with none. */
  function ReasonPhrase(status: nat): (r: string)
    ensures CanonicalReason(status).Some? ==> r == CanonicalReason(status).value
    ensures CanonicalReason(status).None? ==> r == "<unknown status code>"
  {
    match CanonicalReason(status)
    case Some(phrase) => phrase
    case None => "<unknown status code>"
  }

  /** "HTTP {status}: {body}", where the status prints as `http::StatusCode`
      does (its decimal digits, a space and its reason phrase), with a
      stand-in for a body that cannot be read. */
  function StatusError(resp: HttpResponse): (r: string)
    ensures StartsWith(r, "HTTP ")
    ensures var tail := if resp.body.Ok? then resp.body.value else "(unreadable body)";
      |tail| + 7 <= |r| && r[|r| - |tail| - 2..] == ": " + tail
  {
    var body := if resp.body.Ok? then resp.body.value else "(unreadable body)";
    "HTTP " + NatToString(resp.status) + " " + ReasonPhrase(resp.status) + ": " + body
  }

  /** 404 is registered as "Not Found". */
  lemma NotFoundPhrase()
    ensures ReasonPhrase(404) == "Not Found"
  {
    ReasonFromSkips(0, 25, 404);
  }

  /** 599 has no registered phrase. */
  lemma UnregisteredPhrase()
    ensures ReasonPhrase(599) == "<unknown status code>"
  {
    ReasonFromSkips(0, RegisteredCount, 599);
  }

  /** A 404 with body "nope" reads "HTTP 404 Not Found: nope". */
  lemma StatusErrorExample()
    ensures StatusError(HttpResponse(404, Ok("nope"))) == "HTTP 404 Not Found: nope"
  {
    var resp := HttpResponse(404, Ok("nope"));
    assert StatusError(resp) == "HTTP " + NatToString(404) + " " + ReasonPhrase(404) + ": nope";
    assert ReasonPhrase(404) == "Not Found" by { NotFoundPhrase(); }
    assert NatToString(404) == "404" by {
      assert NatToString(40) == "40" by { assert NatToString(4) == "4"; }
    }
  }

  /** The outcome of a request, given the transport's result. */
  function Outcome(accepts: nat -> bool, failurePrefix: string, sent: Result<HttpResponse, string>):
    (r: Result<string, string>)
    ensures r.Ok? <==> sent.Ok? && accepts(sent.value.status) && sent.value.body.Ok?
    ensures r.Ok? ==> r.value == sent.value.body.value
    ensures sent.Err? ==> r == Err(failurePrefix + sent.error)
    ensures sent.Ok? && !accepts(sent.value.status) ==> r == Err(StatusError(sent.value))
    ensures sent.Ok? && accepts(sent.value.status) && sent.value.body.Err? ==>
      r == Err("read body failed: " + sent.value.body.error)
  {
    match sent
    case Err(e) => Err(failurePrefix + e)
    case Ok(resp) =>
      if !accepts(resp.status) then Err(StatusError(resp))
      else match resp.body
        case Ok(text) => Ok(text)
        case Err(e) => Err("read body failed: " + e)
  }

  /** `get`: only 200 is a success. */
  function GetOutcome(sent: Result<HttpResponse, string>): Result<string, string> {
    Outcome(GetAccepts, "request failed: ", sent)
  }

  /** `post`: 200 and 201 are successes. */
  function PostOutcome(sent: Result<HttpResponse, string>): Result<string, string> {
    Outcome(PostAccepts, "POST request failed: ", sent)
  }

  /** Whatever a GET accepts a POST accepts with the same body; a 201 is
      accepted only by a POST. */
  lemma PostAcceptsMore(sent: Result<HttpResponse, string>)
    ensures GetOutcome(sent).Ok? ==> PostOutcome(sent) == GetOutcome(sent)
    ensures sent.Ok? && sent.value.status == 201 ==>
      GetOutcome(sent) == Err(StatusError(sent.value))
      && (sent.value.body.Ok? ==> PostOutcome(sent) == Ok(sent.value.body.value))
  {
  }

  /** The status code and its reason phrase can be read back from a status
      error: "HTTP ", the decimal digits (which read back as the status), a
      space, the reason phrase, then ": ". */
  lemma StatusErrorNamesStatus(resp: HttpResponse)
    ensures var msg, digits, reason := StatusError(resp), NatToString(resp.status), ReasonPhrase(resp.status);
      var end := 6 + |digits| + |reason|;
      && |msg| >= end + 2
      && msg[..5] == "HTTP "
      && AllDigits(msg[5..5 + |digits|])
      && ParseNat(msg[5..5 + |digits|]) == resp.status
      && msg[5 + |digits|] == ' '
      && msg[6 + |digits|..end] == reason
      && msg[end..end + 2] == ": "
  {
    var digits, reason := NatToString(resp.status), ReasonPhrase(resp.status);
    var body := if resp.body.Ok? then resp.body.value else "(unreadable body)";
    assert StatusError(resp) == "HTTP " + digits + " " + reason + ": " + body;
    StatusLineParts(digits, reason, body);
    NatToStringRoundTrip(resp.status);
  }

  /** Where the parts of "HTTP {digits} {reason}: {body}" sit. */
  lemma StatusLineParts(digits: string, reason: string, body: string)
    ensures var msg, end := "HTTP " + digits + " " + reason + ": " + body, 6 + |digits| + |reason|;
      && |msg| == end + 2 + |body|
      && msg[..5] == "HTTP " && msg[5..5 + |digits|] == digits && msg[5 + |digits|] == ' '
      && msg[6 + |digits|..end] == reason && msg[end..end + 2] == ": "
  {
    var msg := "HTTP " + digits + " " + reason + ": " + body;
    var end := 6 + |digits| + |reason|;
    assert msg[..end + 2] == "HTTP " + digits + " " + reason + ": ";
  }

  // ---------------------------------------------------------------------------
  // Lenient list decoding
  // ---------------------------------------------------------------------------

  /** The decoded entries of a list, in order. */
  function DecodedOnly<T>(raws: seq<Raw<T>>): (r: seq<T>)
    ensures |r| <= |raws|
  {
    if |raws| == 0 then []
    else (if raws[0].Decoded? then [raws[0].value] else []) + DecodedOnly(raws[1..])
  }

  function MalformedCount<T>(raws: seq<Raw<T>>): (n: nat)
    ensures n <= |raws|
  {
    if |raws| == 0 then 0 else (if raws[0].Malformed? then 1 else 0) + MalformedCount(raws[1..])
  }

  function NullCount<T>(raws: seq<Raw<T>>): nat {
    if |raws| == 0 then 0 else (if raws[0].Null? then 1 else 0) + NullCount(raws[1..])
  }

  /** Every entry is kept, skipped, or is a null. */
  lemma {:induction false} EntriesAccounted<T>(raws: seq<Raw<T>>)
    ensures |DecodedOnly(raws)| + MalformedCount(raws) + NullCount(raws) == |raws|
    decreases |raws|
  {
    if |raws| > 0 {
      EntriesAccounted(raws[1..]);
    }
  }

  lemma {:induction false} DecodedOnlyAppend<T>(a: seq<Raw<T>>, b: seq<Raw<T>>)
    ensures DecodedOnly(a + b) == DecodedOnly(a) + DecodedOnly(b)
    ensures MalformedCount(a + b) == MalformedCount(a) + MalformedCount(b)
    decreases |a|
  {
    if |a| == 0 {
      assert a + b == b;
    } else {
      assert (a + b)[0] == a[0] && (a + b)[1..] == a[1..] + b;
      DecodedOnlyAppend(a[1..], b);
    }
  }

  lemma DecodedOnlySingle<T>(x: Raw<T>)
    ensures DecodedOnly([x]) == (if x.Decoded? then [x.value] else [])
    ensures MalformedCount([x]) == (if x.Malformed? then 1 else 0)
  {
    assert [x][1..] == [];
  }

  /** `get_timeline`'s message loop: nulls are passed over, entries that do
      not decode are counted as skipped, and the rest are kept in order. */
  method TimelineMessages(raws: seq<Raw<TimelineMessage>>) returns (messages: seq<TimelineMessage>, skipped: nat)
    ensures messages == DecodedOnly(raws)
    ensures skipped == MalformedCount(raws)
  {
    messages, skipped := [], 0;
    var i := 0;
    while i < |raws|
      invariant 0 <= i <= |raws|
      invariant messages == DecodedOnly(raws[..i]) && skipped == MalformedCount(raws[..i])
    {
      var raw := raws[i];
      match raw {
        case Null =>
        case Decoded(msg) => messages := messages + [msg];
        case Malformed => skipped := skipped + 1;
      }
      DecodedOnlyAppend(raws[..i], [raw]);
      DecodedOnlySingle(raw);
      assert raws[..i + 1] == raws[..i] + [raw];
      i := i + 1;
    }
    assert raws[..i] == raws;
  }

  /** `get_changes`: the file changes present in the list, nulls dropped, in order. */
  function PresentChanges(files: seq<Option<FileChange>>): (r: seq<FileChange>)
    ensures |r| <= |files|
    ensures forall c :: c in r <==> Some(c) in files
  {
    if |files| == 0 then []
    else
      var rest := PresentChanges(files[1..]);
      assert forall c :: Some(c) in files <==> Some(c) == files[0] || Some(c) in files[1..] by {
        assert files == [files[0]] + files[1..];
      }
      (if files[0].Some? then [files[0].value] else []) + rest
  }

  /** Each change is kept as many times as the list holds it. */
  lemma {:induction false} PresentChangesCounts(files: seq<Option<FileChange>>)
    ensures forall c :: multiset(PresentChanges(files))[c] == multiset(files)[Some(c)]
    decreases |files|
  {
    if |files| > 0 {
      PresentChangesCounts(files[1..]);
      assert files == [files[0]] + files[1..];
      assert multiset(files) == multiset([files[0]]) + multiset(files[1..]);
    }
  }

  /** The present changes of two lists one after the other are those of the
      first followed by those of the second: with the one-element cases,
      this fixes their order. */
  lemma {:induction false} PresentChangesAppend(a: seq<Option<FileChange>>, b: seq<Option<FileChange>>)
    ensures PresentChanges(a + b) == PresentChanges(a) + PresentChanges(b)
    decreases |a|
  {
    if |a| == 0 {
      assert a + b == b;
    } else {
      var head: seq<FileChange> := if a[0].Some? then [a[0].value] else [];
      assert (a + b)[0] == a[0] && (a + b)[1..] == a[1..] + b;
      assert PresentChanges(a + b) == head + PresentChanges(a[1..] + b);
      assert PresentChanges(a) == head + PresentChanges(a[1..]);
      PresentChangesAppend(a[1..], b);
      assert head + (PresentChanges(a[1..]) + PresentChanges(b)) == (head + PresentChanges(a[1..])) + PresentChanges(b);
    }
  }

  lemma PresentChangesSingle(f: Option<FileChange>)
    ensures PresentChanges([f]) == if f.Some? then [f.value] else []
  {
    assert [f][1..] == [];
  }
}
