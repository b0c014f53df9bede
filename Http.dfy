/**
 * HTTP/1.0 response framing as the balancer writes it: a status line
 * `HTTP/1.0 <code> <reason>`, zero or more `Name: value` header lines, a blank
 * line and the body, every line ended by CR LF. `Serialize` produces those bytes
 * and `Parse` reads them back; `ParseSerialize` proves the two agree, which is
 * what makes the canned responses built in module Actions say what they mean.
 */
module Http {
  import opened Wrappers

  datatype Header = Header(name: string, value: string)

  datatype Response = Response(code: nat, reason: string, headers: seq<Header>, body: string)

  const CRLF: string := "\r\n"
  const StatusPrefix: string := "HTTP/1.0 "

  /**
   * Reason phrases of section 10 of RFC 2616, the table the status line is
   * built from. The table is split into slices by code range only so that
   * each `match` stays small enough for the verifier; the slices together
   * are one table.
   */
  function ReasonPhrase(code: nat): (r: Option<string>)
    ensures r.Some? ==> |r.value| > 0 && '\r' !in r.value
  {
    if code < 200 then InformationalPhrase(code)
    else if code < 300 then SuccessPhrase(code)
    else if code < 400 then RedirectionPhrase(code)
    else if code < 406 then ClientError400Phrase(code)
    else if code < 411 then ClientError406Phrase(code)
    else if code < 415 then ClientError411Phrase(code)
    else if code < 500 then ClientError415Phrase(code)
    else if code < 503 then ServerError500Phrase(code)
    else ServerError503Phrase(code)
  }

  function InformationalPhrase(code: nat): (r: Option<string>)
    ensures r.Some? ==> |r.value| > 0 && '\r' !in r.value
  {
    match code
    case 100 => Some("Continue")
    case 101 => Some("Switching Protocols")
    case _ => None
  }

  function SuccessPhrase(code: nat): (r: Option<string>)
    ensures r.Some? ==> |r.value| > 0 && '\r' !in r.value
  {
    match code
    case 200 => Some("OK")
    case 201 => Some("Created")
    case 202 => Some("Accepted")
    case 203 => Some("Non-Authoritative Information")
    case 204 => Some("No Content")
    case 205 => Some("Reset Content")
    case 206 => Some("Partial Content")
    case _ => None
  }

  function RedirectionPhrase(code: nat): (r: Option<string>)
    ensures r.Some? ==> |r.value| > 0 && '\r' !in r.value
  {
    match code
    case 300 => Some("Multiple Choices")
    case 301 => Some("Moved Permanently")
    case 302 => Some("Found")
    case 303 => Some("See Other")
    case 304 => Some("Not Modified")
    case 305 => Some("Use Proxy")
    case 307 => Some("Temporary Redirect")
    case _ => None
  }

  function ClientError400Phrase(code: nat): (r: Option<string>)
    ensures r.Some? ==> |r.value| > 0 && '\r' !in r.value
  {
    match code
    case 400 => Some("Bad Request")
    case 401 => Some("Unauthorized")
    case 402 => Some("Payment Required")
    case 403 => Some("Forbidden")
    case 404 => Some("Not Found")
    case 405 => Some("Method Not Allowed")
    case _ => None
  }

  function ClientError406Phrase(code: nat): (r: Option<string>)
    ensures r.Some? ==> |r.value| > 0 && '\r' !in r.value
  {
    match code
    case 406 => Some("Not Acceptable")
    case 407 => Some("Proxy Authentication Required")
    case 408 => Some("Request Timeout")
    case 409 => Some("Conflict")
    case 410 => Some("Gone")
    case _ => None
  }

  function ClientError411Phrase(code: nat): (r: Option<string>)
    ensures r.Some? ==> |r.value| > 0 && '\r' !in r.value
  {
    match code
    case 411 => Some("Length Required")
    case 412 => Some("Precondition Failed")
    case 413 => Some("Request Entity Too Large")
    case 414 => Some("Request-URI Too Long")
    case _ => None
  }

  function ClientError415Phrase(code: nat): (r: Option<string>)
    ensures r.Some? ==> |r.value| > 0 && '\r' !in r.value
  {
    match code
    case 415 => Some("Unsupported Media Type")
    case 416 => Some("Requested Range Not Satisfiable")
    case 417 => Some("Expectation Failed")
    case _ => None
  }

  function ServerError500Phrase(code: nat): (r: Option<string>)
    ensures r.Some? ==> |r.value| > 0 && '\r' !in r.value
  {
    match code
    case 500 => Some("Internal Server Error")
    case 501 => Some("Not Implemented")
    case 502 => Some("Bad Gateway")
    case _ => None
  }

  function ServerError503Phrase(code: nat): (r: Option<string>)
    ensures r.Some? ==> |r.value| > 0 && '\r' !in r.value
  {
    match code
    case 503 => Some("Service Unavailable")
    case 504 => Some("Gateway Timeout")
    case 505 => Some("HTTP Version Not Supported")
    case _ => None
  }

  // ---------------------------------------------------------------------------
  // Decimal digits of a status code

  predicate IsDigit(c: char) { '0' <= c <= '9' }

  predicate AllDigits(s: string) { forall i :: 0 <= i < |s| ==> IsDigit(s[i]) }

  function DigitChar(d: nat): (c: char)
    requires d < 10
    ensures IsDigit(c) && c as int - '0' as int == d
  {
    ('0' as int + d) as char
  }

  /** The shortest decimal spelling of `n`. */
  function Digits(n: nat): (s: string)
    ensures |s| > 0 && AllDigits(s)
    decreases n
  {
    if n < 10 then [DigitChar(n)] else Digits(n / 10) + [DigitChar(n % 10)]
  }

  /** The number a string of decimal digits spells. */
  function DigitsValue(s: string): nat
    requires AllDigits(s)
  {
    if s == [] then 0 else DigitsValue(s[..|s| - 1]) * 10 + (s[|s| - 1] as int - '0' as int)
  }

  lemma {:induction false} DigitsValueOfDigits(n: nat)
    ensures DigitsValue(Digits(n)) == n
  {
    var s := Digits(n);
    if n < 10 {
      assert s[..|s| - 1] == [];
    } else {
      assert s[..|s| - 1] == Digits(n / 10);
      DigitsValueOfDigits(n / 10);
    }
  }

  // ---------------------------------------------------------------------------
  // Scanning

  /** The first position of `c` in `s`, if any. */
  function IndexOf(s: string, c: char): (r: Option<nat>)
    ensures r.Some? ==> r.value < |s| && s[r.value] == c && c !in s[..r.value]
    ensures r.None? ==> c !in s
  {
    if s == [] then None
    else if s[0] == c then Some(0)
    else match IndexOf(s[1..], c)
      case None => None
      case Some(i) => assert s[..i + 1] == [s[0]] + s[1..][..i]; Some(i + 1)
  }

  lemma IndexOfAfter(a: string, c: char, b: string)
    requires c !in a
    ensures IndexOf(a + [c] + b, c) == Some(|a|)
  {
    var s := a + [c] + b;
    assert s[|a|] == c;
    assert s[..|a|] == a;
  }

  /** Splits `s` at its first CR LF into the line before it and the rest after it. */
  function SplitLine(s: string): (r: Option<(string, string)>)
    ensures r.Some? ==> s == r.value.0 + CRLF + r.value.1
    decreases |s|
  {
    if |s| < 2 then None
    else if s[0] == '\r' && s[1] == '\n' then Some(([], s[2..]))
    else match SplitLine(s[1..])
      case None => None
      case Some((line, rest)) => Some(([s[0]] + line, rest))
  }

  lemma {:induction false} SplitLineAt(line: string, rest: string)
    requires '\r' !in line
    ensures SplitLine(line + CRLF + rest) == Some((line, rest))
  {
    var s := line + CRLF + rest;
    if line == [] {
      assert s == CRLF + rest;
      assert s[2..] == rest;
    } else {
      assert s[0] == line[0] && line[0] != '\r';
      assert s[1..] == line[1..] + CRLF + rest;
      SplitLineAt(line[1..], rest);
      assert [s[0]] + line[1..] == line;
    }
  }

  // ---------------------------------------------------------------------------
  // Writing and reading a response

  function StatusLine(code: nat, reason: string): string
  {
    StatusPrefix + Digits(code) + " " + reason
  }

  function HeaderLine(h: Header): string
  {
    h.name + ": " + h.value
  }

  /** One line per header, each ended by CRLF. */
  function HeaderLines(hs: seq<Header>): (s: string)
    ensures hs == [] <==> s == []
    ensures hs != [] ==> |s| >= 2 && s[|s| - 2..] == CRLF
  {
    if hs == [] then "" else HeaderLine(hs[0]) + CRLF + HeaderLines(hs[1..])
  }

  /**
   * The bytes of a response: they open with `HTTP/1.0 `, and the body follows
   * the blank line that ends the header section.
   */
  function Serialize(r: Response): (s: string)
    ensures |s| >= |StatusPrefix| && s[..|StatusPrefix|] == StatusPrefix
    ensures |s| >= |r.body| + 4 && s[|s| - |r.body| - 4..] == CRLF + CRLF + r.body
  {
    var head := StatusLine(r.code, r.reason) + CRLF + HeaderLines(r.headers);
    assert |head| >= 2 && head[|head| - 2..] == CRLF;
    var s := head + CRLF + r.body;
    assert s[|s| - |r.body| - 4..] == head[|head| - 2..] + CRLF + r.body;
    s
  }

  function ParseStatusLine(line: string): Option<(nat, string)>
  {
    if !(StatusPrefix <= line) then None
    else
      var rest := line[|StatusPrefix|..];
      match IndexOf(rest, ' ')
      case None => None
      case Some(i) =>
        if i == 0 || !AllDigits(rest[..i]) then None
        else Some((DigitsValue(rest[..i]), rest[i + 1..]))
  }

  function ParseHeaderLine(line: string): Option<Header>
  {
    match IndexOf(line, ':')
    case None => None
    case Some(i) =>
      if i == 0 || i + 1 >= |line| || line[i + 1] != ' ' then None
      else Some(Header(line[..i], line[i + 2..]))
  }

  /** Header lines up to the blank line; what follows the blank line is the body. */
  function ParseHeaders(s: string): Option<(seq<Header>, string)>
    decreases |s|
  {
    match SplitLine(s)
    case None => None
    case Some((line, rest)) =>
      if line == [] then Some(([], rest))
      else match ParseHeaderLine(line)
        case None => None
        case Some(h) =>
          match ParseHeaders(rest)
          case None => None
          case Some((hs, body)) => Some(([h] + hs, body))
  }

  function Parse(s: string): Option<Response>
  {
    match SplitLine(s)
    case None => None
    case Some((status, rest)) =>
      match ParseStatusLine(status)
      case None => None
      case Some((code, reason)) =>
        match ParseHeaders(rest)
        case None => None
        case Some((hs, body)) => Some(Response(code, reason, hs, body))
  }

  /** A header whose line can be told apart from the blank line and split back at its colon. */
  predicate WellFormedHeader(h: Header)
  {
    |h.name| > 0 && ':' !in h.name && '\r' !in h.name && '\r' !in h.value
  }

  /** A response whose framing is unambiguous: no CR inside a line, every header well formed. */
  predicate WellFormed(r: Response)
  {
    && '\r' !in r.reason
    && forall i :: 0 <= i < |r.headers| ==> WellFormedHeader(r.headers[i])
  }

  lemma StatusLineRoundTrip(code: nat, reason: string)
    requires '\r' !in reason
    ensures '\r' !in StatusLine(code, reason)
    ensures ParseStatusLine(StatusLine(code, reason)) == Some((code, reason))
  {
    var d := Digits(code);
    var line := StatusLine(code, reason);
    assert line == StatusPrefix + (d + [' '] + reason);
    var rest := line[|StatusPrefix|..];
    assert rest == d + [' '] + reason;
    assert ' ' !in d by {
      forall i | 0 <= i < |d| ensures d[i] != ' ' { assert IsDigit(d[i]); }
    }
    assert '\r' !in d by {
      forall i | 0 <= i < |d| ensures d[i] != '\r' { assert IsDigit(d[i]); }
    }
    IndexOfAfter(d, ' ', reason);
    assert rest[..|d|] == d;
    assert rest[|d| + 1..] == reason;
    DigitsValueOfDigits(code);
  }

  lemma HeaderLineRoundTrip(h: Header)
    requires WellFormedHeader(h)
    ensures HeaderLine(h) != [] && '\r' !in HeaderLine(h)
    ensures ParseHeaderLine(HeaderLine(h)) == Some(h)
  {
    var line := HeaderLine(h);
    assert line == h.name + [':'] + (" " + h.value);
    IndexOfAfter(h.name, ':', " " + h.value);
    assert line[..|h.name|] == h.name;
    assert line[|h.name| + 1] == ' ';
    assert line[|h.name| + 2..] == h.value;
  }

  lemma {:induction false} HeadersRoundTrip(hs: seq<Header>, body: string)
    requires forall i :: 0 <= i < |hs| ==> WellFormedHeader(hs[i])
    ensures ParseHeaders(HeaderLines(hs) + CRLF + body) == Some((hs, body))
  {
    if hs == [] {
      assert HeaderLines(hs) + CRLF + body == [] + CRLF + body;
      SplitLineAt([], body);
    } else {
      var line := HeaderLine(hs[0]);
      var rest := HeaderLines(hs[1..]) + CRLF + body;
      assert HeaderLines(hs) + CRLF + body == line + CRLF + rest;
      assert WellFormedHeader(hs[0]);
      HeaderLineRoundTrip(hs[0]);
      SplitLineAt(line, rest);
      HeadersRoundTrip(hs[1..], body);
      assert [hs[0]] + hs[1..] == hs;
    }
  }

  /** Every well-formed response reads back as itself. */
  lemma ParseSerialize(r: Response)
    requires WellFormed(r)
    ensures Parse(Serialize(r)) == Some(r)
  {
    var status := StatusLine(r.code, r.reason);
    var rest := HeaderLines(r.headers) + CRLF + r.body;
    assert Serialize(r) == status + CRLF + rest;
    StatusLineRoundTrip(r.code, r.reason);
    SplitLineAt(status, rest);
    HeadersRoundTrip(r.headers, r.body);
  }

  // ---------------------------------------------------------------------------
  // Status lines the actions are checked against

  /** The decimal spellings of the status codes the actions are checked with. */
  lemma StatusDigits()
    ensures Digits(500) == "500" && Digits(402) == "402" && Digits(302) == "302"
  {
    assert Digits(5) == "5" && Digits(50) == "50";
    assert Digits(4) == "4" && Digits(40) == "40";
    assert Digits(3) == "3" && Digits(30) == "30";
  }

  lemma StatusLine500()
    ensures StatusLine(500, "Internal Server Error") + "\r\n" == "HTTP/1.0 500 Internal Server Error\r\n"
  {
    StatusDigits();
    assert StatusLine(500, "Internal Server Error") == StatusPrefix + "500" + " " + "Internal Server Error";
    StatusText500();
  }

  // The literal comparisons alone, kept apart from the status-line proofs so
  // that the solver compares the long strings without the rest in scope.

  lemma StatusText500()
    ensures StatusPrefix + "500" + " " + "Internal Server Error" + "\r\n" == "HTTP/1.0 500 Internal Server Error\r\n"
  {
  }

  lemma StatusLine402()
    ensures StatusLine(402, "Payment Required") + "\r\n" == "HTTP/1.0 402 Payment Required\r\n"
  {
    StatusDigits();
    assert StatusLine(402, "Payment Required") == StatusPrefix + "402" + " " + "Payment Required";
    StatusText402();
  }

  lemma StatusText402()
    ensures StatusPrefix + "402" + " " + "Payment Required" + "\r\n" == "HTTP/1.0 402 Payment Required\r\n"
  {
  }
}
