/**
 * The balancer's actions: what each one writes to the client connection.
 * An action is built per request from the routing entry of the requested host
 * and handled once; `Handle` writes its response through the socket write
 * policy of module Sockets. Spin waits for the routing of its host to settle,
 * re-resolving the host once per check interval until the answer is no longer
 * a Spin or no further interval fits before the timeout.
 */
module Actions {
  import opened Wrappers
  import opened Http
  import opened Sockets

  datatype Backend = Backend(host: string, port: nat)

  datatype Action =
    | Empty(code: nat)
    | Static(kind: string)
    | Unknown
    | NoHosts
    | Redirect(redirectTo: string)
    | Proxy(backends: seq<Backend>)
    | Spin(timeout: nat, checkInterval: nat)

  /** An action as its constructor admits it. */
  predicate Valid(a: Action)
  {
    match a
    case Empty(code) => ReasonPhrase(code).Some?
    case Proxy(backends) => |backends| > 0
    case Spin(_, checkInterval) => checkInterval > 0
    case _ => true
  }

  datatype ConfigError = NoBackends

  /** Building a Proxy: an empty backend list is refused. */
  function NewProxy(backends: seq<Backend>): (r: Result<Action, ConfigError>)
    ensures r.Success? <==> |backends| > 0
    ensures r.Success? ==> Valid(r.value) && r.value.Proxy? && r.value.backends == backends
  {
    if |backends| == 0 then Failure(NoBackends) else Success(Proxy(backends))
  }

  /**
   * What an action sees of the balancer: the canned response stored under
   * each asset name, and the successive answers the resolver gives when a
   * Spin re-resolves its host (the first answer at the first check, and so on).
   */
  datatype Balancer = Balancer(asset: string -> string, answers: seq<Action>)

  predicate ValidBalancer(b: Balancer)
  {
    forall i :: 0 <= i < |b.answers| ==> Valid(b.answers[i])
  }

  // ---------------------------------------------------------------------------
  // Empty and Redirect responses

  /** The Empty response: its code and reason, `Connection: close`, `Content-length: 0`, no body. */
  function EmptyResponse(code: nat): (r: Response)
    requires ReasonPhrase(code).Some?
    ensures WellFormed(r) && r.code == code && r.body == []
  {
    var r := Response(code, ReasonPhrase(code).value, [Header("Connection", "close"), Header("Content-length", "0")], []);
    assert WellFormedHeader(r.headers[0]) by {
      assert forall c :: c in "Connection" ==> c != ':' && c != '\r';
    }
    assert WellFormedHeader(r.headers[1]) by {
      assert forall c :: c in "Content-length" ==> c != ':' && c != '\r';
    }
    r
  }

  /** The redirect response: `302 Found` and the destination in `Location`, no body. */
  function RedirectResponse(url: string): (r: Response)
    ensures '\r' !in url <==> WellFormed(r)
    ensures r.code == 302 && r.body == []
  {
    var r := Response(302, "Found", [Header("Location", url)], []);
    assert '\r' !in r.reason && |r.headers[0].name| > 0;
    assert ':' !in r.headers[0].name && '\r' !in r.headers[0].name;
    r
  }

  const ForwardedProtocol: string := "X-Forwarded-Protocol"

  predicate HasScheme(url: string)
  {
    "http://" <= url || "https://" <= url
  }

  predicate ForwardedSsl(headers: map<string, string>)
  {
    ForwardedProtocol in headers && headers[ForwardedProtocol] == "SSL"
  }

  /**
   * The redirect destination: the target as given when it names its scheme,
   * otherwise the bare target under the scheme the client used, followed by
   * the request path.
   */
  function Location(target: string, path: string, headers: map<string, string>): (url: string)
    ensures HasScheme(url)
    ensures |url| >= |path| && url[|url| - |path|..] == path
    ensures HasScheme(target) ==> url == target + path
    ensures !HasScheme(target) ==> url == (if ForwardedSsl(headers) then "https://" else "http://") + target + path
    ensures !HasScheme(target) ==> ("https://" <= url <==> ForwardedSsl(headers))
    ensures !HasScheme(target) ==> |url| >= |target| + |path| && url[|url| - |path| - |target|..] == target + path
  {
    var prefix := if HasScheme(target) then target else if ForwardedSsl(headers) then "https://" + target else "http://" + target;
    var url := prefix + path;
    assert url[|url| - |path|..] == path;
    assert !HasScheme(target) ==> url[|url| - |path| - |target|..] == target + path;
    assert !HasScheme(target) && !ForwardedSsl(headers) ==> url[4] == ':';
    url
  }

  /**
   * An Empty response reads back as the status line for `code` with its
   * reason phrase, exactly the headers `Connection: close` and
   * `Content-length: 0`, and no body.
   */
  lemma EmptyReadsBack(code: nat)
    requires ReasonPhrase(code).Some?
    ensures var r := Parse(Serialize(EmptyResponse(code)));
      && r.Some? && r.value.code == code && r.value.reason == ReasonPhrase(code).value
      && r.value.headers == [Header("Connection", "close"), Header("Content-length", "0")]
      && r.value.body == []
  {
    ParseSerialize(EmptyResponse(code));
  }

  /**
   * A redirect reads back as `302 Found` with the single header `Location`
   * naming the computed destination, and no body.
   */
  lemma RedirectReadsBack(target: string, path: string, headers: map<string, string>)
    requires '\r' !in target && '\r' !in path
    ensures var r := Parse(Serialize(RedirectResponse(Location(target, path, headers))));
      && r.Some? && r.value.code == 302 && r.value.reason == "Found"
      && r.value.headers == [Header("Location", Location(target, path, headers))]
      && r.value.body == []
  {
    var url := Location(target, path, headers);
    assert '\r' !in "https://" && '\r' !in "http://";
    assert '\r' !in url;
    ParseSerialize(RedirectResponse(url));
  }

  /**
   * For every code, Empty writes the status line `HTTP/1.0 <code> <reason>`,
   * then `Connection: close` and `Content-length: 0`, then the blank line and
   * nothing else.
   */
  lemma EmptyBytes(code: nat)
    requires ReasonPhrase(code).Some?
    ensures Serialize(EmptyResponse(code))
      == StatusLine(code, ReasonPhrase(code).value) + "\r\n" + "Connection: close\r\n" + "Content-length: 0\r\n" + "\r\n"
  {
    var status := StatusLine(code, ReasonPhrase(code).value);
    var hs := [Header("Connection", "close"), Header("Content-length", "0")];
    var first := HeaderLine(hs[0]) + CRLF;
    var second := HeaderLine(hs[1]) + CRLF;
    assert first == "Connection: close\r\n";
    assert second == "Content-length: 0\r\n";
    assert HeaderLines(hs) == first + (second + []) by {
      assert hs[1..][1..] == [];
    }
    assert status + CRLF + (first + (second + [])) + CRLF + [] == status + CRLF + first + second + CRLF;
  }

  lemma Empty500Bytes()
    ensures Serialize(EmptyResponse(500))
      == "HTTP/1.0 500 Internal Server Error\r\n" + "Connection: close\r\n" + "Content-length: 0\r\n" + "\r\n"
  {
    assert ReasonPhrase(500) == Some("Internal Server Error");
    StatusLine500();
    EmptyBytes(500);
  }

  lemma Empty402Bytes()
    ensures Serialize(EmptyResponse(402))
      == "HTTP/1.0 402 Payment Required\r\n" + "Connection: close\r\n" + "Content-length: 0\r\n" + "\r\n"
  {
    assert ReasonPhrase(402) == Some("Payment Required");
    StatusLine402();
    EmptyBytes(402);
  }

  /** A redirect writes `302 Found`, one `Location` line and the blank line. */
  lemma RedirectBytes(url: string)
    ensures Serialize(RedirectResponse(url)) == "HTTP/1.0 302 Found\r\n" + "Location: " + url + "\r\n" + "\r\n"
  {
    assert StatusLine(302, "Found") + CRLF == "HTTP/1.0 302 Found\r\n" by {
      StatusDigits();
      assert StatusLine(302, "Found") == StatusPrefix + "302" + " " + "Found";
    }
    assert HeaderLines([Header("Location", url)]) == "Location: " + url + CRLF + [] by {
      assert [Header("Location", url)][1..] == [];
    }
  }

  // ---------------------------------------------------------------------------
  // Spin

  /** How a Spin's wait ended: a changed answer at check `poll`, or the timeout. */
  datatype Waited =
    | Delegated(to: Action, poll: nat, elapsed: nat)
    | TimedOut(polls: nat, elapsed: nat)

  /** The resolver's answer at check `k`; past the script the host still resolves to the Spin. */
  function Answer(timeout: nat, checkInterval: nat, answers: seq<Action>, k: nat): (r: Action)
    ensures r in answers || r == Spin(timeout, checkInterval)
    ensures k < |answers| ==> r == answers[k]
  {
    if k < |answers| then answers[k] else Spin(timeout, checkInterval)
  }

  /**
   * The wait, from check `k` at time `elapsed`: while one more interval fits
   * before `timeout`, sleep it, re-resolve, and hand over to an answer that is
   * not a Spin; once the next interval would overrun `timeout`, give up. A
   * hand-over therefore never comes after the deadline.
   */
  function SpinFrom(timeout: nat, checkInterval: nat, answers: seq<Action>, k: nat, elapsed: nat): (w: Waited)
    requires checkInterval > 0
    ensures w.elapsed >= elapsed
    ensures elapsed <= timeout ==> w.elapsed <= timeout
    ensures w.Delegated? ==> !w.to.Spin? && w.elapsed <= timeout
    ensures w.TimedOut? ==> w.elapsed + checkInterval > timeout
    decreases timeout - elapsed
  {
    if elapsed + checkInterval > timeout then TimedOut(k, elapsed)
    else
      var now := elapsed + checkInterval;
      var answer := Answer(timeout, checkInterval, answers, k);
      if answer.Spin? then SpinFrom(timeout, checkInterval, answers, k + 1, now)
      else Delegated(answer, k, now)
  }

  /**
   * Each check costs one interval: a wait that times out made `polls - k`
   * checks, one that hands over did so at its `poll - k + 1`-th check, and
   * every check before the last saw a Spin.
   */
  lemma {:induction false} SpinFromFacts(timeout: nat, checkInterval: nat, answers: seq<Action>, k: nat, elapsed: nat)
    requires checkInterval > 0
    ensures var w := SpinFrom(timeout, checkInterval, answers, k, elapsed);
      && (w.TimedOut? ==>
            && w.polls >= k
            && w.elapsed == elapsed + (w.polls - k) * checkInterval
            && forall i :: k <= i < w.polls ==> Answer(timeout, checkInterval, answers, i).Spin?)
      && (w.Delegated? ==>
            && w.poll >= k && w.poll < |answers| && w.to == answers[w.poll]
            && w.elapsed == elapsed + (w.poll - k + 1) * checkInterval
            && forall i :: k <= i < w.poll ==> Answer(timeout, checkInterval, answers, i).Spin?)
    decreases timeout - elapsed
  {
    if elapsed + checkInterval <= timeout && Answer(timeout, checkInterval, answers, k).Spin? {
      var now := elapsed + checkInterval;
      SpinFromFacts(timeout, checkInterval, answers, k + 1, now);
      var w := SpinFrom(timeout, checkInterval, answers, k + 1, now);
      if w.TimedOut? {
        MulSucc(w.polls - (k + 1), checkInterval);
      } else {
        MulSucc(w.poll - (k + 1) + 1, checkInterval);
      }
    }
  }

  /**
   * A Spin whose host keeps resolving to a Spin makes `timeout / checkInterval`
   * checks and then times out: after at least one interval when the timeout
   * holds one, never after the timeout, and less than one interval before it.
   */
  lemma SpinHeldTimesOut(timeout: nat, checkInterval: nat, answers: seq<Action>)
    requires checkInterval > 0
    requires forall i :: 0 <= i < |answers| ==> answers[i].Spin?
    ensures SpinFrom(timeout, checkInterval, answers, 0, 0)
      == TimedOut(timeout / checkInterval, (timeout / checkInterval) * checkInterval)
    ensures timeout < (timeout / checkInterval) * checkInterval + checkInterval
    ensures (timeout / checkInterval) * checkInterval <= timeout
    ensures timeout >= checkInterval ==> (timeout / checkInterval) * checkInterval >= checkInterval
  {
    SpinFromFacts(timeout, checkInterval, answers, 0, 0);
    var w := SpinFrom(timeout, checkInterval, answers, 0, 0);
    assert w.TimedOut?;
    QuotientOf(timeout, checkInterval, w.polls);
    if timeout >= checkInterval {
      MulMonotone(1, w.polls, checkInterval);
    }
  }

  /**
   * A Spin whose host resolves to something else at check `p`, the first
   * such check, hands over to that answer at that check, provided the check
   * comes no later than the timeout.
   */
  lemma SpinSeesFirstChange(timeout: nat, checkInterval: nat, answers: seq<Action>, p: nat)
    requires checkInterval > 0
    requires p < |answers| && !answers[p].Spin?
    requires forall i :: 0 <= i < p ==> answers[i].Spin?
    requires (p + 1) * checkInterval <= timeout
    ensures SpinFrom(timeout, checkInterval, answers, 0, 0) == Delegated(answers[p], p, (p + 1) * checkInterval)
  {
    SpinSeesChangeFrom(timeout, checkInterval, answers, p, 0);
  }

  lemma {:induction false} SpinSeesChangeFrom(timeout: nat, checkInterval: nat, answers: seq<Action>, p: nat, k: nat)
    requires checkInterval > 0
    requires k <= p < |answers| && !answers[p].Spin?
    requires forall i :: k <= i < p ==> answers[i].Spin?
    requires (p + 1) * checkInterval <= timeout
    ensures SpinFrom(timeout, checkInterval, answers, k, k * checkInterval) == Delegated(answers[p], p, (p + 1) * checkInterval)
    decreases p - k
  {
    assert (k + 1) * checkInterval <= (p + 1) * checkInterval by { MulMonotone(k + 1, p + 1, checkInterval); }
    assert (k + 1) * checkInterval == k * checkInterval + checkInterval;
    if k < p {
      SpinSeesChangeFrom(timeout, checkInterval, answers, p, k + 1);
    }
  }

  /**
   * A Spin whose host changes only at check `p`, when that check would come
   * after the timeout, never sees the change: it times out after `p` checks.
   */
  lemma SpinMissesLateChange(timeout: nat, checkInterval: nat, answers: seq<Action>, p: nat)
    requires checkInterval > 0
    requires p <= |answers|
    requires forall i :: 0 <= i < p ==> answers[i].Spin?
    requires p * checkInterval <= timeout < (p + 1) * checkInterval
    ensures SpinFrom(timeout, checkInterval, answers, 0, 0) == TimedOut(p, p * checkInterval)
  {
    SpinFromFacts(timeout, checkInterval, answers, 0, 0);
    var w := SpinFrom(timeout, checkInterval, answers, 0, 0);
    if w.Delegated? {
      assert w.poll >= p;
      MulMonotone(p + 1, w.poll + 1, checkInterval);
      assert false;
    }
    QuotientOf(timeout, checkInterval, w.polls);
    QuotientOf(timeout, checkInterval, p);
  }

  /** `q` is the quotient of `n` by `d` when `q * d <= n < (q + 1) * d`. */
  lemma QuotientOf(n: nat, d: nat, q: nat)
    requires d > 0 && q * d <= n < q * d + d
    ensures q == n / d
  {
    var r := n / d;
    assert r * d <= n < r * d + d;
    if q < r {
      MulMonotone(q + 1, r, d);
    } else if r < q {
      MulMonotone(r + 1, q, d);
    }
  }

  // Arithmetic steps of the Spin proofs, kept as lemmas of their own so that
  // nonlinear arithmetic stays out of the inductions.

  lemma MulSucc(n: nat, c: nat)
    ensures (n + 1) * c == c + n * c
  {
  }

  lemma MulMonotone(a: nat, b: nat, c: nat)
    requires a <= b
    ensures a * c <= b * c
  {
    assert b * c == a * c + (b - a) * c;
  }

  /** Waits as a Spin does, one check interval at a time. */
  method SpinWait(timeout: nat, checkInterval: nat, answers: seq<Action>) returns (w: Waited)
    requires checkInterval > 0
    ensures w == SpinFrom(timeout, checkInterval, answers, 0, 0)
  {
    var polls, elapsed := 0, 0;
    while elapsed + checkInterval <= timeout
      invariant SpinFrom(timeout, checkInterval, answers, polls, elapsed) == SpinFrom(timeout, checkInterval, answers, 0, 0)
      decreases timeout - elapsed
    {
      elapsed := elapsed + checkInterval;
      var answer := Answer(timeout, checkInterval, answers, polls);
      if !answer.Spin? {
        return Delegated(answer, polls, elapsed);
      }
      polls := polls + 1;
    }
    w := TimedOut(polls, elapsed);
  }

  // ---------------------------------------------------------------------------
  // Handling a request

  /** What a settled action does: write these bytes, or relay the request to a backend. */
  datatype Reply = Write(bytes: string) | Relay(backends: seq<Backend>, request: string)

  /** How `Handle` ends: it returned, it raised a socket error, or it handed over to the relay. */
  datatype Handled = Completed | Raised(errno: int) | Relayed(backends: seq<Backend>, request: string)

  /** The action that finally answers, and the ticks spent waiting for it. */
  function Settle(b: Balancer, a: Action): (r: (Action, nat))
    requires Valid(a) && ValidBalancer(b)
    ensures !r.0.Spin? && Valid(r.0)
    ensures !a.Spin? ==> r == (a, 0)
    ensures a.Spin? ==> r.0 == Static("timeout") || r.0 in b.answers
    ensures a.Spin? ==> r.1 <= a.timeout
  {
    if a.Spin? then
      SpinFromFacts(a.timeout, a.checkInterval, b.answers, 0, 0);
      match SpinFrom(a.timeout, a.checkInterval, b.answers, 0, 0)
      case Delegated(to, _, elapsed) => (to, elapsed)
      case TimedOut(_, elapsed) => (Static("timeout"), elapsed)
    else (a, 0)
  }

  function Respond(b: Balancer, a: Action, readData: string, path: string, headers: map<string, string>): (r: Reply)
    requires Valid(a) && !a.Spin?
    ensures r.Relay? <==> a.Proxy?
    ensures a.Empty? ==> r == Write(Serialize(EmptyResponse(a.code)))
    ensures a.Static? ==> r == Write(b.asset(a.kind))
    ensures a.Unknown? ==> r == Write(b.asset("unknown"))
    ensures a.NoHosts? ==> r == Write(b.asset("no-hosts"))
    ensures a.Redirect? ==> r == Write(Serialize(RedirectResponse(Location(a.redirectTo, path, headers))))
    ensures a.Proxy? ==> r == Relay(a.backends, readData)
  {
    match a
    case Empty(code) => Write(Serialize(EmptyResponse(code)))
    case Static(kind) => Write(b.asset(kind))
    case Unknown => Write(b.asset("unknown"))
    case NoHosts => Write(b.asset("no-hosts"))
    case Redirect(target) => Write(Serialize(RedirectResponse(Location(target, path, headers))))
    case Proxy(backends) => Relay(backends, readData)
  }

  /** The whole effect of handling: how it ends, what reaches the socket, how long it waited. */
  datatype Run = Run(handled: Handled, written: string, elapsed: nat)

  /**
   * Writing `reply` to a socket that fails with `failure`: a write completes
   * on a recording socket or on a broken pipe, raises any other errno, and
   * only a recording socket keeps the bytes; a relay writes nothing itself.
   */
  function Effect(failure: Option<int>, reply: Reply, elapsed: nat): (run: Run)
    ensures run.elapsed == elapsed
    ensures reply.Relay? ==> run == Run(Relayed(reply.backends, reply.request), [], elapsed)
    ensures reply.Write? ==> (run.handled == Completed <==> failure.None? || failure == Some(EPIPE))
    ensures reply.Write? && failure.Some? && failure != Some(EPIPE) ==> run.handled == Raised(failure.value)
    ensures reply.Write? ==> run.written == Accepted(failure, reply.bytes)
  {
    match reply
    case Write(bytes) =>
      var r := Tolerate(RawOutcome(failure));
      Run(if r.Pass? then Completed else Raised(r.errno), Accepted(failure, bytes), elapsed)
    case Relay(backends, request) => Run(Relayed(backends, request), [], elapsed)
  }

  /** The whole effect of handling `a` on a socket that fails with `failure`. */
  function HandleRun(b: Balancer, a: Action, failure: Option<int>, readData: string, path: string, headers: map<string, string>): (run: Run)
    requires Valid(a) && ValidBalancer(b)
    ensures !a.Spin? ==> run.elapsed == 0
    ensures a.Spin? ==> run.elapsed <= a.timeout
    ensures run.handled.Relayed? <==> Settle(b, a).0.Proxy?
    ensures failure.Some? ==> run.written == []
  {
    var (final, elapsed) := Settle(b, a);
    Effect(failure, Respond(b, final, readData, path, headers), elapsed)
  }

  /** Handles an action that does not wait. */
  method Respondent(b: Balancer, a: Action, sock: FakeSocket, readData: string, path: string, headers: map<string, string>)
    returns (h: Handled)
    requires Valid(a) && !a.Spin?
    modifies sock
    ensures var run := Effect(sock.failure, Respond(b, a, readData, path, headers), 0);
      h == run.handled && sock.data == old(sock.data) + run.written
  {
    match Respond(b, a, readData, path, headers)
    case Write(bytes) =>
      var r := WriteAll(sock, bytes);
      h := if r.Pass? then Completed else Raised(r.errno);
    case Relay(backends, request) =>
      h := Relayed(backends, request);
  }

  /**
   * Handles `a` on `sock`: a Spin first waits, then the action it settles on
   * (the changed answer, or the `timeout` asset) writes its response.
   */
  method Handle(b: Balancer, a: Action, sock: FakeSocket, readData: string, path: string, headers: map<string, string>)
    returns (h: Handled, elapsed: nat)
    requires Valid(a) && ValidBalancer(b)
    modifies sock
    ensures var run := HandleRun(b, a, sock.failure, readData, path, headers);
      h == run.handled && elapsed == run.elapsed && sock.data == old(sock.data) + run.written
  {
    var final := a;
    elapsed := 0;
    if a.Spin? {
      var w := SpinWait(a.timeout, a.checkInterval, b.answers);
      SpinFromFacts(a.timeout, a.checkInterval, b.answers, 0, 0);
      final := if w.Delegated? then w.to else Static("timeout");
      elapsed := w.elapsed;
    }
    h := Respondent(b, final, sock, readData, path, headers);
  }

  /**
   * Whatever the action, once it has settled on bytes to write, a socket that
   * fails with `code` leaves handling to return normally exactly when `code`
   * is EPIPE and to raise `code` itself otherwise; nothing is recorded.
   */
  lemma SocketErrorPolicy(b: Balancer, a: Action, code: int, readData: string, path: string, headers: map<string, string>)
    requires Valid(a) && ValidBalancer(b) && !Settle(b, a).0.Proxy?
    ensures var run := HandleRun(b, a, Some(code), readData, path, headers);
      && (run.handled == Completed <==> code == EPIPE)
      && (code != EPIPE ==> run.handled == Raised(code))
      && run.written == []
  {
  }

  /** On a recording socket every non-relaying action completes and writes its reply whole. */
  lemma RecordingGetsReply(b: Balancer, a: Action, readData: string, path: string, headers: map<string, string>)
    requires Valid(a) && ValidBalancer(b) && !Settle(b, a).0.Proxy?
    ensures var run := HandleRun(b, a, None, readData, path, headers);
      && run.handled == Completed
      && Respond(b, Settle(b, a).0, readData, path, headers) == Write(run.written)
  {
  }
}
