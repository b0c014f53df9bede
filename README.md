# Mantrid actions: the response contract

Mantrid is a host-based HTTP load balancer. It resolves each request's host
to an *action*, and the action writes a complete response to the client
connection. This project models the behaviour that mantrid's action unit
tests (`mantrid/tests/actions.py`) fix with exact expected bytes. The fake
sockets those tests write to are the state being changed.

- `Wrappers.dfy`: the `Option` and `Result` datatypes.
- `Http.dfy`: HTTP/1.0 responses.
  - The RFC 2616 reason-phrase table.
  - Decimal spelling of status codes.
  - `Serialize`, which writes a status line, header lines, a blank line and the body.
  - `Parse`, an independent reader, with the round trip `Parse(Serialize(r)) == Some(r)` proved for every well-formed response.
- `Sockets.dfy`: the fake connections.
  - `FakeSocket` is a class whose `data` grows by concatenation. A recording socket appends every write. A failing socket raises one errno on every `SendAll`.
  - `WriteAll` is the write policy every action shares: EPIPE is swallowed, and any other errno reaches the caller unchanged.
- `Actions.dfy`: the actions.
  - `Empty(code)`, `Static(kind)`, `Unknown`, `NoHosts`, `Redirect(target)`, `Proxy(backends)` and `Spin(timeout, checkInterval)`.
  - The `Location` rule for redirects.
  - `SpinWait`, Spin's polling loop. It is proved equal to the recursive specification `SpinFrom`.
  - `Handle`, which runs an action against a socket.
- `ActionTests.dfy`: each scenario of `ActionTests` as a method. Its `ensures` states the bytes, outcome or duration the unit test asserts.

Modelling choices:

- Time is counted in integer ticks. One tick stands for a tenth of a second, so the test's `Spin(timeout=2, check_interval=1)` is `Spin(20, 10)`.
- The balancer's resolver is a scripted sequence of answers, `Balancer.answers`:
  - Poll `k` sees `answers[k]`.
  - Past the end of the script, the resolver keeps answering the Spin itself.
  - Spin sleeps one interval, then re-resolves.
  - Spin checks only while one more interval fits within the timeout. It stops as soon as the next interval would overrun the timeout. A held Spin therefore makes `timeout / checkInterval` checks (rounded down). A hand-over never comes after the timeout. The tests only use a timeout that the interval divides, so they do not decide the other case.
  - A `Spin` answer counts as "no change". Any other answer is delegated to.
- The test's concurrent host changer sleeps 0.7 s and then switches the host to `Empty(402)`. In the script, that is `[Empty(402)]`: the first poll, at tick 10, already sees the change.
- Asset files (`timeout.http`, `unknown.http`, `no-hosts.http`) are an opaque function `asset: string -> string` carried by the balancer.
- errno values are Linux's: EBADF = 9 and EPIPE = 32.
- `readData` is the second argument of `handle`. Only `Proxy` uses it, as the request to relay.
- A redirect's scheme is decided by the `X-Forwarded-Protocol` entry of the header map. The value must be exactly `SSL`.
- A target "has a scheme" when it starts with `http://` or `https://`.

## Model

| member | source | states |
|---|---|---|
| `Sockets.FakeSocket.Recording` | mantrid/tests/actions.py:27-28 | a fresh recording socket has recorded nothing and never fails |
| `Sockets.FakeSocket.Failing` | mantrid/tests/actions.py:44-45 | a failing socket remembers the errno it will raise and has recorded nothing |
| `Sockets.FakeSocket.Send` | mantrid/tests/actions.py:30-32 | `send` appends exactly its argument to `data` and returns its length |
| `Sockets.FakeSocket.SendAll` | mantrid/tests/actions.py:34-35 | on a recording socket `sendall` appends its argument and returns; on a failing socket it raises that socket's errno and records nothing |
| `Sockets.RawOutcome` | mantrid/tests/actions.py:47-49 | a write raises exactly when the socket has a failure, and then carries that errno |
| `Sockets.Accepted` | mantrid/tests/actions.py:34-35 | a recording socket keeps the whole write; a failing one keeps nothing |
| `Sockets.Tolerate` | mantrid/tests/actions.py:189-195 | a write counts as done exactly when it passed or failed with EPIPE; any other failure is passed on with its errno unchanged |
| `Sockets.FakeSocket.Close` | mantrid/tests/actions.py:37-38 | closing a fake socket changes nothing it has recorded |
| `Sockets.WriteAll` | mantrid/tests/actions.py:183-195 | the shared write: its outcome is the tolerated socket outcome, and the socket's data grows by exactly what the socket accepted |
| `Http.ReasonPhrase` | mantrid/tests/actions.py:61 | every code in the reason table has a non-empty phrase with no carriage return, so it ends where the status line's CRLF begins |
| `Http.Digits` | mantrid/tests/actions.py:61 | the spelling of a status code is a non-empty string of decimal digits |
| `Http.DigitsValueOfDigits` | mantrid/tests/actions.py:61 | reading a code's spelling back gives the code |
| `Http.IndexOf` | mantrid/tests/actions.py:61 | the result is the first position of the character, or the character does not occur |
| `Http.SplitLine` | mantrid/tests/actions.py:61 | a split cuts the text at a CRLF into the line before it and the rest after it |
| `Http.SplitLineAt` | mantrid/tests/actions.py:61 | a line without a carriage return followed by CRLF splits back into that line and the rest |
| `Http.HeaderLines` | mantrid/tests/actions.py:61 | the header section is empty exactly when there are no headers, and otherwise ends with a CRLF |
| `Http.Serialize` | mantrid/tests/actions.py:61 | a response's bytes open with `HTTP/1.0 `, and its body follows the blank line (two CRLFs) that closes the header section |
| `Http.StatusLineRoundTrip` | mantrid/tests/actions.py:61 | a status line reads back as its code and reason |
| `Http.HeaderLineRoundTrip` | mantrid/tests/actions.py:61 | a well-formed header line reads back as the same header |
| `Http.HeadersRoundTrip` | mantrid/tests/actions.py:61 | a header block reads back as the same headers in the same order, and the body after the blank line is untouched |
| `Http.ParseSerialize` | mantrid/tests/actions.py:61 | every well-formed response reads back from its serialized bytes unchanged |
| `Http.StatusDigits` | mantrid/tests/actions.py:61 | codes 500, 402 and 302 are spelled "500", "402" and "302" |
| `Http.StatusLine500` | mantrid/tests/actions.py:61 | the 500 status line is `HTTP/1.0 500 Internal Server Error` followed by CRLF |
| `Http.StatusLine402` | mantrid/tests/actions.py:179 | the 402 status line is `HTTP/1.0 402 Payment Required` followed by CRLF |
| `Actions.NewProxy` | mantrid/tests/actions.py:135-141 | building a Proxy succeeds exactly when the backend list is non-empty, and then keeps those backends |
| `Actions.Location` | mantrid/tests/actions.py:95-133 | the Location always has a scheme and ends with the request path; a target with a scheme is kept verbatim; a bare target gets `https://` exactly when `X-Forwarded-Protocol` is `SSL`, otherwise `http://` |
| `Actions.EmptyResponse` | mantrid/tests/actions.py:55-63 | the Empty response for a code in the table is well formed, carries that code and has no body |
| `Actions.RedirectResponse` | mantrid/tests/actions.py:95-133 | the redirect response is `302` with no body, and it is well formed exactly when the destination has no carriage return |
| `Actions.EmptyReadsBack` | mantrid/tests/actions.py:55-63 | an Empty response reads back as its code and reason, exactly the headers `Connection: close` and `Content-length: 0`, and an empty body |
| `Actions.RedirectReadsBack` | mantrid/tests/actions.py:95-133 | a redirect reads back as `302 Found` with a single `Location` header (no `Connection`, no `Content-length`) and an empty body |
| `Actions.EmptyBytes` | mantrid/tests/actions.py:55-63 | the bytes of any Empty response: status line, `Connection: close`, `Content-length: 0`, blank line, nothing else |
| `Actions.Empty500Bytes` | mantrid/tests/actions.py:60-62 | `Empty(500)` is exactly the literal the test expects |
| `Actions.Empty402Bytes` | mantrid/tests/actions.py:178-181 | `Empty(402)` is exactly the literal the test expects, with `Payment Required` |
| `Actions.RedirectBytes` | mantrid/tests/actions.py:101-103 | a redirect is exactly `HTTP/1.0 302 Found`, a `Location` line and a blank line |
| `Actions.Answer` | mantrid/tests/actions.py:147-149 | the resolver answers check `k` with the scripted answer when there is one, and otherwise with the Spin itself |
| `Actions.SpinFrom` | mantrid/tests/actions.py:144-181 | a wait never ends before it began; a wait that starts within the timeout ends within it; a hand-over is to a non-Spin answer; a timeout comes only once another interval would overrun the deadline |
| `Actions.SpinFromFacts` | mantrid/tests/actions.py:144-181 | each check costs exactly one interval: a timeout after `polls - k` checks ends at `elapsed + (polls - k) * interval`; a hand-over at check `poll` ends at `elapsed + (poll - k + 1) * interval` and passes on `answers[poll]`; every earlier check saw a Spin |
| `Actions.SpinHeldTimesOut` | mantrid/tests/actions.py:150-166 | while every answer is a Spin, Spin times out after exactly `timeout / interval` checks. That is never after the timeout, less than one interval before it, and after at least one interval when the timeout holds one |
| `Actions.SpinSeesFirstChange` | mantrid/tests/actions.py:167-181 | when the first non-Spin answer comes at check `p` and that check falls within the timeout, Spin delegates to it at tick `(p+1) * interval` |
| `Actions.SpinMissesLateChange` | mantrid/tests/actions.py:144-181 | a change whose check would fall after the timeout is never seen: Spin times out after the checks that fit |
| `Actions.SpinSeesChangeFrom` | mantrid/tests/actions.py:167-181 | the same from any poll `k` onwards: the first changed answer is delegated to at its own poll's tick |
| `Actions.SpinWait` | mantrid/tests/actions.py:144-181 | the polling loop (sleep an interval, re-resolve, stop on a change or on the timeout) ends exactly as `SpinFrom` says |
| `Actions.Settle` | mantrid/tests/actions.py:144-181 | the action that finally answers is never a Spin; a non-Spin action answers itself at once; a Spin settles on the `timeout` asset or on one of the resolver's answers, within its timeout |
| `Actions.Respond` | mantrid/tests/actions.py:55-141 | Empty writes its response for its code; `Static(T)` writes exactly asset `T`; Unknown and NoHosts write exactly the `unknown` and `no-hosts` assets; Redirect writes the 302 response for the computed Location; only a Proxy relays, passing on its backends and the request |
| `Actions.Effect` | mantrid/tests/actions.py:183-195 | a written reply completes exactly on a recording socket or on EPIPE, raises any other errno as itself, and only a recording socket keeps its bytes; a relay writes nothing |
| `Actions.HandleRun` | mantrid/tests/actions.py:55-195 | handling takes no time unless the action is a Spin, and a Spin waits at most its timeout; it relays exactly when the settled action is a Proxy; a failing socket records nothing |
| `Actions.Respondent` | mantrid/tests/actions.py:55-133 | a non-waiting action writes its reply through the shared write policy and ends as that policy says |
| `Actions.Handle` | mantrid/tests/actions.py:55-195 | handling settles the action, writes the settled action's reply and reports how it ended, what the socket recorded and how long it waited |
| `Actions.SocketErrorPolicy` | mantrid/tests/actions.py:183-195 | on a failing socket, handling returns normally exactly when the errno is EPIPE, otherwise raises that same errno, and records nothing |
| `Actions.RecordingGetsReply` | mantrid/tests/actions.py:58-63 | on a recording socket, every action that writes completes, and the socket holds its whole reply |
| `ActionTests.MockBalancer` | mantrid/tests/actions.py:13-21 | the test balancer serves the given assets and has no scripted answers; it stands for a balancer that is never asked to re-resolve |
| `ActionTests.TestEmpty` | mantrid/tests/actions.py:55-63 | `Empty(500)` records exactly the 500 literal |
| `ActionTests.TestStatic` | mantrid/tests/actions.py:65-73 | `Static("timeout")` records exactly the `timeout` asset |
| `ActionTests.TestUnknown` | mantrid/tests/actions.py:75-83 | `Unknown` records exactly the `unknown` asset |
| `ActionTests.TestNoHosts` | mantrid/tests/actions.py:85-93 | `NoHosts` records exactly the `no-hosts` asset |
| `ActionTests.RedirectOnce` | mantrid/tests/actions.py:95-133 | one redirect on a recording socket completes and records the redirect response for the computed Location |
| `ActionTests.TestRedirectRoot` | mantrid/tests/actions.py:97-104 | `http://tigers.net` with `/` records the Location `http://tigers.net/` |
| `ActionTests.TestRedirectPath` | mantrid/tests/actions.py:105-111 | `http://tigers.net` with `/bears/` records the Location `http://tigers.net/bears/` |
| `ActionTests.TestRedirectHttps` | mantrid/tests/actions.py:112-119 | `https://meme-overload.com` with `/bears2/` keeps the https scheme |
| `ActionTests.TestRedirectBare` | mantrid/tests/actions.py:120-127 | bare `example.net` with `/test/` and no forwarded protocol gives `http://example.net/test/` |
| `ActionTests.TestRedirectBareSsl` | mantrid/tests/actions.py:128-133 | the same with `X-Forwarded-Protocol: SSL` gives `https://example.net/test/` |
| `ActionTests.TestProxy` | mantrid/tests/actions.py:135-141 | a Proxy with no backends is refused |
| `ActionTests.TestSpin` | mantrid/tests/actions.py:144-181 | a held Spin(2 s, 1 s) records the `timeout` asset after at least 1 s and within 2.2 s; when the host changes to `Empty(402)`, Spin records the 402 literal before the timeout |
| `ActionTests.HandleFailing` | mantrid/tests/actions.py:189-195 | on a socket failing with `code`, Empty, Unknown and Redirect complete when `code` is EPIPE and raise `code` otherwise |
| `ActionTests.TestSocketErrors` | mantrid/tests/actions.py:183-195 | for Empty(500), Unknown and Redirect in turn, EPIPE completes and EBADF raises EBADF |

## Left out

- `LiveActionTests` (mantrid/tests/actions.py:198-241) is not modelled. It starts a real balancer on TCP ports and sends HTTP requests over the network.
- Wall-clock time and eventlet's `Timeout`, `sleep` and `spawn` are not modelled. Time is integer ticks. The concurrent host changer is the scripted answer sequence. Whether Spin yields to other tasks while it waits is not captured.
- Reading asset files from disk is not modelled. Asset contents are an opaque function, so a missing or unreadable asset file is not modelled either.
- The Proxy relay itself is not modelled. `Handle` stops at `Relayed`, carrying the backends and the request. The source's test leaves the relay as a TODO, and relaying is concurrent socket I/O.
- The action implementations in `mantrid/actions.py` and the balancer in `mantrid/loadbalancer.py` are not part of this model. Only what the unit tests pin down is modelled.
- `MockBalancer`'s constructor ignores its `fixed_action` argument. This is a fixture quirk and is not modelled. The scripted answers play the role of `fixed_action` instead. Before a test assigns `fixed_action`, `resolve_host` answers `None`; that answer is not modelled, because only Spin re-resolves and the test assigns a Spin first.
- Past the end of its script, the resolver answers the Spin itself, while the fixture keeps its last assignment. The scripts the tests need never run out before Spin settles.
- `Actions.Handle`: `Empty` requires a code in the RFC 2616 reason table. What the source does for an unknown code is not fixed by its tests.
- `Actions.SpinWait`: requires a positive check interval. A zero interval would poll without waiting, and the tests never use one.
- A Spin answer from the resolver is treated as "no change" whatever its parameters. Whether the source compares Spin actions by identity is not fixed by its tests.
- Redirect targets are taken to have a scheme only when they start with `http://` or `https://`. Any other form is treated as a bare host.
- `Sockets.FakeSocket.Send`: requires a recording socket, because the failing socket of the source has no `send` method at all.
- `Sockets.Outcome`: a failure carries only its errno. The `os.strerror` message that `MockErrorSocket` raises with is not modelled, and the tests never read it.
- `Handle` takes the forwarded protocol from the header map, not from its second argument. The tests pass an empty second argument and put `X-Forwarded-Protocol` in the headers.
