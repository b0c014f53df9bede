/**
 * The action test cases, one method per case: each builds the fake balancer
 * and sockets the case uses, handles the action and states, as its
 * postcondition, what the case asserts. Spin time is counted in ticks of a
 * tenth of a second, so `timeout=2, check_interval=1` is Spin(20, 10).
 */
module ActionTests {
  import opened Wrappers
  import opened Http
  import opened Sockets
  import opened Actions

  /** A balancer whose resolver has no scripted answers. */
  function MockBalancer(asset: string -> string): (b: Balancer)
    ensures ValidBalancer(b) && b.answers == []
  {
    Balancer(asset, [])
  }

  method TestEmpty(asset: string -> string) returns (data: string)
    ensures data == "HTTP/1.0 500 Internal Server Error\r\n" + "Connection: close\r\n" + "Content-length: 0\r\n" + "\r\n"
  {
    var sock := new FakeSocket.Recording();
    var h, elapsed := Handle(MockBalancer(asset), Empty(500), sock, "", "/", map[]);
    Empty500Bytes();
    data := sock.data;
  }

  method TestStatic(asset: string -> string) returns (data: string)
    ensures data == asset("timeout")
  {
    var sock := new FakeSocket.Recording();
    var h, elapsed := Handle(MockBalancer(asset), Static("timeout"), sock, "", "/", map[]);
    data := sock.data;
  }

  method TestUnknown(asset: string -> string) returns (data: string)
    ensures data == asset("unknown")
  {
    var sock := new FakeSocket.Recording();
    var h, elapsed := Handle(MockBalancer(asset), Unknown, sock, "", "/", map[]);
    data := sock.data;
  }

  method TestNoHosts(asset: string -> string) returns (data: string)
    ensures data == asset("no-hosts")
  {
    var sock := new FakeSocket.Recording();
    var h, elapsed := Handle(MockBalancer(asset), NoHosts, sock, "", "/", map[]);
    data := sock.data;
  }

  /** Redirects `path` with `target` on a fresh recording socket. */
  method RedirectOnce(asset: string -> string, target: string, path: string, headers: map<string, string>)
    returns (data: string)
    ensures data == "HTTP/1.0 302 Found\r\n" + "Location: " + Location(target, path, headers) + "\r\n" + "\r\n"
  {
    var sock := new FakeSocket.Recording();
    var h, elapsed := Handle(MockBalancer(asset), Redirect(target), sock, "", path, headers);
    RedirectBytes(Location(target, path, headers));
    data := sock.data;
  }

  method TestRedirectRoot(asset: string -> string) returns (data: string)
    ensures data == "HTTP/1.0 302 Found\r\n" + "Location: " + "http://tigers.net/" + "\r\n" + "\r\n"
  {
    data := RedirectOnce(asset, "http://tigers.net", "/", map[]);
    assert Location("http://tigers.net", "/", map[]) == "http://tigers.net/" by {
      assert HasScheme("http://tigers.net");
    }
  }

  method TestRedirectPath(asset: string -> string) returns (data: string)
    ensures data == "HTTP/1.0 302 Found\r\n" + "Location: " + "http://tigers.net/bears/" + "\r\n" + "\r\n"
  {
    data := RedirectOnce(asset, "http://tigers.net", "/bears/", map[]);
    assert Location("http://tigers.net", "/bears/", map[]) == "http://tigers.net/bears/" by {
      assert HasScheme("http://tigers.net");
    }
  }

  method TestRedirectHttps(asset: string -> string) returns (data: string)
    ensures data == "HTTP/1.0 302 Found\r\n" + "Location: " + "https://meme-overload.com/bears2/" + "\r\n" + "\r\n"
  {
    data := RedirectOnce(asset, "https://meme-overload.com", "/bears2/", map[]);
    assert Location("https://meme-overload.com", "/bears2/", map[]) == "https://meme-overload.com/bears2/" by {
      assert HasScheme("https://meme-overload.com");
    }
  }

  method TestRedirectBare(asset: string -> string) returns (data: string)
    ensures data == "HTTP/1.0 302 Found\r\n" + "Location: " + "http://example.net/test/" + "\r\n" + "\r\n"
  {
    data := RedirectOnce(asset, "example.net", "/test/", map[]);
    assert Location("example.net", "/test/", map[]) == "http://example.net/test/" by {
      assert !HasScheme("example.net") by { assert "example.net"[0] != "http://"[0]; }
    }
  }

  method TestRedirectBareSsl(asset: string -> string) returns (data: string)
    ensures data == "HTTP/1.0 302 Found\r\n" + "Location: " + "https://example.net/test/" + "\r\n" + "\r\n"
  {
    var ssl := map[ForwardedProtocol := "SSL"];
    data := RedirectOnce(asset, "example.net", "/test/", ssl);
    assert Location("example.net", "/test/", ssl) == "https://example.net/test/" by {
      assert !HasScheme("example.net") by { assert "example.net"[0] != "http://"[0]; }
      assert ForwardedSsl(ssl);
    }
  }

  method TestProxy() returns (r: Result<Action, ConfigError>)
    ensures r == Failure(NoBackends)
  {
    r := NewProxy([]);
  }

  /**
   * A Spin whose host keeps resolving to itself writes the `timeout` asset
   * after waiting at least one interval and less than the test's 2.2 s guard;
   * one whose host resolves to Empty(402) by the first check writes the 402
   * response and returns before the 2 s guard.
   */
  method TestSpin(asset: string -> string)
    returns (heldData: string, heldElapsed: nat, changedData: string, changedElapsed: nat)
    ensures heldData == asset("timeout") && 10 <= heldElapsed < 22
    ensures changedData == "HTTP/1.0 402 Payment Required\r\n" + "Connection: close\r\n" + "Content-length: 0\r\n" + "\r\n"
    ensures changedElapsed < 20
  {
    var spin := Spin(20, 10);
    var held := Balancer(asset, [spin, spin]);
    SpinHeldTimesOut(20, 10, held.answers);
    var sock := new FakeSocket.Recording();
    var h;
    h, heldElapsed := Handle(held, spin, sock, "", "/", map[]);
    heldData := sock.data;

    var changed := Balancer(asset, [Empty(402)]);
    SpinSeesFirstChange(20, 10, changed.answers, 0);
    Empty402Bytes();
    sock := new FakeSocket.Recording();
    h, changedElapsed := Handle(changed, spin, sock, "", "/", map[]);
    changedData := sock.data;
  }

  /** Handles `a` on a socket whose every write fails with `code`. */
  method HandleFailing(asset: string -> string, a: Action, code: int) returns (h: Handled)
    requires Valid(a) && !a.Spin? && !a.Proxy?
    ensures h == (if code == EPIPE then Completed else Raised(code))
  {
    var sock := new FakeSocket.Failing(code);
    var elapsed;
    h, elapsed := Handle(MockBalancer(asset), a, sock, "", "/", map[]);
    SocketErrorPolicy(MockBalancer(asset), a, code, "", "/", map[]);
  }

  method TestSocketErrors(asset: string -> string) returns (outcomes: seq<Handled>)
    ensures outcomes == [Completed, Raised(EBADF), Completed, Raised(EBADF), Completed, Raised(EBADF)]
  {
    outcomes := [];
    var actions := [Empty(500), Unknown, Redirect("http://pypy.org/")];
    for i := 0 to 3
      invariant outcomes == QuietThenLoud(i)
    {
      var quiet := HandleFailing(asset, actions[i], EPIPE);
      var loud := HandleFailing(asset, actions[i], EBADF);
      outcomes := outcomes + [quiet, loud];
    }
    assert QuietThenLoud(1) == [Completed, Raised(EBADF)];
    assert QuietThenLoud(2) == [Completed, Raised(EBADF), Completed, Raised(EBADF)];
  }

  /** `n` rounds of a swallowed EPIPE followed by a raised EBADF. */
  function QuietThenLoud(n: nat): seq<Handled>
  {
    if n == 0 then [] else QuietThenLoud(n - 1) + [Completed, Raised(EBADF)]
  }
}
