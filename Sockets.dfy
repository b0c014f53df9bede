/**
 * The fake connections the action tests write to, and the write policy every
 * action shares: a peer that has gone away (EPIPE) is not an error, any other
 * socket error reaches the caller with its errno unchanged.
 */
module Sockets {
  import opened Wrappers

  /** errno values as Linux numbers them. */
  const EBADF: int := 9
  const EPIPE: int := 32

  /** The result of a write: it returned, or it raised a socket error carrying an errno. */
  datatype Outcome = Pass | Fail(errno: int)

  /**
   * A connection that records what is written to it. A recording socket
   * (`Recording`) appends every write to `data`; a failing socket (`Failing`)
   * raises the same errno on every `SendAll` and has no `Send` at all.
   */
  class FakeSocket {
    var data: string
    const failure: Option<int>

    constructor Recording()
      ensures data == [] && failure == None
    {
      data := [];
      failure := None;
    }

    constructor Failing(code: int)
      ensures data == [] && failure == Some(code)
    {
      data := [];
      failure := Some(code);
    }

    /** Appends `s` and reports how many characters were taken. */
    method Send(s: string) returns (n: nat)
      requires failure == None
      modifies this
      ensures data == old(data) + s && n == |s|
    {
      data := data + s;
      n := |s|;
    }

    /** Appends `s`, or on a failing socket raises its errno and records nothing. */
    method SendAll(s: string) returns (r: Outcome)
      modifies this
      ensures r == RawOutcome(failure)
      ensures data == old(data) + Accepted(failure, s)
    {
      match failure
      case None =>
        data := data + s;
        r := Pass;
      case Some(code) =>
        r := Fail(code);
    }

    /** Closing a fake socket does nothing. */
    method Close()
      ensures data == old(data)
    {
    }
  }

  /** What `SendAll` reports on a socket that fails with `failure`. */
  function RawOutcome(failure: Option<int>): (r: Outcome)
    ensures r.Pass? <==> failure.None?
    ensures r.Fail? ==> failure == Some(r.errno)
  {
    match failure
    case None => Pass
    case Some(code) => Fail(code)
  }

  /** The part of `s` a socket that fails with `failure` keeps. */
  function Accepted(failure: Option<int>, s: string): (kept: string)
    ensures failure.None? ==> kept == s
    ensures failure.Some? ==> kept == []
  {
    if failure.None? then s else []
  }

  /** The write policy: a broken pipe counts as success, every other error is kept as it is. */
  function Tolerate(r: Outcome): (t: Outcome)
    ensures t.Pass? <==> (r.Pass? || r == Fail(EPIPE))
    ensures t.Fail? ==> t == r
  {
    if r == Fail(EPIPE) then Pass else r
  }

  /** Writes a whole response under the write policy. */
  method WriteAll(sock: FakeSocket, s: string) returns (r: Outcome)
    modifies sock
    ensures r == Tolerate(RawOutcome(sock.failure))
    ensures sock.data == old(sock.data) + Accepted(sock.failure, s)
  {
    var raw := sock.SendAll(s);
    r := Tolerate(raw);
  }
}
