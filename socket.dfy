/** The foreign calls the connection makes on its socket, its control handles and the host, and
    the oracle that decides their outcome. Nothing here says what the operating system does with a
    call; only whether the call reported an error. */
module Socket {
  import opened Wrappers
  import opened Errors
  import opened Net

  /** Which control handle is in use: the IPv4 one for "udp4", the IPv6 one for "udp6". */
  datatype Family = V4 | V6

  datatype Call =
    | Listen(network: string, laddr: UDPAddr)        // bind the UDP socket
    | ListInterfaces                                 // enumerate the host's interfaces; its outcome is
                                                     // given to the open directly, not asked of the oracle
    | JoinGroup(family: Family, iface: Interface, group: UDPAddr)
    | SetInterface(family: Family, iface: Interface) // socket-wide outbound multicast interface
    | WriteTo(family: Family, payload: seq<Byte>, ifIndex: int, dst: UDPAddr) // one datagram; ifIndex 0 = unset
    | SetTTL(ttl: int)                               // IPv4 multicast TTL
    | SetHopLimit(hoplim: int)                       // IPv6 multicast hop limit
    | SetLoopback(family: Family, on: bool)
    | CloseHandle(family: Family)
    | CloseSocket

  /** The outcome of a call, given every call made on the same socket before it. */
  type Oracle = (seq<Call>, Call) -> Option<Error>

  function ErrorList(o: Option<Error>): seq<Error>
  {
    if o.Some? then [o.value] else []
  }

  /** The errors reported by `calls`, in order, when they are made one after another after `before`. */
  function Failures(os: Oracle, before: seq<Call>, calls: seq<Call>): seq<Error>
    decreases |calls|
  {
    if calls == [] then []
    else
      var n := |calls| - 1;
      Failures(os, before, calls[..n]) + ErrorList(os(before + calls[..n], calls[n]))
  }

  /** Making `a` and then `b` reports the errors of `a` followed by those of `b`. */
  lemma {:induction false} FailuresAppend(os: Oracle, before: seq<Call>, a: seq<Call>, b: seq<Call>)
    ensures Failures(os, before, a + b) == Failures(os, before, a) + Failures(os, before + a, b)
    decreases |b|
  {
    if b != [] {
      var n := |b| - 1;
      assert (a + b)[..|a| + n] == a + b[..n];
      assert (a + b)[|a| + n] == b[n];
      assert before + (a + b[..n]) == (before + a) + b[..n];
      FailuresAppend(os, before, a, b[..n]);
    } else {
      assert a + b == a;
    }
  }

  /** Each call reports at most one error. */
  lemma {:induction false} FailuresBound(os: Oracle, before: seq<Call>, calls: seq<Call>)
    ensures |Failures(os, before, calls)| <= |calls|
    decreases |calls|
  {
    if calls != [] {
      FailuresBound(os, before, calls[..|calls| - 1]);
    }
  }

  /** No error is reported exactly when every call succeeds. */
  lemma {:induction false} FailuresNoneIff(os: Oracle, before: seq<Call>, calls: seq<Call>)
    ensures Failures(os, before, calls) == [] <==>
            forall i :: 0 <= i < |calls| ==> os(before + calls[..i], calls[i]).None?
    decreases |calls|
  {
    if calls != [] {
      var n := |calls| - 1;
      var p := calls[..n];
      FailuresNoneIff(os, before, p);
      assert Failures(os, before, calls) == Failures(os, before, p) + ErrorList(os(before + p, calls[n]));
      if Failures(os, before, calls) == [] {
        forall i | 0 <= i < |calls| ensures os(before + calls[..i], calls[i]).None? {
          if i < n {
            assert p[..i] == calls[..i] && p[i] == calls[i];
          }
        }
      }
      if forall i :: 0 <= i < |calls| ==> os(before + calls[..i], calls[i]).None? {
        forall i | 0 <= i < n ensures os(before + p[..i], p[i]).None? {
          assert p[..i] == calls[..i] && p[i] == calls[i];
        }
      }
    }
  }

  /** One error per call is reported exactly when every call fails. */
  lemma {:induction false} FailuresAllIff(os: Oracle, before: seq<Call>, calls: seq<Call>)
    ensures |Failures(os, before, calls)| == |calls| <==>
            forall i :: 0 <= i < |calls| ==> os(before + calls[..i], calls[i]).Some?
    decreases |calls|
  {
    if calls != [] {
      var n := |calls| - 1;
      var p := calls[..n];
      FailuresAllIff(os, before, p);
      FailuresBound(os, before, p);
      assert Failures(os, before, calls) == Failures(os, before, p) + ErrorList(os(before + p, calls[n]));
      if |Failures(os, before, calls)| == |calls| {
        forall i | 0 <= i < |calls| ensures os(before + calls[..i], calls[i]).Some? {
          if i < n {
            assert p[..i] == calls[..i] && p[i] == calls[i];
          }
        }
      }
      if forall i :: 0 <= i < |calls| ==> os(before + calls[..i], calls[i]).Some? {
        forall i | 0 <= i < n ensures os(before + p[..i], p[i]).Some? {
          assert p[..i] == calls[..i] && p[i] == calls[i];
        }
      }
    }
  }

  /** One more call adds its own outcome's error, if any, after the errors of the calls before it. */
  lemma {:induction false} FailuresSnoc(os: Oracle, before: seq<Call>, calls: seq<Call>, c: Call)
    ensures Failures(os, before, calls + [c]) == Failures(os, before, calls) + ErrorList(os(before + calls, c))
  {
    assert (calls + [c])[..|calls|] == calls;
  }

  /** A single call reports its own outcome. */
  lemma {:induction false} OneFailure(os: Oracle, before: seq<Call>, c: Call)
    ensures Failures(os, before, [c]) == ErrorList(os(before, c))
  {
    assert [c][..0] == [];
    assert before + [c][..0] == before;
  }
}
