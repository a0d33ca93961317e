/** A UDP socket joined to a multicast group on several interfaces, with a fan-out write path.
    Socket, control-handle and host calls are recorded as `Call`s and their outcomes come from an
    `Oracle`; the runtime platform name is a parameter. */
module Multicast {
  import opened Wrappers
  import opened Errors
  import opened Net
  import opened Socket
  import opened Enumeration
  import opened Membership
  import opened FanOut

  predicate ValidNetwork(network: string)
  {
    network == "udp4" || network == "udp6"
  }

  function FamilyOf(network: string): Family
  {
    if network == "udp4" then V4 else V6
  }

  /** The calls a close makes: each control handle still present, then the socket itself. */
  function CloseCalls(hasV4: bool, hasV6: bool): seq<Call>
  {
    (if hasV4 then [CloseHandle(V4)] else []) + (if hasV6 then [CloseHandle(V6)] else []) + [CloseSocket]
  }

  /** The errors a close reports, call by call, when its calls follow `before`. */
  function CloseErrors(os: Oracle, before: seq<Call>, hasV4: bool, hasV6: bool): seq<Error>
  {
    var c4 := if hasV4 then [CloseHandle(V4)] else [];
    var c6 := if hasV6 then [CloseHandle(V6)] else [];
    (if hasV4 then ErrorList(os(before, CloseHandle(V4))) else []) +
    (if hasV6 then ErrorList(os(before + c4, CloseHandle(V6))) else []) +
    ErrorList(os(before + c4 + c6, CloseSocket))
  }

  /** The multicast-TTL call of a family: TTL for IPv4, hop limit for IPv6. */
  function TtlCall(fam: Family, ttl: int): Call
  {
    if fam == V4 then SetTTL(ttl) else SetHopLimit(ttl)
  }

  class UDPConn {
    /** "udp4" or "udp6"; never changes. */
    const network: string
    /** The member interfaces, in order; duplicates are kept. */
    var ifaces: seq<Interface>
    /** Whether the IPv4 control handle is present (non-nil). */
    var ipv4conn: bool
    /** Whether the IPv6 control handle is present (non-nil). */
    var ipv6conn: bool
    /** The calls made by the open and on this socket so far, oldest first. */
    var trace: seq<Call>

    /** A handle, when present, is the one of the connection's family. */
    ghost predicate Valid()
      reads this
    {
      ValidNetwork(network) && (ipv4conn ==> network == "udp4") && (ipv6conn ==> network == "udp6")
    }

    /** Open and not yet closed: the handle of the connection's family is present. */
    ghost predicate Ready()
      reads this
    {
      Valid() && (if network == "udp4" then ipv4conn else ipv6conn)
    }

    /** A freshly bound connection: exactly one control handle, the one matching `network`. */
    constructor (network: string, ifaces: seq<Interface>, trace: seq<Call>)
      requires ValidNetwork(network)
      ensures Ready()
      ensures ipv4conn == (network == "udp4") && ipv6conn == (network == "udp6")
      ensures this.network == network && this.ifaces == ifaces && this.trace == trace
    {
      this.network := network;
      this.ifaces := ifaces;
      this.trace := trace;
      ipv4conn := network == "udp4";
      ipv6conn := network == "udp6";
    }

    /** Joins the group on one interface; the interface becomes a member only if the join succeeds. */
    method JoinMulticastGroup(iface: Option<Interface>, gaddr: Option<UDPAddr>, os: Oracle) returns (err: Option<Error>)
      requires Valid() && (iface.Some? && gaddr.Some? ==> Ready())
      modifies this
      ensures Valid() && ipv4conn == old(ipv4conn) && ipv6conn == old(ipv6conn)
      ensures iface.None? ==> err == Some(NilInterface) && ifaces == old(ifaces) && trace == old(trace)
      ensures iface.Some? && gaddr.None? ==> err == Some(NilGroup) && ifaces == old(ifaces) && trace == old(trace)
      ensures iface.Some? && gaddr.Some? ==>
                var call := JoinGroup(FamilyOf(network), iface.value, gaddr.value);
                && trace == old(trace) + [call]
                && err == os(old(trace), call)
                && ifaces == (if err.None? then old(ifaces) + [iface.value] else old(ifaces))
    {
      if iface.None? {
        return Some(NilInterface);
      }
      if gaddr.None? {
        return Some(NilGroup);
      }
      var call;
      if network == "udp4" {
        call := JoinGroup(V4, iface.value, gaddr.value);
      } else {
        call := JoinGroup(V6, iface.value, gaddr.value);
      }
      err := os(trace, call);
      trace := trace + [call];
      if err.Some? {
        return;
      }
      ifaces := ifaces + [iface.value];
    }

    /** Tries to join every candidate, counts the failures and tallies the verdict. */
    method JoinIfaces(cands: seq<Interface>, gaddr: UDPAddr, os: Oracle) returns (ok: bool, err: Option<Error>)
      requires Ready()
      modifies this
      ensures Ready() && ipv4conn == old(ipv4conn) && ipv6conn == old(ipv6conn)
      ensures trace == old(trace) + JoinPlan(FamilyOf(network), cands, gaddr)
      ensures ifaces == old(ifaces) + Joined(os, old(trace), FamilyOf(network), cands, gaddr)
      ensures |JoinFailures(os, old(trace), FamilyOf(network), cands, gaddr)| <= |cands|
      ensures Verdict(ok, err) == Tally(JoinFailures(os, old(trace), FamilyOf(network), cands, gaddr), |cands|)
    {
      var fam := FamilyOf(network);
      ghost var start := trace;
      var errs: seq<Error> := [];
      var fails := 0;
      for i := 0 to |cands|
        invariant Ready() && ipv4conn == old(ipv4conn) && ipv6conn == old(ipv6conn)
        invariant trace == start + JoinPlan(fam, cands[..i], gaddr)
        invariant ifaces == old(ifaces) + Joined(os, start, fam, cands[..i], gaddr)
        invariant errs == JoinFailures(os, start, fam, cands[..i], gaddr)
        invariant fails == |errs|
      {
        ghost var trace0, ifaces0, errs0 := trace, ifaces, errs;
        var e := JoinMulticastGroup(Some(cands[i]), Some(gaddr), os);
        if e.Some? {
          fails := fails + 1;
          errs := errs + [e.value];
        }
        JoinAdvance(os, start, fam, cands, i, gaddr, trace0, ifaces0, old(ifaces), errs0, e);
      }
      assert cands[..|cands|] == cands;
      JoinTally(os, start, fam, cands, gaddr);
      var verdict := Tally(errs, |cands|);
      ok, err := verdict.ok, verdict.err;
    }

    /** Closes the control handles still present, forgetting them, then the socket; the socket is
        closed whatever the handles report, and every error is joined into one. */
    method Close(os: Oracle) returns (err: Option<Error>)
      requires Valid()
      modifies this
      ensures Valid() && !ipv4conn && !ipv6conn && ifaces == old(ifaces)
      ensures trace == old(trace) + CloseCalls(old(ipv4conn), old(ipv6conn))
      ensures err == JoinErrors(CloseErrors(os, old(trace), old(ipv4conn), old(ipv6conn)))
      ensures CloseCalls(ipv4conn, ipv6conn) == [CloseSocket]
    {
      var errs: seq<Error> := [];
      ghost var start := trace;
      ghost var c4: seq<Call> := if ipv4conn then [CloseHandle(V4)] else [];
      ghost var c6: seq<Call> := if ipv6conn then [CloseHandle(V6)] else [];
      if ipv4conn {
        var e := os(trace, CloseHandle(V4));
        errs := errs + ErrorList(e);
        trace := trace + [CloseHandle(V4)];
        ipv4conn := false;
      }
      assert trace == start + c4;
      assert errs == (if c4 != [] then ErrorList(os(start, CloseHandle(V4))) else []);
      if ipv6conn {
        var e := os(trace, CloseHandle(V6));
        errs := errs + ErrorList(e);
        trace := trace + [CloseHandle(V6)];
        ipv6conn := false;
      }
      assert trace == start + c4 + c6;
      assert errs == (if c4 != [] then ErrorList(os(start, CloseHandle(V4))) else []) +
                     (if c6 != [] then ErrorList(os(start + c4, CloseHandle(V6))) else []);
      var e := os(trace, CloseSocket);
      errs := errs + ErrorList(e);
      trace := trace + [CloseSocket];
      err := JoinErrors(errs);
    }

    /** Sets the multicast TTL (IPv4) or hop limit (IPv6) through the family's handle. */
    method SetMulticastTTL(ttl: int, os: Oracle) returns (err: Option<Error>)
      requires Ready()
      modifies this
      ensures Ready() && ipv4conn == old(ipv4conn) && ipv6conn == old(ipv6conn) && ifaces == old(ifaces)
      ensures trace == old(trace) + [TtlCall(FamilyOf(network), ttl)]
      ensures err == os(old(trace), TtlCall(FamilyOf(network), ttl))
    {
      var call;
      if network == "udp4" {
        call := SetTTL(ttl);
      } else {
        call := SetHopLimit(ttl);
      }
      err := os(trace, call);
      trace := trace + [call];
    }

    /** The same operation under its IPv6 name. */
    method SetMulticastHopLimit(hoplim: int, os: Oracle) returns (err: Option<Error>)
      requires Ready()
      modifies this
      ensures Ready() && ipv4conn == old(ipv4conn) && ipv6conn == old(ipv6conn) && ifaces == old(ifaces)
      ensures trace == old(trace) + [TtlCall(FamilyOf(network), hoplim)]
      ensures err == os(old(trace), TtlCall(FamilyOf(network), hoplim))
    {
      err := SetMulticastTTL(hoplim, os);
    }

    /** Turns local delivery of this socket's own multicast datagrams on or off. */
    method SetMulticastLoopback(on: bool, os: Oracle) returns (err: Option<Error>)
      requires Ready()
      modifies this
      ensures Ready() && ipv4conn == old(ipv4conn) && ipv6conn == old(ipv6conn) && ifaces == old(ifaces)
      ensures trace == old(trace) + [SetLoopback(FamilyOf(network), on)]
      ensures err == os(old(trace), SetLoopback(FamilyOf(network), on))
    {
      var call;
      if network == "udp4" {
        call := SetLoopback(V4, on);
      } else {
        call := SetLoopback(V6, on);
      }
      err := os(trace, call);
      trace := trace + [call];
    }

    /** Sends `buf` to `addr` once through every member, in member order, without stopping at a
        failure, and joins all the errors. */
    method WriteToMulticast(buf: seq<Byte>, addr: Option<UDPAddr>, goos: string, os: Oracle) returns (err: Option<Error>)
      requires Valid() && (addr.Some? && |buf| > 0 ==> Ready())
      modifies this
      ensures Valid() && ipv4conn == old(ipv4conn) && ipv6conn == old(ipv6conn) && ifaces == old(ifaces)
      ensures addr.None? ==> err == Some(NilAddress) && trace == old(trace)
      ensures addr.Some? && |buf| == 0 ==> err == None && trace == old(trace)
      ensures addr.Some? && |buf| > 0 ==>
                var plan := FanOutPlan(PerPacketIfIndex(goos), FamilyOf(network), ifaces, buf, addr.value);
                && trace == old(trace) + plan
                && err == JoinErrors(Failures(os, old(trace), plan))
    {
      if addr.None? {
        return Some(NilAddress);
      }
      if |buf| == 0 {
        return None;
      }
      var dst := addr.value;
      var fam := FamilyOf(network);
      var perPacket := PerPacketIfIndex(goos);
      var errs: seq<Error> := [];
      var ifIndex := 0;  // the control message's interface index; zero until set
      ghost var start := trace;
      for ifi := 0 to |ifaces|
        invariant Ready() && ifaces == old(ifaces) && ipv4conn == old(ipv4conn) && ipv6conn == old(ipv6conn)
        invariant trace == start + FanOutPlan(perPacket, fam, ifaces[..ifi], buf, dst)
        invariant errs == FanOutErrors(os, start, perPacket, fam, ifaces[..ifi], buf, dst)
        invariant !perPacket ==> ifIndex == 0
      {
        if perPacket {
          PerPacketAdvance(os, start, fam, ifaces, ifi, buf, dst, trace, errs);
          ifIndex := ifaces[ifi].index;
        } else {
          FallbackPlanAdvance(fam, ifaces, ifi, buf, dst, start, trace);
          FallbackErrorsAdvance(os, start, fam, ifaces, ifi, buf, dst, trace, errs);
          var e := os(trace, SetInterface(fam, ifaces[ifi]));
          trace := trace + [SetInterface(fam, ifaces[ifi])];
          errs := errs + ErrorList(e);
        }
        var e := os(trace, WriteTo(fam, buf, ifIndex, dst));
        trace := trace + [WriteTo(fam, buf, ifIndex, dst)];
        errs := errs + ErrorList(e);
      }
      assert ifaces[..|ifaces|] == ifaces;
      FanOutErrorsAreFailures(os, start, perPacket, fam, ifaces, buf, dst);
      err := JoinErrors(errs);
    }
  }

  /** The network of a connection; "" for a nil connection. */
  function Network(c: UDPConn?): (s: string)
    reads c
    ensures c == null ==> s == ""
    ensures c != null ==> s == c.network
    ensures c != null && c.Valid() ==> s == "udp4" || s == "udp6"
  {
    if c == null then "" else c.network
  }

  /** A copy of the member interfaces; nil for a nil connection. */
  function Interfaces(c: UDPConn?): (r: Option<seq<Interface>>)
    reads c
    ensures r.None? <==> c == null
    ensures c != null ==> r.value == c.ifaces
  {
    if c == null then None else Some(c.ifaces)
  }

  /** The interfaces an open joins: the caller's list when one is given (even an empty one),
      otherwise the host's eligible interfaces. */
  function Candidates(ifaces: Option<seq<Interface>>, host: Result<seq<Interface>, Error>): seq<Interface>
    requires ifaces.Some? || host.Success?
  {
    if ifaces.Some? then ifaces.value else Eligible(host.value)
  }

  /** The calls an open makes before its joins: the bind, then the host enumeration when no list was given. */
  function BindCalls(network: string, ifaces: Option<seq<Interface>>, laddr: UDPAddr): seq<Call>
  {
    [Listen(network, laddr)] + (if ifaces.None? then [ListInterfaces] else [])
  }

  /** The arguments are accepted, the bind succeeds and a candidate list is obtained. */
  ghost predicate ReachesJoin(network: string, ifaces: Option<seq<Interface>>, addr: Option<UDPAddr>,
                              host: Result<seq<Interface>, Error>, os: Oracle)
  {
    addr.Some? && ValidNetwork(network) && os([], Listen(network, addr.value)).None? && (ifaces.Some? || host.Success?)
  }

  /** Opens a connection bound to `addr` and joins the group `addr` on every candidate interface.
      `host` is what listing the host's interfaces returns; it is consulted only when `ifaces` is
      None. Besides the connection and the error, the calls made are returned: on success they are
      the connection's trace. */
  method ListenMulticastUDPIfaces(network: string, ifaces: Option<seq<Interface>>, addr: Option<UDPAddr>,
                                  host: Result<seq<Interface>, Error>, os: Oracle)
    returns (conn: UDPConn?, err: Option<Error>, calls: seq<Call>)
    ensures addr.None? ==> conn == null && err == Some(NilAddress) && calls == []
    ensures addr.Some? && !ValidNetwork(network) ==> conn == null && err == Some(BadNetwork(network)) && calls == []
    ensures addr.Some? && ValidNetwork(network) && os([], Listen(network, addr.value)).Some? ==>
              conn == null && err == os([], Listen(network, addr.value)) && calls == [Listen(network, addr.value)]
    ensures addr.Some? && ValidNetwork(network) && os([], Listen(network, addr.value)).None? && ifaces.None? && host.Failure? ==>
              conn == null && err == Some(NoInterfaceList(host.error)) && calls == [Listen(network, addr.value), ListInterfaces]
    ensures conn != null ==>
              && fresh(conn) && conn.Ready() && conn.network == network && conn.trace == calls && err == None
              && conn.ipv4conn == (network == "udp4") && conn.ipv6conn == (network == "udp6")
    ensures ReachesJoin(network, ifaces, addr, host, os) ==>
              var cands := Candidates(ifaces, host);
              var bound := BindCalls(network, ifaces, addr.value);
              var plan := JoinPlan(FamilyOf(network), cands, addr.value);
              var joined := Joined(os, bound, FamilyOf(network), cands, addr.value);
              && (conn != null <==> joined != [])
              && (conn != null ==> conn.ifaces == cands + joined && calls == bound + plan)
              && (conn == null ==>
                    && err == Some(JoinedNone(JoinFailures(os, bound, FamilyOf(network), cands, addr.value)))
                    && calls == bound + plan + CloseCalls(network == "udp4", network == "udp6"))
  {
    if addr.None? {
      return null, Some(NilAddress), [];
    }
    if !ValidNetwork(network) {
      return null, Some(BadNetwork(network)), [];
    }
    var laddr := addr.value;
    calls := [Listen(network, laddr)];
    var listenErr := os([], Listen(network, laddr));
    if listenErr.Some? {
      return null, listenErr, calls;
    }
    var cands: seq<Interface>;
    if ifaces.None? {
      // the outcome of this call is `host`, not an answer of the oracle
      calls := calls + [ListInterfaces];
      var listed := MulticastInterfaces(host);
      if listed.Failure? {
        // the socket bound above stays open on this path
        return null, Some(NoInterfaceList(listed.error)), calls;
      }
      cands := listed.value;
    } else {
      cands := ifaces.value;
    }
    assert calls == BindCalls(network, ifaces, laddr);
    assert cands == Candidates(ifaces, host);
    var c := new UDPConn(network, cands, calls);
    var ok, joinErr := c.JoinIfaces(cands, laddr, os);
    TallyJoined(os, calls, FamilyOf(network), cands, laddr);
    if !ok && joinErr.Some? {
      var closeErr := c.Close(os);  // its error is dropped
      return null, joinErr, c.trace;
    }
    return c, None, c.trace;
  }

  /** The errors of the control-handle closes are the errors those calls report, in order. */
  lemma {:induction false} CloseHandlesFailures(os: Oracle, before: seq<Call>, hasV4: bool, hasV6: bool)
    ensures var c4: seq<Call> := if hasV4 then [CloseHandle(V4)] else [];
            var c6: seq<Call> := if hasV6 then [CloseHandle(V6)] else [];
            Failures(os, before, c4 + c6) ==
              (if hasV4 then ErrorList(os(before, CloseHandle(V4))) else []) +
              (if hasV6 then ErrorList(os(before + c4, CloseHandle(V6))) else [])
  {
    var c4: seq<Call> := if hasV4 then [CloseHandle(V4)] else [];
    var c6: seq<Call> := if hasV6 then [CloseHandle(V6)] else [];
    if hasV4 {
      OneFailure(os, before, CloseHandle(V4));
    }
    if hasV6 {
      FailuresSnoc(os, before, c4, CloseHandle(V6));
    } else {
      assert c4 + c6 == c4;
    }
  }

  /** The errors of a close are the errors its calls report, in order. */
  lemma {:induction false} CloseFailures(os: Oracle, before: seq<Call>, hasV4: bool, hasV6: bool)
    ensures CloseErrors(os, before, hasV4, hasV6) == Failures(os, before, CloseCalls(hasV4, hasV6))
  {
    var c4: seq<Call> := if hasV4 then [CloseHandle(V4)] else [];
    var c6: seq<Call> := if hasV6 then [CloseHandle(V6)] else [];
    CloseHandlesFailures(os, before, hasV4, hasV6);
    FailuresSnoc(os, before, c4 + c6, CloseSocket);
    assert before + (c4 + c6) == before + c4 + c6;
  }
}
