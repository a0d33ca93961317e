/** Sending one payload through every member interface: which calls are made, on each platform,
    and how their errors are collected. */
module FanOut {
  import opened Wrappers
  import opened Errors
  import opened Net
  import opened Socket

  /** Platforms whose control handle can carry the outbound interface index with each datagram. */
  predicate PerPacketIfIndex(goos: string)
  {
    goos == "darwin" || goos == "ios" || goos == "linux"
  }

  /** The calls made for one member. With per-packet selection the datagram carries the member's
      index; otherwise the socket-wide outbound interface is set first and the datagram carries
      index 0 (the control message's index is never set on that path). */
  function SendCalls(perPacket: bool, fam: Family, m: Interface, buf: seq<Byte>, dst: UDPAddr): seq<Call>
  {
    if perPacket then [WriteTo(fam, buf, m.index, dst)]
    else [SetInterface(fam, m), WriteTo(fam, buf, 0, dst)]
  }

  /** The calls made for `members`, member by member, in order. */
  function FanOutPlan(perPacket: bool, fam: Family, members: seq<Interface>, buf: seq<Byte>, dst: UDPAddr): seq<Call>
    decreases |members|
  {
    if members == [] then []
    else
      var n := |members| - 1;
      FanOutPlan(perPacket, fam, members[..n], buf, dst) + SendCalls(perPacket, fam, members[n], buf, dst)
  }

  /** The errors reported for one member when its calls follow `before`. */
  function MemberErrors(os: Oracle, before: seq<Call>, perPacket: bool, fam: Family, m: Interface, buf: seq<Byte>, dst: UDPAddr): seq<Error>
  {
    if perPacket then ErrorList(os(before, WriteTo(fam, buf, m.index, dst)))
    else ErrorList(os(before, SetInterface(fam, m))) + ErrorList(os(before + [SetInterface(fam, m)], WriteTo(fam, buf, 0, dst)))
  }

  /** The errors collected over a round, member by member. */
  function FanOutErrors(os: Oracle, before: seq<Call>, perPacket: bool, fam: Family, members: seq<Interface>, buf: seq<Byte>, dst: UDPAddr): seq<Error>
    decreases |members|
  {
    if members == [] then []
    else
      var n := |members| - 1;
      FanOutErrors(os, before, perPacket, fam, members[..n], buf, dst) +
      MemberErrors(os, before + FanOutPlan(perPacket, fam, members[..n], buf, dst), perPacket, fam, members[n], buf, dst)
  }

  /** With per-packet selection: exactly one datagram per member, in member order, each carrying
      that member's interface index. */
  lemma {:induction false} FanOutPerPacketAt(fam: Family, members: seq<Interface>, buf: seq<Byte>, dst: UDPAddr)
    ensures |FanOutPlan(true, fam, members, buf, dst)| == |members|
    ensures forall i :: 0 <= i < |members| ==>
              FanOutPlan(true, fam, members, buf, dst)[i] == WriteTo(fam, buf, members[i].index, dst)
    decreases |members|
  {
    if members != [] {
      FanOutPerPacketAt(fam, members[..|members| - 1], buf, dst);
    }
  }

  /** Without it: for each member in order, the outbound interface is set to that member and then
      one datagram is sent. */
  lemma {:induction false} FanOutFallbackAt(fam: Family, members: seq<Interface>, buf: seq<Byte>, dst: UDPAddr)
    ensures |FanOutPlan(false, fam, members, buf, dst)| == 2 * |members|
    ensures forall i :: 0 <= i < |members| ==>
              && FanOutPlan(false, fam, members, buf, dst)[2 * i] == SetInterface(fam, members[i])
              && FanOutPlan(false, fam, members, buf, dst)[2 * i + 1] == WriteTo(fam, buf, 0, dst)
    decreases |members|
  {
    if members != [] {
      FanOutFallbackAt(fam, members[..|members| - 1], buf, dst);
    }
  }

  /** Sending to one more member appends its calls, and their errors, to the round. */
  lemma {:induction false} FanOutStep(os: Oracle, before: seq<Call>, perPacket: bool, fam: Family, members: seq<Interface>, i: nat,
                                      buf: seq<Byte>, dst: UDPAddr)
    requires i < |members|
    ensures FanOutPlan(perPacket, fam, members[..i + 1], buf, dst) ==
            FanOutPlan(perPacket, fam, members[..i], buf, dst) + SendCalls(perPacket, fam, members[i], buf, dst)
    ensures FanOutErrors(os, before, perPacket, fam, members[..i + 1], buf, dst) ==
            FanOutErrors(os, before, perPacket, fam, members[..i], buf, dst) +
            MemberErrors(os, before + FanOutPlan(perPacket, fam, members[..i], buf, dst), perPacket, fam, members[i], buf, dst)
  {
    assert members[..i + 1][..i] == members[..i];
  }

  /** With per-packet selection, one more member's datagram keeps a round's bookkeeping in step. */
  lemma {:induction false} PerPacketAdvance(os: Oracle, before: seq<Call>, fam: Family, members: seq<Interface>, i: nat,
                                            buf: seq<Byte>, dst: UDPAddr, trace: seq<Call>, errs: seq<Error>)
    requires i < |members|
    requires trace == before + FanOutPlan(true, fam, members[..i], buf, dst)
    requires errs == FanOutErrors(os, before, true, fam, members[..i], buf, dst)
    ensures trace + [WriteTo(fam, buf, members[i].index, dst)] == before + FanOutPlan(true, fam, members[..i + 1], buf, dst)
    ensures errs + ErrorList(os(trace, WriteTo(fam, buf, members[i].index, dst))) ==
            FanOutErrors(os, before, true, fam, members[..i + 1], buf, dst)
  {
    FanOutStep(os, before, true, fam, members, i, buf, dst);
  }

  /** Without per-packet selection, one more member's interface selection and datagram keep a
      round's calls in step. */
  lemma {:induction false} FallbackPlanAdvance(fam: Family, members: seq<Interface>, i: nat, buf: seq<Byte>, dst: UDPAddr,
                                               before: seq<Call>, trace: seq<Call>)
    requires i < |members|
    requires trace == before + FanOutPlan(false, fam, members[..i], buf, dst)
    ensures trace + [SetInterface(fam, members[i])] + [WriteTo(fam, buf, 0, dst)] ==
            before + FanOutPlan(false, fam, members[..i + 1], buf, dst)
  {
    assert members[..i + 1][..i] == members[..i];
  }

  /** Without per-packet selection, the errors of one more member's interface selection and
      datagram keep a round's errors in step. */
  lemma {:induction false} FallbackErrorsAdvance(os: Oracle, before: seq<Call>, fam: Family, members: seq<Interface>, i: nat,
                                                 buf: seq<Byte>, dst: UDPAddr, trace: seq<Call>, errs: seq<Error>)
    requires i < |members|
    requires trace == before + FanOutPlan(false, fam, members[..i], buf, dst)
    requires errs == FanOutErrors(os, before, false, fam, members[..i], buf, dst)
    ensures errs + ErrorList(os(trace, SetInterface(fam, members[i])))
                 + ErrorList(os(trace + [SetInterface(fam, members[i])], WriteTo(fam, buf, 0, dst))) ==
            FanOutErrors(os, before, false, fam, members[..i + 1], buf, dst)
  {
    assert members[..i + 1][..i] == members[..i];
  }

  /** The errors collected member by member are the errors the round's calls report, in order. */
  lemma {:induction false} FanOutErrorsAreFailures(os: Oracle, before: seq<Call>, perPacket: bool, fam: Family, members: seq<Interface>,
                                                   buf: seq<Byte>, dst: UDPAddr)
    ensures FanOutErrors(os, before, perPacket, fam, members, buf, dst) ==
            Failures(os, before, FanOutPlan(perPacket, fam, members, buf, dst))
    decreases |members|
  {
    if members != [] {
      var n := |members| - 1;
      var p := FanOutPlan(perPacket, fam, members[..n], buf, dst);
      var s := SendCalls(perPacket, fam, members[n], buf, dst);
      FanOutErrorsAreFailures(os, before, perPacket, fam, members[..n], buf, dst);
      FailuresAppend(os, before, p, s);
      SendFailures(os, before + p, perPacket, fam, members[n], buf, dst);
    }
  }

  /** A round reports at most one error per member with per-packet selection and at most two
      (a failed interface selection and a failed send) without it. */
  lemma {:induction false} FanOutErrorBound(os: Oracle, before: seq<Call>, perPacket: bool, fam: Family, members: seq<Interface>, buf: seq<Byte>, dst: UDPAddr)
    ensures |Failures(os, before, FanOutPlan(perPacket, fam, members, buf, dst))| <=
            (if perPacket then 1 else 2) * |members|
  {
    FailuresBound(os, before, FanOutPlan(perPacket, fam, members, buf, dst));
    if perPacket {
      FanOutPerPacketAt(fam, members, buf, dst);
    } else {
      FanOutFallbackAt(fam, members, buf, dst);
    }
  }

  /** On the set-then-send path a single member can contribute two errors: both of its calls
      are made even when the first one fails. */
  lemma {:induction false} FallbackTwoErrorsPerMember(fam: Family, m: Interface, buf: seq<Byte>, dst: UDPAddr, e: Error)
    ensures var failing: Oracle := (h: seq<Call>, c: Call) => Some(e);
            Failures(failing, [], FanOutPlan(false, fam, [m], buf, dst)) == [e, e]
  {
    var failing: Oracle := (h: seq<Call>, c: Call) => Some(e);
    var plan := FanOutPlan(false, fam, [m], buf, dst);
    assert [m][..0] == [];
    assert FanOutPlan(false, fam, [], buf, dst) == [];
    assert plan == [SetInterface(fam, m), WriteTo(fam, buf, 0, dst)];
    assert plan[..1] == [SetInterface(fam, m)];
    assert Failures(failing, [], plan[..1]) == [e] by {
      assert plan[..1][..0] == [];
    }
  }
  /** The errors of the calls made for one member, call by call. */
  lemma {:induction false} SendFailures(os: Oracle, before: seq<Call>, perPacket: bool, fam: Family, m: Interface, buf: seq<Byte>, dst: UDPAddr)
    ensures Failures(os, before, SendCalls(perPacket, fam, m, buf, dst)) == MemberErrors(os, before, perPacket, fam, m, buf, dst)
  {
    if perPacket {
      OneFailure(os, before, WriteTo(fam, buf, m.index, dst));
    } else {
      FailuresAppend(os, before, [SetInterface(fam, m)], [WriteTo(fam, buf, 0, dst)]);
      OneFailure(os, before, SetInterface(fam, m));
      OneFailure(os, before + [SetInterface(fam, m)], WriteTo(fam, buf, 0, dst));
      assert [SetInterface(fam, m)] + [WriteTo(fam, buf, 0, dst)] == SendCalls(perPacket, fam, m, buf, dst);
    }
  }
}
