/** Joining the multicast group on a list of candidate interfaces: which joins are attempted,
    which candidates end up as members, and how the failures are tallied into a verdict. */
module Membership {
  import opened Wrappers
  import opened Errors
  import opened Net
  import opened Socket

  /** The join attempts made for `cands`: one per candidate, in order. */
  function JoinPlan(fam: Family, cands: seq<Interface>, group: UDPAddr): (plan: seq<Call>)
    ensures |plan| == |cands|
    decreases |cands|
  {
    if cands == [] then []
    else
      var n := |cands| - 1;
      JoinPlan(fam, cands[..n], group) + [JoinGroup(fam, cands[n], group)]
  }

  /** The candidates whose join succeeded, in order, when the joins follow `before`. */
  function Joined(os: Oracle, before: seq<Call>, fam: Family, cands: seq<Interface>, group: UDPAddr): seq<Interface>
    decreases |cands|
  {
    if cands == [] then []
    else
      var n := |cands| - 1;
      var outcome := os(before + JoinPlan(fam, cands[..n], group), JoinGroup(fam, cands[n], group));
      Joined(os, before, fam, cands[..n], group) + (if outcome.None? then [cands[n]] else [])
  }

  /** The errors reported by the joins, in order, when they follow `before`: one per failed candidate. */
  function JoinFailures(os: Oracle, before: seq<Call>, fam: Family, cands: seq<Interface>, group: UDPAddr): seq<Error>
    decreases |cands|
  {
    if cands == [] then []
    else
      var n := |cands| - 1;
      var outcome := os(before + JoinPlan(fam, cands[..n], group), JoinGroup(fam, cands[n], group));
      JoinFailures(os, before, fam, cands[..n], group) + ErrorList(outcome)
  }

  /** The verdict of a round of joins: whether the connection is usable, and the error reported. */
  datatype Verdict = Verdict(ok: bool, err: Option<Error>)

  /** The verdict after `total` attempts that reported `errs`, one error per failed attempt. */
  function Tally(errs: seq<Error>, total: nat): (v: Verdict)
    requires |errs| <= total
    ensures !v.ok <==> |errs| == total
    ensures v.ok && v.err.Some? <==> 0 < |errs| < total
    ensures v.ok && v.err.None? <==> |errs| == 0 < total
    ensures !v.ok ==> v.err == Some(JoinedNone(errs))
    ensures v.err.Some? && v.ok ==> v.err == Some(JoinedSome(|errs|, total, errs))
  {
    var fails := |errs|;
    if fails == total then Verdict(false, Some(JoinedNone(errs)))
    else if errs != [] && fails < total then Verdict(true, Some(JoinedSome(fails, total, errs)))
    else Verdict(true, None)
  }

  /** Every candidate is attempted, in order, whatever the outcome of the earlier attempts. */
  lemma {:induction false} JoinPlanAt(fam: Family, cands: seq<Interface>, group: UDPAddr)
    ensures |JoinPlan(fam, cands, group)| == |cands|
    ensures forall i :: 0 <= i < |cands| ==> JoinPlan(fam, cands, group)[i] == JoinGroup(fam, cands[i], group)
    decreases |cands|
  {
    if cands != [] {
      var n := |cands| - 1;
      JoinPlanAt(fam, cands[..n], group);
    }
  }

  /** Each candidate is either a member afterwards or counted as one failure, never both. */
  lemma {:induction false} JoinTally(os: Oracle, before: seq<Call>, fam: Family, cands: seq<Interface>, group: UDPAddr)
    ensures |Joined(os, before, fam, cands, group)| + |JoinFailures(os, before, fam, cands, group)| == |cands|
    decreases |cands|
  {
    if cands != [] {
      JoinTally(os, before, fam, cands[..|cands| - 1], group);
    }
  }

  /** The errors collected candidate by candidate are exactly the errors the join attempts report. */
  lemma {:induction false} JoinFailuresAreFailures(os: Oracle, before: seq<Call>, fam: Family, cands: seq<Interface>, group: UDPAddr)
    ensures JoinFailures(os, before, fam, cands, group) == Failures(os, before, JoinPlan(fam, cands, group))
    decreases |cands|
  {
    if cands != [] {
      var n := |cands| - 1;
      var p := JoinPlan(fam, cands[..n], group);
      var c := JoinGroup(fam, cands[n], group);
      JoinFailuresAreFailures(os, before, fam, cands[..n], group);
      FailuresAppend(os, before, p, [c]);
      OneFailure(os, before + p, c);
    }
  }

  /** Every candidate is counted as failed (the total-failure test of a round) exactly when every
      join call of the round reports an error. */
  lemma {:induction false} AllJoinsFailedIff(os: Oracle, before: seq<Call>, fam: Family, cands: seq<Interface>, group: UDPAddr)
    ensures |JoinFailures(os, before, fam, cands, group)| == |cands| <==>
            forall i :: 0 <= i < |cands| ==>
              os(before + JoinPlan(fam, cands, group)[..i], JoinGroup(fam, cands[i], group)).Some?
  {
    var plan := JoinPlan(fam, cands, group);
    JoinFailuresAreFailures(os, before, fam, cands, group);
    JoinPlanAt(fam, cands, group);
    FailuresAllIff(os, before, plan);
  }

  /** How one more candidate extends the attempts, the errors and the members. */
  lemma {:induction false} JoinStep(os: Oracle, before: seq<Call>, fam: Family, cands: seq<Interface>, i: nat, group: UDPAddr)
    requires i < |cands|
    ensures JoinPlan(fam, cands[..i + 1], group) == JoinPlan(fam, cands[..i], group) + [JoinGroup(fam, cands[i], group)]
    ensures JoinFailures(os, before, fam, cands[..i + 1], group) ==
            JoinFailures(os, before, fam, cands[..i], group) +
            ErrorList(os(before + JoinPlan(fam, cands[..i], group), JoinGroup(fam, cands[i], group)))
    ensures Joined(os, before, fam, cands[..i + 1], group) ==
            Joined(os, before, fam, cands[..i], group) +
            (if os(before + JoinPlan(fam, cands[..i], group), JoinGroup(fam, cands[i], group)).None? then [cands[i]] else [])
  {
    assert cands[..i + 1][..i] == cands[..i];
  }

  /** One more join attempt keeps the bookkeeping of a round of joins in step with the definitions:
      the attempts made, the members added and the errors collected. */
  lemma {:induction false} JoinAdvance(os: Oracle, before: seq<Call>, fam: Family, cands: seq<Interface>, i: nat, group: UDPAddr,
                                       trace: seq<Call>, members: seq<Interface>, base: seq<Interface>, errs: seq<Error>,
                                       outcome: Option<Error>)
    requires i < |cands|
    requires trace == before + JoinPlan(fam, cands[..i], group)
    requires members == base + Joined(os, before, fam, cands[..i], group)
    requires errs == JoinFailures(os, before, fam, cands[..i], group)
    requires outcome == os(trace, JoinGroup(fam, cands[i], group))
    ensures trace + [JoinGroup(fam, cands[i], group)] == before + JoinPlan(fam, cands[..i + 1], group)
    ensures (if outcome.None? then members + [cands[i]] else members) == base + Joined(os, before, fam, cands[..i + 1], group)
    ensures errs + ErrorList(outcome) == JoinFailures(os, before, fam, cands[..i + 1], group)
  {
    JoinStep(os, before, fam, cands, i, group);
  }

  /** All candidates become members exactly when no join reports an error. */
  lemma {:induction false} JoinedAllIff(os: Oracle, before: seq<Call>, fam: Family, cands: seq<Interface>, group: UDPAddr)
    ensures Joined(os, before, fam, cands, group) == cands <==> JoinFailures(os, before, fam, cands, group) == []
    decreases |cands|
  {
    if cands != [] {
      var n := |cands| - 1;
      var p := cands[..n];
      var outcome := os(before + JoinPlan(fam, p, group), JoinGroup(fam, cands[n], group));
      assert JoinFailures(os, before, fam, cands, group) == JoinFailures(os, before, fam, p, group) + ErrorList(outcome);
      if JoinFailures(os, before, fam, cands, group) == [] {
        assert Joined(os, before, fam, cands, group) == Joined(os, before, fam, p, group) + [cands[n]];
        JoinedAllIff(os, before, fam, p, group);
        assert cands == p + [cands[n]];
      } else {
        JoinTally(os, before, fam, cands, group);
      }
    }
  }

  /** The round is usable exactly when at least one candidate joined; it reports no error exactly
      when every candidate joined and there was at least one. */
  lemma {:induction false} TallyJoined(os: Oracle, before: seq<Call>, fam: Family, cands: seq<Interface>, group: UDPAddr)
    ensures |JoinFailures(os, before, fam, cands, group)| <= |cands|
    ensures var v := Tally(JoinFailures(os, before, fam, cands, group), |cands|);
            && (v.ok <==> Joined(os, before, fam, cands, group) != [])
            && (v.err.None? <==> Joined(os, before, fam, cands, group) == cands != [])
  {
    JoinTally(os, before, fam, cands, group);
    JoinedAllIff(os, before, fam, cands, group);
  }
}
