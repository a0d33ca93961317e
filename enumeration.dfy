/** Listing the host interfaces eligible for multicast: those that are up and multicast-capable,
    in the order the host enumerates them. */
module Enumeration {
  import opened Wrappers
  import opened Errors
  import opened Net

  /** The multicast-capable interfaces of `s`, in their order in `s`. */
  function Eligible(s: seq<Interface>): seq<Interface>
    decreases |s|
  {
    if s == [] then []
    else
      var n := |s| - 1;
      Eligible(s[..n]) + (if MulticastCapable(s[n]) then [s[n]] else [])
  }

  /** Filtering distributes over concatenation: the order of `s` is kept. */
  lemma {:induction false} EligibleAppend(a: seq<Interface>, b: seq<Interface>)
    ensures Eligible(a + b) == Eligible(a) + Eligible(b)
    decreases |b|
  {
    if b == [] {
      assert a + b == a;
    } else {
      var n := |b| - 1;
      assert (a + b)[..|a| + n] == a + b[..n];
      assert (a + b)[|a| + n] == b[n];
      EligibleAppend(a, b[..n]);
    }
  }

  /** Only multicast-capable interfaces of `s` are kept. */
  lemma {:induction false} EligibleSound(s: seq<Interface>)
    ensures forall x :: x in Eligible(s) ==> x in s && MulticastCapable(x)
    decreases |s|
  {
    if s != [] {
      var n := |s| - 1;
      EligibleSound(s[..n]);
      assert forall x :: x in s[..n] ==> x in s;
    }
  }

  /** Every multicast-capable interface of `s` is kept. */
  lemma {:induction false} EligibleComplete(s: seq<Interface>)
    ensures forall x :: x in s && MulticastCapable(x) ==> x in Eligible(s)
    decreases |s|
  {
    if s != [] {
      var n := |s| - 1;
      EligibleComplete(s[..n]);
      assert s == s[..n] + [s[n]];
      assert forall x :: x in s ==> x in s[..n] || x == s[n];
    }
  }

  /** The enumeration with `host` as the result of listing the host's interfaces: its error is
      passed on unchanged, otherwise the eligible interfaces are collected one by one. */
  method MulticastInterfaces(host: Result<seq<Interface>, Error>) returns (r: Result<seq<Interface>, Error>)
    ensures host.Failure? ==> r == Failure(host.error)
    ensures host.Success? ==> r.Success? && r.value == Eligible(host.value)
  {
    if host.Failure? {
      return Failure(host.error);
    }
    var ifaces := host.value;
    var mifaces: seq<Interface> := [];
    for i := 0 to |ifaces|
      invariant mifaces == Eligible(ifaces[..i])
    {
      assert ifaces[..i + 1][..i] == ifaces[..i];
      if ifaces[i].flags & FlagUp != 0 && ifaces[i].flags & FlagMulticast != 0 {
        mifaces := mifaces + [ifaces[i]];
      }
    }
    assert ifaces[..|ifaces|] == ifaces;
    return Success(mifaces);
  }
}
