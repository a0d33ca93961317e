# multicast — a verified model of the membership and fan-out logic

This project models the core of the Go package `multicast` (`multicast.go`). It covers:

- a UDP socket that joins one multicast group on several network interfaces;
- a write operation that sends each datagram once through every member interface.

The model has two sides:

- **The decisions, modelled exactly:**
  - which arguments are rejected, and in what order;
  - which control handle a connection gets;
  - which interfaces are candidates;
  - which joins are attempted, and how the join failures are tallied;
  - which sends a write makes, and how the errors are gathered;
  - what closing does to the handles.
- **The operating system, modelled as an oracle:**
  - every socket, control-handle and host call is recorded as a `Call` value (`Socket.Call`);
  - the outcome of a call is given by `os: Oracle`, a function of the calls made before it and the call itself (`None` for success, `Some(error)` for failure);
  - a connection keeps the calls made on its socket in its `trace` field, so every contract states both the exact sequence of calls and the error returned for any behaviour of the system.

The Go runtime's platform name (`runtime.GOOS`) is a parameter of the write operation.

Modules:

- `Wrappers`: `Option` and `Result`.
- `Errors`: the error values, and `JoinErrors`, which stands for `errors.Join`.
- `Net`: interfaces, UDP addresses and interface flags.
- `Socket`: the family, the calls and the oracle. It also defines `Failures`, the errors a sequence of calls reports, with its laws.
- `Enumeration`: listing the host's multicast-capable interfaces.
- `Membership`: the joins of an open, and the tally of their failures.
- `FanOut`: the sends of a multicast write.
- `Multicast`: the class `UDPConn`, the open operation and the accessors.

A nil pointer argument, and a nil `ifaces` list, is `None` in the model; a nil `buf` is the empty sequence, which Go treats the same as an empty one (only its length is tested). A nil control handle is a `false` `ipv4conn`/`ipv6conn` flag.

The members after an open are the candidate list followed by the candidates whose join succeeded. The connection is created with `ifaces` set to the candidates (multicast.go:71), and each successful join appends its interface once more (multicast.go:132). The model follows the code here: a partial join of `N` candidates with `k` failures leaves `2N - k` members, not `N - k`.

The code also allows more errors than sends. On the set-then-send path, one member can contribute two errors: a failed interface selection and a failed send. So a write with `j` failing members can report more than `j` errors; `FanOut.FallbackTwoErrorsPerMember` exhibits it.

## Model

| member | source | states |
|---|---|---|
| Multicast.ListenMulticastUDPIfaces | multicast.go:36-83 | The checks and their outcomes, in order:<br>1. A nil address is rejected first, with no call made.<br>2. A network other than "udp4"/"udp6" is rejected, with no call made.<br>3. A failed bind returns its error.<br>4. When no list is given and listing the host interfaces fails, the call fails; the socket bound before stays open.<br>On success: the connection is fresh, its only control handle is the one of its network, its members are the candidates followed by the candidates that joined, its calls are exactly the bind calls followed by one join per candidate (no close), and no error is returned, even after a partial failure. The connection exists exactly when at least one join succeeded. Otherwise the joins' errors are returned, and the calls are the bind calls, the joins and the close. |
| Multicast.UDPConn.constructor | multicast.go:59-74 | Exactly one control handle is present, the one matching the network; the member list is the candidate list. |
| Multicast.UDPConn.JoinMulticastGroup | multicast.go:109-134 | A nil interface, then a nil group, fails with no call and no change, on an open or a closed connection. Otherwise exactly one join call is made through the family's handle. On success the interface is appended to the members; on failure the members are unchanged and the join's error is returned. |
| Multicast.UDPConn.JoinIfaces | multicast.go:218-236 | One join attempt per candidate, in order, whatever earlier attempts returned. The members grow by exactly the candidates that joined, in order. The verdict is `Tally` of the attempts' errors. |
| Membership.Tally | multicast.go:228-235 | With `fails` failures out of `total` attempts: not ok exactly when `fails == total` (the empty list included), with the total-failure error. Ok with a partial-failure error exactly when `0 < fails < total`. Ok with no error exactly when `fails == 0 < total`. |
| Membership.JoinPlanAt | multicast.go:222-223 | The attempts are exactly one join per candidate, the i-th for the i-th candidate. |
| Membership.JoinTally | multicast.go:222-227 | Every candidate either joins or is counted as exactly one failure. |
| Membership.JoinFailuresAreFailures | multicast.go:223-225 | The failures counted candidate by candidate are exactly the errors the join calls report, in order. |
| Membership.AllJoinsFailedIff | multicast.go:222-229 | The total-failure test `fails == len(ifaces)` holds exactly when every join call of the round reports an error. |
| Membership.JoinedAllIff | multicast.go:222-227 | Every candidate joins exactly when no attempt fails. |
| Membership.TallyJoined | multicast.go:228-235 | The round is ok exactly when at least one candidate joined. It reports no error exactly when every candidate joined and there was at least one. |
| Membership.JoinAdvance | multicast.go:222-227 | Loop-step helper for `JoinIfaces`: one more attempt extends the calls, the members and the failures exactly as the definitions do. |
| Membership.JoinStep | multicast.go:222-227 | Loop-step helper (one unfolding of the definitions): the attempts, the failures and the members of the first `i + 1` candidates extend those of the first `i` by candidate `i`'s outcome. |
| Enumeration.MulticastInterfaces | multicast.go:238-251 | An enumeration error is returned unchanged with no list. Otherwise the result is the sub-sequence of up-and-multicast interfaces, collected by the loop. |
| Enumeration.EligibleSound | multicast.go:244-248 | Every kept interface is in the enumeration and has both the up and the multicast flag. |
| Enumeration.EligibleComplete | multicast.go:244-248 | Every enumerated interface with both flags is kept. |
| Enumeration.EligibleAppend | multicast.go:244-248 | Filtering distributes over concatenation, so the enumeration order is kept. |
| Multicast.UDPConn.Close | multicast.go:86-98 | Each present control handle is closed and cleared, then the socket is closed whatever the handles reported. All errors are joined. Afterwards no handle is present, so a second close only closes the socket. |
| Multicast.CloseFailures | multicast.go:86-98 | The errors of a close are exactly the errors of its calls, in order. |
| Multicast.CloseHandlesFailures | multicast.go:88-95 | The errors of the handle closes are exactly those calls' errors, in order. |
| Multicast.UDPConn.SetMulticastTTL | multicast.go:138-147 | One call through the family's handle: TTL for IPv4, hop limit for IPv6. Its error is returned and nothing else changes. |
| Multicast.UDPConn.SetMulticastHopLimit | multicast.go:150-152 | Exactly the calls, state and error of `SetMulticastTTL` with the same value. |
| Multicast.UDPConn.SetMulticastLoopback | multicast.go:156-165 | One loopback call through the family's handle; its error is returned and nothing else changes. |
| Multicast.UDPConn.WriteToMulticast | multicast.go:170-216 | A nil address fails with no call. An empty buffer succeeds with no call (both also on a closed connection). Otherwise the platform decides the path: "darwin", "ios" and "linux" select the interface per packet, every other platform sets the outbound interface before each send. The calls are the fan-out plan of that path for the members in member order, and the error joins every error those calls report. Members are unchanged. |
| FanOut.FanOutPerPacketAt | multicast.go:183-192 | Per-packet interface selection (the path taken on "darwin", "ios" and "linux"): exactly one send per member, in member order, each carrying that member's index. |
| FanOut.FanOutFallbackAt | multicast.go:187-192 | Set-then-send: for each member in order, the outbound interface is set to that member and one send follows. There are `2 * len(members)` calls, so no member is skipped. |
| FanOut.FanOutErrorBound | multicast.go:183-195 | A write reports at most one error per member with per-packet selection, and at most two without. |
| FanOut.FallbackTwoErrorsPerMember | multicast.go:188-194 | When every call fails, one member on the set-then-send path reports two errors: the send still runs after a failed selection. |
| FanOut.FanOutErrorsAreFailures | multicast.go:183-195 | The errors gathered member by member are exactly the errors of the plan's calls, in order. |
| FanOut.SendFailures | multicast.go:184-194 | The errors for one member are exactly those of its own calls. |
| FanOut.FanOutStep | multicast.go:183-195 | Loop-step helper (one unfolding of the definitions): the plan and the errors of the first `i + 1` members extend those of the first `i` by member `i`'s calls. |
| FanOut.PerPacketAdvance | multicast.go:184-194 | Loop-step helper for `WriteToMulticast`: one more per-packet send keeps the loop's calls and errors equal to the plan's. |
| FanOut.FallbackPlanAdvance | multicast.go:187-192 | Loop-step helper for `WriteToMulticast`: one more selection and send keep the loop's calls equal to the plan. |
| FanOut.FallbackErrorsAdvance | multicast.go:187-194 | Loop-step helper for `WriteToMulticast`: one more selection and send keep the loop's errors equal to the plan's. |
| Socket.FailuresNoneIff | multicast.go:196 | No error is reported (the joined error is nil) exactly when every call succeeds. |
| Socket.FailuresAllIff | multicast.go:222-228 | One error per call is reported exactly when every call fails (used by `Membership.AllJoinsFailedIff`). |
| Socket.FailuresBound | multicast.go:222-227 | Each call reports at most one error. |
| Socket.FailuresAppend | multicast.go:183-195 | The errors of consecutive call sequences are the concatenation of their errors. |
| Socket.OneFailure | multicast.go:119-121 | A single call reports exactly its own outcome. |
| Multicast.Network | multicast.go:254-259 | "" for a nil connection; otherwise the connection's network, which is "udp4" or "udp6". |
| Multicast.Interfaces | multicast.go:262-270 | Nil for a nil connection; otherwise a sequence equal to the members. |

## Left out

- The system calls themselves (`net.ListenUDP`, `net.Interfaces`, and the `ipv4`/`ipv6` packet-connection joins, sends, option setters and closes) are outcomes of the oracle. TTL, loopback and delivery semantics are not modelled.
- Error texts and `%w` wrapping are replaced by structured `Error` values.
- The Go code nests its joins of errors: `joinIfaces` calls `errors.Join(errs, err)` once per failure (multicast.go:225) and `Close` joins three times (multicast.go:89, 93, 96), each building a joined error inside the previous one; only the write path joins a flat list (multicast.go:196, 212). The model flattens every such nest into one ordered list of the underlying errors, which gives the same message text and the same `errors.Is` answers but not the same nested structure for `errors.As`/`Unwrap`. A nil error is `None`, as in Go.
- Concurrency is not modelled: every call is single-threaded. The race between concurrent writes on the set-then-send path is therefore out of scope.
- The `reuse` package (socket-option wrappers selected by build tags) and the `mdns` example program are not part of this model. They are foreign calls and command-line glue.
- The read paths (`ReadFrom`, `LocalAddr`) are not modelled; they are inherited from the embedded `net.UDPConn`.
- Multicast.ListenMulticastUDPIfaces, Multicast.UDPConn.JoinMulticastGroup: the Go connection stores the caller's slice itself (multicast.go:71), and a successful join appends in place when that slice has spare capacity (multicast.go:132). So the caller's backing array is shared with the members: appends can overwrite elements past the caller's length, and later writes by the caller change the members. The model keeps the members as a sequence value, so this aliasing is not captured.
- The copy made by `Interfaces` is a value in the model, so aliasing cannot be observed. `None` is the nil result for a nil connection; a non-nil connection always yields `Some`, as Go's `make` never returns nil.
- The IPv4 and IPv6 branches of the Go code are duplicated code. The model writes each once, parameterised by the family (`Family`).
- Use after close is modelled only where the Go code returns before touching a handle: `JoinMulticastGroup` with a nil interface or group (multicast.go:110-115) and `WriteToMulticast` with a nil address or an empty buffer (multicast.go:171-176) are allowed on a closed connection. Every path that reaches a handle (a join, a send, the option setters, `JoinIfaces`) requires an open connection (`Ready`), because on a closed one the Go code dereferences a nil handle and panics.
- `panic("unreachable")` for a network other than "udp4"/"udp6" is not modelled: it cannot occur on a connection built by `ListenMulticastUDPIfaces`, the only way the model builds one. A caller-declared zero `UDPConn` (network "") would reach it in `JoinMulticastGroup`, the option setters and `WriteToMulticast`; such a value is excluded by `Valid`.
- Multicast.UDPConn.Close: the model does not capture that the Go packet connection and the embedded socket share one file descriptor. Each close is an oracle call, so a double close shows up only as whatever the oracle reports.
- Multicast.ListenMulticastUDPIfaces: host enumeration is passed in as `host`, the result of listing the host's interfaces. The bind outcome is the oracle's answer with no earlier calls.
