# Zapret desync planning, flow engine and lists: a verified model

The program intercepts the first packets of a client's connection and replaces them
with a *plan*: decoys the server must never read, cut pieces, pieces sent below the
receive window, reversed pieces, rewritten pieces. Whatever the configured list of ops
does, the real server must still read exactly the client's bytes. This project models
that machinery in Dafny and proves when it holds, and does the same for the engine that
decides which profile a flow gets and for the data structures underneath.

`dafny verify dfyconfig.toml` checks the whole project.

## How it is laid out

* `Types`, `Positions`, `Ops`: packets, split positions, and every op as a function on
  plan values. `PlanObject` and `Buffers` are the same ops in the form the program has
  them, a mutable plan edited by loops, each method proved equal to the function.
* `Spans`, `Rewriting`, `Receiver`: what it means for a plan to carry a byte stream,
  the reassembly and write-back of `tamper`/`tlsrec`, and a TCP receiver (section
  3.10.7.4 of RFC 9293) that trims bytes below its window, holds out-of-order bytes and
  lets a later copy overwrite an undelivered one.
* `Streams`, `StreamMeaning`, `Chains`: the pieces each op builds carry the payload; each
  op has a meaning on streams; op lists of any length, order, transport and policy.
* `Transmission`, `Marks`, `Editing`, `Policies`, `Effects`: what every op leaves on a plan,
  segment by segment and in sending order, stated on the plan before and after without the
  functions that compute it; when a run fails; and a whole run as a chain of such steps.
* `Headers`, `Decoys`, `Edges`, `Transport`: resets and header-level ops, fragment groups
  and tags of decoys; plans for SYNs and UDP, sizes; what the packet-level transport sends
  of a plan.
* `Matching`, `Flow`, `FastPath`, `Generations`, `FlowTable`, `AutoTTL`: first-match selection with
  provisional and cached verdicts, the per-packet flow state machine, strategy swaps
  against concurrent handlers, eviction, hop inference. `Selection` and `Learning` say
  criterion by criterion what matches, and over runs of packets what a flow knows, plans,
  remembers and reports.
* `Cidr`, `AddressBits`, `Hosts`, `AutoList`, `Promotion`: binary search against linear scan,
  prefixes bit by bit, the label trie, the self-learning list. `Pick`, `Scoring`: the
  strategy picker, and its winner in terms of the probe results.

Two predicates carry the planning proofs. `Spans.Holds(segs, w)` says the real segments,
ordered by start, tile `w` without a gap, whatever is below the stream or under bytes that
are still to be sent. `Receiver.Delivery` turns it into "the server reads `w`". Each op
then only has to keep `StreamMeaning.Good`: the plan carries the stream the ops so far
mean, or nothing where they blocked the packet, and replaces the original only so.

## What the proofs found

* The comment on `segResolveSinglePos` (op_fakedsplit.go:29-31) says 0 means a payload too
  short for any cut. A long payload with one position past its end also gives 0
  (`Positions.NoCutExactly`, `Positions.LongPayloadUncut`). Streams stay intact: the whole
  payload is faked instead.
* `tamper` (op_tamper.go:187-193) refuses a rewrite that changes the length once a split
  is planned, and its note advises placing it before the split op. The loader sorts every
  list by phase (load.go:344-350), so `tamper` always runs behind the splits.
  `Chains.RewriteReachesExactly` says for every list in that order when a rewrite reaches
  the server: with something planned before it, only if it keeps the length; with nothing
  planned, also if the transport owns the stream. And the advised order would not help:
  beside a split that fires, a length change is lost in either order, on a relay too
  (`Chains.RewriteOrderMatters`).
* Not every op checks for a SYN. A bare SYN is lost exactly when the list blocks it or
  applies `fakedsplit`, `fakeddisorder` or an effective `tamper` and plans no SYN behind
  the last block; a SYN that carries data exactly when some op blocks or plans a segment,
  since a planned real segment never carries the SYN flag (`Transport.SynFateExactly`,
  `Edges.SynLostByFakedsplit`, `Edges.SynWithDataLostBySplit`). The stream theorems are
  therefore about TCP packets with a payload that are not SYNs.
* The TCP ops have no guard for UDP, and the transport refuses the whole plan of a datagram
  that holds a TCP segment and forwards the application's own datagram. So one op that
  plans a segment undoes every `fake` and `udplen` of the list, exactly when it stands
  behind the last block (`Transport.DatagramFateExactly`,
  `Transport.UdpLenUndoneBySegment`); the datagram itself is lost only where the list
  blocks it.
* `run` keeps executing ops after `block`, whose documentation calls it terminal
  (op_fake.go:606-609). A fake behind it puts the whole payload back on the wire
  (`Chains.BlockUndoneByFake`); a TCP packet is dropped exactly when some block applies and
  no op behind the last one plans a segment (`Chains.BlockedExactly`).
* A cached verdict is final with respect to the host name except for a hostlist exclusion
  (`Matching.CachedVerdictIsFinal`). With respect to a protocol recognised later it is
  final exactly when the cached profile accepts that protocol and no earlier profile was
  passed over for its protocol condition only (`Matching.CachedVerdictAgainstL7`).
* The fast path hides a packet exactly when it was armed before, by a packet past the
  cutoff or a final "none", and the packet's own counters lie in the window of the profile
  that serves it (`FastPath.HiddenExactly`, for TCP and UDP, cached and provisional verdicts
  and all kinds of bounds). Against a handler without any fast path, the plans are the same
  up to the first packet that would arm it, and then there are none
  (`FastPath.AgainstOpenHandler`). With a cutoff that counts packets under a cached verdict
  that never happens (`FastPath.FastPathIsPure`); it does with a cutoff on the sequence
  number and under a provisional profile (`FastPath.FastPathNotPureForSequence`,
  `FastPath.FastPathHidesTheHost`).
* `trimLocked` is not exact least-recently-seen eviction. `FlowTable.StaysExactly` says
  which entries survive every order of iteration; one of the newest timestamp does exactly
  when at most `keep` entries share it. So the entry that triggered the sweep is safe
  exactly when the hard cap does not strike or at most 7168 live entries share its time
  (`FlowTable.NewestStampedStays`), provided the sweep starts within the time to live: the
  stamp is read before the table's lock is taken. The fallback for a pass that removes
  nothing is unreachable.
* A counter of the self-learning list adds up exactly the failures that do not come after
  the end of its window (`AutoList.FailuresAddUpExactly`), and the window starts
  where the counter does, not at any moment. So the threshold inside some window is not enough: with 3 of
  60 s, three failures inside 50 s can be split by a restart (`AutoList.FailuresMissed`).
  Twice the threshold less two is enough wherever the window lies, or less one if a
  retransmission opened the counter (`AutoList.FailuresPromote`). After a step back of the clock, failures far apart can add
  up (`AutoList.StepBackStretchesWindow`).
* A reload keeps the list a flow is watched for, so a retransmission can be reported to the
  previous strategy's list (`Generations.ReportAfterReload`); `Generations.ReportsBelong`
  says whose list a report goes to.
* `ipfrag2` chooses one position for the whole payload and marks every real segment with
  it; a segment is fragmented exactly when it alone reaches past that position, so a short
  part of a split goes out whole (`Transport.FragmentedExactly`,
  `Transport.ShortPartGoesWhole`).
* The self-learning list reports a malformed host such as "a..b" as promoted although the
  host set drops it (`AutoList.PromotionTakesEffectExactly`).

## Model

| member | source | states |
|---|---|---|
| Chains.ChainDelivers | internal/engine/engine.go:765-799 | for a data packet of an established connection, every op list, every capability set and every policy, the server ends with exactly the byte stream the list means; the original is replaced exactly when the list means something else than leaving it; the data segments of a plan that carries a stream reassemble to it, any other plan is empty; no prefix of the run delivers anything else |
| Chains.StreamPreserved | internal/desync/op_split.go:188-218 | without tamper and tlsrec, any number and order of the other ops: the server reads exactly the payload, and the data segments tile it once; it reads nothing exactly when the list blocks the packet |
| Chains.SequenceSpaceConserved | internal/desync/op_tamper.go:198-215 | on a packet-level transport no op list that does not block the packet (tamper and tlsrec with arbitrary helpers included) changes the number of stream bytes; the last data segment ends at the payload length and none passes it |
| Chains.ProxyContract | internal/engine/engine.go:524-559 | behind a stream relay every plan, block, tamper and tlsrec included, is data segments only, consecutive, ascending, from offset 0 |
| Chains.RunMeans | internal/engine/engine.go:765-799 | every step of every run keeps "the plan carries v", where v follows the stream meaning of the ops applied, degraded or skipped so far |
| Chains.ListPlans | internal/engine/engine.go:765-799 | op by op: a list means a stream exactly when an op behind its last block plans a segment, and nothing at all exactly when a block applies and none does |
| Chains.BlockedExactly | internal/desync/op_fake.go:606-632 | the packet is dropped with nothing in its place exactly when a block applies and no op behind the last one plans a segment |
| Chains.BlockUndoneByFake | internal/desync/op_fake.go:624-632 | a fake behind a block puts the whole payload back on the wire |
| Chains.RewriteReachesExactly | internal/desync/op_tamper.go:157-215 | in any list in phase order, tamper's bytes are carried up to the next rewriter, or to the server, exactly when the gate passes them (same length as the planned bytes and the payload; with nothing planned, the length gate of the transport), and otherwise the earlier bytes, or nothing where a block dropped them and nothing behind plans a segment |
| Chains.RewriteOrderMatters | internal/desync/op_tamper.go:187-193 | beside any split that fires: a rewrite in front of it is lost, one behind it arrives exactly when it keeps the length |
| Policies.ErrorsExactly | internal/engine/engine.go:765-799 | a run ends in an error exactly under the error policy with an op in the list that lacks a capability of its own row of a literal table |
| Policies.SkipIsAbsent | internal/engine/engine.go:776-780 | under the skip policy the plan is the one of the list without the ops the transport cannot honour |
| Policies.FallbackIsAbsentUnlessSplit | internal/engine/engine.go:781-791 | under the fallback policy the same holds for every op but the five split ops |
| Policies.PolicyIrrelevant | internal/engine/engine.go:773-793 | with every op honoured all policies give one plan |
| Policies.HonouredIs | internal/engine/engine.go:852-871 | the capability comparison passes exactly when the transport has each capability the op needs |
| Effects.RunLeaves | internal/engine/engine.go:765-799 | every run that does not fail is a chain of plans from the empty one on, one per op in list order, each step what the op (with the TTL it asks for), its fallback, or nothing leaves, stated independently of how it is computed; a plan that sends anything replaces the original |
| Effects.ApplyLeaves | internal/desync/types.go:313-319 | each op leaves its own effect |
| Effects.DegradeLeaves | internal/desync/types.go:321-329 | each fallback leaves its own effect, ops without one nothing |
| StreamMeaning.ApplyMeans | internal/desync/op_split.go:264-281 | each op, block and syndata included, maps a plan that carries a stream to a plan that carries the meaning of the op on that stream |
| StreamMeaning.MeaningPlans | internal/desync/op_fake.go:410-476 | an op starts a stream exactly under the guards of its Apply, and only block ends one |
| StreamMeaning.DegradeMeans | internal/desync/op_split.go:285-300 | the same for the fallbacks of the split ops |
| Receiver.Delivery | internal/desync/op_split.go:188-191 | a last-writer-wins receiver fed any plan of the shape the ops build (gap-free real ranges, overlap junk only below the stream or under bytes still to come) delivers exactly the carried bytes, and only prefixes of them on the way |
| Streams.MultiHolds | internal/desync/op_split.go:167-218 | the pieces of multisplit and multidisorder, seqovl prefix and reversed order included, carry the payload |
| Streams.FakedsplitHolds | internal/desync/op_fakedsplit.go:118-184 | the faked-split table, any altorder, one part or two, with its overlap, carries the payload |
| Streams.FakeddisorderHolds | internal/desync/op_fakedsplit.go:238-302 | the same for the disordered table |
| Streams.HostfakesplitHolds | internal/desync/op_fakedsplit.go:423-472 | the host table, host whole or cut again, either order, carries the payload |
| Rewriting.JoinedIsCarried | internal/desync/op_tamper.go:73-107 | the reassembly walk accepts a plan of length want exactly when some byte string of that length is carried, and returns that string |
| Rewriting.RewriteThenJoin | internal/desync/op_tamper.go:115-128 | after writing back an edit (same length, or growing with boundaries past the cut shifted) the reassembly accepts the new length and returns the edited payload, with every overlap prefix kept |
| Rewriting.RewriteHolds | internal/desync/op_tamper.go:287-294 | a plan that carries a stream carries the edited stream after the rewrite |
| Rewriting.RecordSplitKeepsBody | internal/proto/tls.go:281-314 | splitting a record yields five more bytes that parse as two records whose joined bodies are the old body |
| Edges.SynLostExactly | internal/desync/op_fakedsplit.go:118-184 | a bare SYN is dropped with no SYN planned exactly when the list blocks it or applies fakedsplit, fakeddisorder or an effective tamper, and applies no syndata behind its last block |
| Edges.SynLostByFakedsplit | internal/desync/op_fakedsplit.go:118-184 | fakedsplit alone does it |
| Edges.SynWithDataLostExactly | internal/desync/op_split.go:264-281 | the plan for a SYN that carries data never has a SYN in it, and claims the packet exactly when some op blocks or plans a segment |
| Edges.SynWithDataLostBySplit | internal/desync/op_split.go:264-281 | any op that plans a segment does it alone |
| Edges.DatagramPlanExactly | internal/desync/op_split.go:264-281 | the plan for a datagram holds TCP segments, and a real datagram (then one, with the bytes the list means), exactly when an op behind the last block plans one, and claims the packet exactly when some op blocks or plans anything |
| Transport.TcpPlansAccepted | internal/transport/divert/emit.go:155-198 | no list on any TCP packet makes a plan that the tiling check refuses |
| Transport.WireDelivers | internal/transport/divert/divert.go:901-951 | on a data packet the server reads from the wire what the list means |
| Transport.SynFateExactly | internal/transport/divert/emit.go:350-366 | with or without data, exactly which lists keep a SYN from leaving the machine |
| Transport.DatagramFateExactly | internal/transport/divert/emit.go:103-142 | the plan of a datagram is refused and the datagram forwarded exactly when an op behind the last block plans a TCP segment; it is lost exactly when the list blocks it and nothing behind plans anything; otherwise the one real datagram sent has the bytes the list means |
| Transport.UdpLenAlone | internal/desync/op_udp.go:40-73 | udplen alone sends the resized datagram |
| Transport.UdpLenUndoneBySegment | internal/transport/divert/emit.go:118-121 | beside any op that plans a segment, in either order, the original datagram goes out |
| Transport.FragmentedExactly | internal/desync/op_frag.go:155-163 | a real segment marked by ipfrag2 is fragmented exactly when its own header and data reach past the position chosen for the whole payload |
| Transport.ShortPartGoesWhole | internal/transport/divert/emit.go:537-547 | a two-byte part behind the default position is not |
| Edges.ResizeExact | internal/desync/op_udp.go:86-108 | resized length is the increment clamped to [1, 65535], the common prefix is kept, the tail repeats the pattern |
| Edges.FragPosInside | internal/desync/op_frag.go:88-109 | a fragment position is a positive multiple of 8; it lies strictly inside the packet exactly when the rounded configured one does, or there is a UDP payload or more than four TCP bytes |
| Edges.FragPosOutside | internal/desync/op_frag.go:88-109 | with four TCP bytes it can lie at the end of the packet |
| Edges.FragAndLengthCommute | internal/desync/op_frag.go:129-164 | udplen and ipfrag2 commute on an empty IPv4 plan that agrees on fragment positions |
| Decoys.SeqGroups | internal/desync/op_misc.go:299-319 | the groups are the dense ranking of segment ends: equal ends share a group, lower ends a lower one, no group is skipped |
| Decoys.RankUnique | internal/desync/op_misc.go:299-319 | that ranking is unique |
| Decoys.DecoysShareTheirPart | internal/desync/op_fakedsplit.go:146-181 | in every two-part faked plan each decoy has the group of the real part it covers, and the parts differ |
| Decoys.DecoysAreMarked | internal/desync/op_split.go:92-98 | on every transport, every decoy or reset a run plans goes out at least once with the TTL and fooling some op of the list asked for; real segments carry no fooling but header options meant for them and keep the real TTL, or TTL 1 where the transport only emulates disorder |
| Decoys.DecoysCarryConfigured | internal/engine/engine.go:803-834 | every decoy or reset of a run has the fooling one op is configured with and the TTL that op asks for: its own, or the resolved one with autottl |
| Positions.MultiPos | internal/desync/op_split.go:61-73 | the cut list is strictly increasing, strictly inside the payload and holds exactly the resolved positions that are inside |
| Positions.ResolveMultiPos | internal/desync/op_split.go:61-73 | the resolving loop computes that list |
| Positions.ResolveSinglePos | internal/desync/op_fakedsplit.go:32-60 | the two-pass loop computes the single cut |
| Positions.NoCutExactly | internal/desync/op_fakedsplit.go:29-31 | no cut exactly when the payload has at most one byte or the chosen position was clamped to its end |
| Positions.LongPayloadUncut | internal/desync/op_fakedsplit.go:29-31 | ten bytes with one position past the end stay uncut, unlike what the comment says |
| Positions.FindSplitPos | internal/proto/markers.go:21-73 | a resolved position never leaves the payload |
| Positions.ResolvesToPlace | internal/proto/markers.go:21-84 | every marker and offset resolve to the nearest point of the payload to the place they name, 0 without the marker; a negative absolute one counts from the end |
| Positions.SplitSpecs | internal/desync/op_split.go:40-50 | position 2 without a list, else the first 64 entries |
| Positions.SingleCutExactly | internal/desync/op_fakedsplit.go:32-60 | the single cut is the place of the first relative entry that has one, else of the first absolute one, else 1, when that lies inside the payload; else there is none |
| AutoTTL.AutoTTLExact | internal/engine/engine.go:803-834 | without autottl nothing changes; with it only the TTL does: for every observed TTL and delta it is hops plus delta, or the one-byte middle of the bounds without a sample, moved into the bounds in force (3 and 20 by default), and never 0 |
| AutoTTL.HopsFromTTL | internal/engine/engine.go:344-355 | the TTL plus the hops is the least of 64, 128 and 255 that is not below the TTL; at most 126 |
| PlanObject.Plan.TakeOverData | internal/desync/op_split.go:144-152 | drops exactly the real segments and keeps the rest in order |
| PlanObject.Plan.InsertBeforeData | internal/desync/op_fake.go:296-312 | the injected segments land right before the first real one, or at the end |
| PlanObject.Plan.EnsureData | internal/desync/op_fake.go:343-353 | adds the placeholder exactly when there is a payload and no real segment |
| PlanObject.Plan.InsertDgramsBeforeData | internal/desync/op_fake.go:315-331 | the datagram version |
| PlanObject.Plan.EnsureDgram | internal/desync/op_fake.go:356-366 | the datagram placeholder |
| PlanObject.Plan.DataIndices | internal/desync/op_tamper.go:42-66 | the in-place insertion returns the unique list of real segments sorted by start |
| PlanObject.FakeApply | internal/desync/op_fake.go:410-476 | where fake fires, one decoy per non-empty blob of the packet's family goes directly in front of the first real unit, in list order: its bytes (the modified ones for TLS), offset 0, the op's TTL and fooling, repeats clamped to [1, 1024]; the family by cases of the recognised class; and when it does not fire |
| Transmission.FakeTransmits | internal/desync/op_fake.go:410-476 | that placement and those bytes, for every plan the op starts from |
| Headers.RstJustBeforeData | internal/desync/op_fake.go:504-534 | the plan is the one that sends the payload plainly with one reset immediately before the first real segment; the server reads the same |
| PlanObject.MultiSegments | internal/desync/op_split.go:167-218 | the cutting loop builds exactly the specified pieces, and refuses exactly when the overlapped one is too long |
| PlanObject.MultiApply | internal/desync/op_split.go:329-345 | injected segments stay in front and the pieces between the resolved cuts follow, first to last for multisplit and last to first for multidisorder, each with its bytes; the overlap in force sits on the first piece, or on the one at the first cut; nothing changes when no cut resolves or the overlapped piece passes 9316 bytes |
| Transmission.MultiLeaves | internal/desync/op_split.go:329-345 | that order and those bytes, for every plan the op starts from |
| Transmission.EndsInOrder | internal/desync/op_split.go:167-218 | in sending order the real ends strictly rise for multisplit and strictly fall for multidisorder, and are exactly the resolved cuts and the end of the payload |
| PlanObject.MultiDegradeApply | internal/desync/op_split.go:355-373 | the same pieces first to last, alone and without overlap; an emulated disorder gives the first one TTL 1 |
| PlanObject.FakedsplitApply | internal/desync/op_fakedsplit.go:118-184 | the order of decoys and parts for every altorder, with a cut or without, every decoy the pattern bytes of its part, the overlap on the first part; whole when the overlapped part passes 9316 bytes; nothing over 9216 |
| PlanObject.FakeddisorderApply | internal/desync/op_fakedsplit.go:238-302 | the same with the second part and its decoys first, and the overlap on it, below the cut |
| PlanObject.SplitDegradeApply | internal/desync/op_fakedsplit.go:194-205 | two plain parts at the single cut, or nothing |
| PlanObject.HostfakesplitApply | internal/desync/op_fakedsplit.go:423-472 | what is in front of the hostname, a fake host over its bytes, and the real host (cut again where configured) and the rest in either order; the fake host is the template cut or grown to the left, or random characters with a known top-level domain from seven bytes on |
| PlanObject.HostfakesplitDegradeApply | internal/desync/op_fakedsplit.go:476-495 | the same parts in stream order without the fake |
| Transmission.FakedsplitTransmits | internal/desync/op_fakedsplit.go:118-184 | the fakedsplit script, for every plan the op starts from |
| Transmission.FakeddisorderTransmits | internal/desync/op_fakedsplit.go:238-302 | the fakeddisorder script |
| Transmission.HostfakesplitTransmits | internal/desync/op_fakedsplit.go:423-472 | the hostfakesplit script |
| Transmission.HostDecoyIs | internal/desync/op_fakedsplit.go:337-365 | the bytes of a fake hostname: template, letters, digits, dot and top-level domain in their places |
| Marks.RstMarks | internal/desync/op_fake.go:504-534 | one reset without bytes in front of the first real segment: offset 0, the op's TTL and fooling, RST (and ACK), clamped repeats |
| Marks.SynDataMarks | internal/desync/op_fake.go:559-593 | a bare SYN is sent once more with the configured bytes or sixteen zeros, real TTL, no fooling; nothing otherwise |
| PlanObject.SegSpans | internal/desync/op_tamper.go:73-94 | the running walk accepts exactly the plans whose real ranges tile [0, want) and returns each range and prefix length |
| PlanObject.SegJoinData | internal/desync/op_tamper.go:97-107 | the reassembly loop returns the specified bytes |
| PlanObject.SegRewriteData | internal/desync/op_tamper.go:115-128 | overwriting segment by segment ends in the specified rewritten plan |
| PlanObject.TamperApply | internal/desync/op_tamper.go:157-196 | nothing without a knob; alone it sends the rewritten payload, of another length only where nothing is injected; over planned segments that tile the payload it writes the rewritten bytes of what they carry, if the length stays, and changes nothing else of them |
| PlanObject.TlsRecApply | internal/desync/op_tamper.go:250-296 | nothing on a transport that injects or without a record to cut at the configured place; alone it sends the two records; over planned segments that carry the payload it writes them there, and every end from the cut on moves by five |
| PlanObject.WsSizeApply | internal/desync/op_misc.go:60-94 | before its cutoff every carrier of the window gets both values cut to their fields and nothing else changes; the payload joins the plan only when there is no carrier |
| PlanObject.TagWindow | internal/desync/op_misc.go:104-114 | tags exactly the segments that carry the window; counts none exactly when there is none |
| Marks.WsSizeMarks | internal/desync/op_misc.go:60-177 | the window rewrite for every plan the op starts from, its cutoff by cases of the kind of counter |
| Marks.IpIdMarks | internal/desync/op_misc.go:237-254 | the configured mode on every segment and nothing else |
| Marks.IpFrag2Marks | internal/desync/op_frag.go:129-164 | the payload joins the plan and every real segment or datagram gets a position that fits: the asked one rounded down to eight bytes, or the fallback |
| Marks.IpFrag1Marks | internal/desync/op_frag.go:267-325 | real packets are marked on IPv6; on IPv4 only the decoy datagrams already planned are fragmented |
| Marks.Ipv6ExtMarks | internal/desync/op_frag.go:203-233 | every real packet is marked on IPv6, nothing happens on IPv4 |
| Marks.UdpLenMarks | internal/desync/op_udp.go:40-73 | the resized datagram, for every plan the op starts from |
| Editing.TamperEdits | internal/desync/op_tamper.go:157-215 | the tamper effect, for every plan the op starts from |
| Editing.TlsRecEdits | internal/desync/op_tamper.go:250-315 | the tlsrec effect, for every plan the op starts from |
| Editing.SplitExactly | internal/proto/tls.go:281-314 | a payload splits exactly when it is one complete record and the cut is strictly inside its body; each half has the old type and version, its own length and its own bytes |
| Headers.HeaderOpsInvisible | internal/desync/op_frag.go:129-164 | ip_id, ipfrag1, ipfrag2 and the extension-header ops change no byte of any planned segment and nothing the TCP receiver reads |
| Headers.HeaderOpsReachAll | internal/desync/op_frag.go:203-233 | where such an op fires on TCP, every segment it is meant for carries its mark, the payload itself included, and nothing else differs; when the mark of ipfrag2 takes effect is Transport.FragmentedExactly |
| Headers.HeaderOpsIdempotent | internal/desync/op_frag.go:267-325 | doing one of them twice is doing it once, on TCP and UDP |
| PlanObject.UdpLenApply | internal/desync/op_udp.go:40-73 | the first real datagram, or a new one, carries the payload cut or grown with the repeated pattern within [1, 65535]; a fragment position on it is worked out again |
| PlanObject.RunOps | internal/engine/engine.go:765-799 | the loop over the op list with its three policies ends in the plan the theorems are about |
| Buffers.TilePattern | internal/desync/op_split.go:104-120 | the copy loop lays the repeated pattern down from its offset |
| Buffers.MakeFakeHost | internal/desync/op_fakedsplit.go:337-365 | template, random label and top-level domain land at the specified bytes |
| Buffers.ResizeDatagram | internal/desync/op_udp.go:86-108 | the clamping steps and the fill loop compute the specified payload |
| Matching.MatchImpliesIgnoringHost | internal/engine/match.go:40-90 | a match implies a match ignoring the host, and without inclusion lists does not need the host |
| Matching.CachedVerdictIsFinal | internal/engine/engine.go:634-668 | a verdict cached while the host is unknown is the verdict of the walk with any host: for a profile exactly when its own exclusion list does not name the host, for "none" always |
| Matching.KnownHostDecides | internal/engine/engine.go:634-668 | with a host name the verdict is the first match, or final "none" unless a list is being watched |
| Matching.ExcludedHostStaysCached | internal/engine/match.go:40-68 | an exclusion list is bypassed by a verdict cached on the SYN |
| Matching.CachedVerdictAgainstL7 | internal/engine/engine.go:634-668 | a verdict cached before the protocol is known is the verdict of the walk with a later one exactly when the cached profile accepts it and no earlier profile was passed over for its protocol condition only and accepts it; likewise for "none" |
| Matching.LateL7IsIgnored | internal/engine/engine.go:683-697 | it happens: a TLS profile in front of an unfiltered one |
| Matching.FirstMatch | internal/engine/engine.go:634-668 | the first profile that matches, or the end of the list |
| Selection.MatchIsFit | internal/engine/match.go:40-107 | a filter matches exactly when every criterion it has holds, each spelled out; an absent one accepts all |
| Selection.DecideExactly | internal/engine/engine.go:634-713 | each kind of verdict is reached exactly in its own case: cached, provisional because an earlier profile still awaits the host, watching the first self-learning candidate, none for good, none yet |
| Learning.PlannedByWhatIsKnown | internal/engine/engine.go:372-450 | over any TCP, UDP or relayed run the entry knows the last class and host brought by a packet that reached selection since the last SYN, and an uncached packet is planned by the first profile that fits exactly those and its own port, family and destination, inside its window |
| Learning.VerdictRemembered | internal/engine/engine.go:634-668 | an uncached packet leaves exactly the verdict the profiles justify: final ones cached, others open, the watched list set or cleared |
| Learning.ReportsExactly | internal/engine/engine.go:402-446 | only a retransmission is reported: to the watched list under the name known before the packet, and to the serving profile's list under the name known by then |
| Learning.CountersSinceSyn | internal/engine/engine.go:372-411 | the counters of a connection over any run: packets, packets with data, first number, number of the last packet with data |
| Learning.FirstDistanceStays | internal/engine/engine.go:325-340 | the distance is the one of the first server packet that shows any |
| Flow.ConnectionIsolation | internal/engine/engine.go:372-396 | from a SYN on, an entry of any history behaves like a fresh one through any later packets, reloads and lists; only hop count and timestamps may differ |
| FastPath.HiddenExactly | internal/engine/engine.go:412-450 | over any TCP or UDP run, with cached or provisional verdicts and any bounds: packet k would get another plan without the fast path exactly when the fast path was armed before and packet k is due |
| FastPath.AgainstOpenHandler | internal/engine/engine.go:412-450 | against a handler with no fast path on the same packets: the same plans up to the first packet that would arm it, none afterwards |
| FastPath.HiddenStep | internal/engine/engine.go:728-741 | one packet: hidden exactly when the fast path is live and the packet has payload inside the window; the packet arms the fast path exactly past the cutoff and not before the start, or at a final "none" |
| FastPath.FastPathIsPure | internal/engine/engine.go:728-761 | for TCP and UDP, for a cached verdict with a packet-counted cutoff (or none), packet k gets a plan exactly when it has payload and its own counters lie in [start, cutoff], with or without the fast path |
| FastPath.CachingSettles | internal/engine/engine.go:634-668 | caching a verdict establishes the invariant FastPathIsPure starts from, on a fresh entry, after a reload and on a SYN too |
| FastPath.FastPathNotPureForSequence | internal/engine/engine.go:743-761 | with sequence-relative bounds the fast path hides a retransmission from inside the window |
| FastPath.FastPathHidesTheHost | internal/engine/engine.go:728-741 | under a provisional profile the fast path hides the packet that names the host |
| Flow.FlowEntry.OnTCP | internal/engine/engine.go:360-464 | the handler updates the entry and chooses a profile exactly as the step function the theorems use |
| Flow.FlowEntry.OnUDP | internal/engine/engine.go:467-522 | the UDP handler updates the entry and chooses a profile exactly as its step function |
| Flow.FlowEntry.PlanStream | internal/engine/engine.go:528-560 | the relay handler likewise; its verdict is final |
| Flow.FlowEntry.Pick | internal/engine/engine.go:634-668 | the profile walk of the entry equals the specified decision and caches only final verdicts |
| Generations.LiveMeans | internal/engine/engine.go:564-572 | whatever verdict or fast path is live in a handler was decided under the handler's own generation |
| Generations.SwapSafety | internal/engine/engine.go:145-150 | in every interleaving of reloads, stale snapshots, evictions and handlers, a live cached index is used only with the profile list it was decided against, is in bounds, and is the only profile served; a live fast path was armed under the same list |
| Generations.NextKeepsInv | internal/engine/engine.go:564-572 | every atomic step keeps "the stored generation names the deciding strategy" |
| Generations.HeldEntriesStay | internal/engine/engine.go:210-239 | eviction never takes an entry away from a handler that holds it |
| Generations.ReportsBelong | internal/engine/engine.go:402-446 | in every interleaving, a list reported to is carried by the handler's own strategy or by that of the generation whose walk last set the watched list; its own for sure when that is its generation |
| Generations.ReportAfterReload | internal/engine/engine.go:411-415 | a retransmission after a reload is reported to a list the new strategy does not carry |
| FlowTable.FlowTable.TrimLocked | internal/engine/engine.go:259-309 | terminates with exactly keep entries (at least one) when above it, and with one of the outcomes of the bisection; keeps the newest timestamp; no pass removes nothing |
| FlowTable.StaysExactly | internal/engine/engine.go:259-309 | an entry is in every outcome exactly when no pass throws its half away or thins it out |
| FlowTable.NewestSafeExactly | internal/engine/engine.go:252-258 | an entry of the newest timestamp survives for sure exactly when at most keep entries share it |
| FlowTable.TrimsEvicts | internal/engine/engine.go:252-258 | every outcome keeps the newest timestamp, and evicts it only from entries tied with all that stays |
| FlowTable.FlowTable.GcLocked | internal/engine/engine.go:243-250 | keeps exactly the entries seen within the time to live |
| FlowTable.FlowTable.Touch | internal/engine/engine.go:210-231 | stamps first, sweeps above the soft cap and interval, and bounds the table by the hard cap plus the calls since the last sweep |
| FlowTable.FlowTable.GC | internal/engine/engine.go:312-320 | the unconditional sweep |
| FlowTable.SweptExactly | internal/engine/engine.go:243-320 | a sweep forgets every flow not seen for two minutes, and keeps all others when there are at most 8192, else 7168 of them |
| FlowTable.FlowTable.EvictUpTo | internal/engine/engine.go:287-296 | one pass in any order: only entries not after the cut go, down to keep, and all of them unless keep is reached |
| FlowTable.NewestStays | internal/engine/engine.go:252-258 | an entry strictly newer than all others is never evicted |
| FlowTable.JustStampedStays | internal/engine/engine.go:219-229 | the entry just stamped is in the table after its own sweep for sure exactly when the sweep starts within the time to live and the hard cap does not strike or the trim is safe for it |
| FlowTable.NewestStampedStays | internal/engine/engine.go:219-229 | with no newer stamp, the latter means that at most 7168 live entries share its time |
| Cidr.ContainsSorted | internal/lists/cidrset.go:197-211 | on a sorted, distinct, canonical slice the nested binary search answers as the linear definition for every address, visiting each prefix length once, longest first |
| Cidr.ContainsLinear | internal/lists/cidrset.go:214-221 | the linear scan |
| Cidr.LowerBoundLen | internal/lists/cidrset.go:224-235 | first position of a prefix length |
| Cidr.LowerBoundAddr | internal/lists/cidrset.go:239-249 | first position not below an address in a run |
| Cidr.CanonKeepsMeaning | internal/lists/cidrset.go:252-272 | canonicalising (unmapping, masking) keeps the set of addresses covered |
| Cidr.CIDRSet.Add | internal/lists/cidrset.go:25-29 | adds exactly the addresses the prefix covers |
| Cidr.CIDRSet.LoadFile | internal/lists/cidrset.go:38-60 | adds exactly what the lines cover; no usable line means "any" |
| Cidr.CIDRSet.EnsureSorted | internal/lists/cidrset.go:154-166 | sorts without changing the set |
| Cidr.CIDRSet.Match | internal/lists/cidrset.go:65-90 | answers membership and changes nothing in the set |
| Cidr.CIDRSet.MatchWhileAdding | internal/lists/cidrset.go:65-90 | prefixes added between its two locks never make the answer wrong for the set at the read lock |
| AddressBits.MatchLoaded | internal/lists/cidrset.go:65-90 | a set the prefixes were added to matches an address exactly when some prefix and the address, unmapped, are of one family and equal once their host bits are halved away |
| AddressBits.CoversIsSameBlock | internal/lists/cidrset.go:252-272 | the same for one prefix, mapped prefixes included |
| AddressBits.ValidIsInRange | internal/lists/cidrset.go:65-70 | an address is valid exactly below 2^32, or below 2^128 |
| Hosts.WalkIsSuffixRule | internal/lists/hostset.go:203-225 | the label walk matches exactly when some listed name is a whole-label suffix of the host |
| Hosts.InsertAdds | internal/lists/hostset.go:132-163 | inserting adds exactly that name, or nothing when it has an empty label |
| AutoList.AnyHistory | internal/lists/autolist.go:67-110 | after any history under any clock a learned host had enough failures or retransmissions, the failures inside one window unless the clock stepped back; the list only grows; the pending table stays bounded; a clean flag means file equals list |
| AutoList.StepBackStretchesWindow | internal/lists/autolist.go:67-89 | after a step back of the clock, failures a thousand seconds apart reach a threshold meant for sixty |
| AutoList.AutoHostList.Fail | internal/lists/autolist.go:67-89 | promotes exactly when the host is not covered and its windowed counter reaches the threshold, which that many logged failures back; states the whole pending table |
| AutoList.AutoHostList.Retrans | internal/lists/autolist.go:94-110 | the same without a window |
| AutoList.AutoHostList.Gc | internal/lists/autolist.go:189-199 | drops exactly the expired counters, or all of them when that frees nothing |
| AutoList.AutoHostList.Flush | internal/lists/autolist.go:117-168 | clears the flag exactly when the file then equals the list |
| AutoList.FailuresAddUpExactly | internal/lists/autolist.go:63-89 | a run of failures adds up in the counter its first one restarted exactly when none of them comes after the end of that window |
| AutoList.FailuresPromote | internal/lists/autolist.go:63-89 | twice the threshold less two failures inside any one window reach the threshold (less one, when a retransmission opened the counter), wherever the counter restarts |
| AutoList.FailuresMissed | internal/lists/autolist.go:63-89 | one less need not: three failures inside fifty seconds around a restart promote nothing |
| AutoList.PromotionTakesEffectExactly | internal/lists/autolist.go:203-211 | a promotion lists the host exactly when it has no empty label |
| AutoList.MalformedPromotionListsNothing | internal/lists/hostset.go:132-163 | "a..b" is promoted and not listed |
| Promotion.ResendsListHost | internal/lists/autolist.go:94-110 | a well-formed host is covered once any run of calls reports as many retransmissions to it as the threshold, other failures, hosts, times and flushes in between, while the pending table has room |
| Pick.BetterIsStrictWeakOrder | internal/diag/autopick.go:214-235 | irreflexive, asymmetric, transitive, and incomparability is transitive |
| Pick.ScoreResults | internal/diag/autopick.go:238-269 | the accumulating loop computes the specified score |
| Scoring.ScoreCounts | internal/diag/autopick.go:238-269 | passed, blocked, controls and passed controls are the numbers of results with those flags |
| Scoring.LatenciesAre | internal/diag/autopick.go:250-263 | the latencies are those of the passing targets, in order |
| Pick.SameTargets | internal/diag/autopick.go:442-463 | all measured candidates are scored against the same number of targets |
| Pick.PerfectIsBest | internal/diag/autopick.go:505-511 | a perfect score beats every earlier one when none was perfect |
| Pick.Sweep | internal/diag/autopick.go:340-530 | on every exit the report names what is running: the winner, or the original when cut short or nothing passed, unless that last activation failed; the winner is the first best of all valid measurements, and perfect on an early stop |
| Scoring.WinnerFromTrials | internal/diag/autopick.go:409-529 | from the trials alone: the announced winner passed its controls and has the most passing targets of all measured candidates, then the fewest blocked, then the lowest known latency |
| Pick.Try | internal/diag/autopick.go:410-508 | one candidate: its row, whether it ends the sweep, and what runs afterwards |

## Left out

- Op registration, parsing of strategy files, logging, notes in `Plan.Degraded`, statistics counters and `Flow.Desynced`.
- Nil guards, the early return of `OnUDP` on a transport without UDP, and the error values of ops; an op here cannot fail except through the "fail" policy.
- The contents of fake blobs and TLS fake mutation: blobs are an arbitrary function of the kind of fake; random host characters are an arbitrary function of the position.
- `proto.TamperHost` and `proto.Classify`: the first is an arbitrary function of payload and knobs, the second an arbitrary description of the payload.
- The 32-bit width of `SeqOff`: offsets here are unbounded integers; payloads and overlaps are bounded by 65535 and 9316 in the source.
- The receive window and selective retransmission of the receiver; loss and reordering by the network, beyond the order the plan sends in.
- Raw packet construction from segments: checksums, header options, fragment contents; marshalling and injection errors, after which the transport also forwards the original.
- The sorting of op lists by phase: theorems are about any order, which includes the loader's, or assume the order where it matters.
- `HostSet` case folding, trailing dots and normalisation: hosts are lists of labels, right to left; `HostSet.Reload` and `CIDRSet.Reload`, `Len`, `IsNone` only restate stored fields.
- Reading and writing list files: a file is the value last written; `Flush` fails or succeeds as a parameter.
- Mutexes: a critical section is one atomic step; the reader side of `CIDRSet.Match` is covered at its read-lock point.
- Chains.StreamPreserved: is about TCP packets with a payload that are not SYNs; the packets it leaves out can be lost (see the findings above).
- AutoList.FailuresPromote: is about one counter that stays in the pending table; a full table may drop it.
- Promotion.ResendsListHost: assumes the pending table keeps room for every call; a full one may drop counters.
- FastPath.FastPathIsPure: holds for a packet-counted cutoff and a cached verdict only; `FastPath.HiddenExactly` covers the rest.
- Pick.Sweep: a cancellation while the last candidate is probed shows only as a failed last activation, as in the code; it assumes candidate names are not empty and that every probe run returns one result per probe, as the runner does; the flag `Restored`, which stays set when a winner is activated after a restore, the counter `Tested` and texts of skipped rows are not stated.
- The order of the table `rankCandidates` prints, dry runs, candidate ordering and the median: the median is an arbitrary function of the latencies.
- The bodies of `cmd/`, `internal/ctl`, `internal/netcfg`, the capability probes and the network clients of the self-test.
