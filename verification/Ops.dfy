/** What each desync op makes of a plan, as a function on plan values. */
module Ops {
  import opened Types
  import opened Positions
  import opened Spans
  import opened Rewriting

  datatype PlanState = PlanState(segs: seq<Seg>, dgrams: seq<Dgram>, drop: bool)

  const EMPTY_PLAN := PlanState([], [], false)

  /** The largest payload a decoy can copy, and the largest overlapped segment. */
  const MAX_FAKE := 9216
  const MAX_SEG := 9316

  // ---------- shared helpers ----------

  function NonData(segs: seq<Seg>): (r: seq<Seg>)
    ensures !HasData(r)
  {
    if |segs| == 0 then []
    else
      var r := NonData(segs[..|segs| - 1]);
      if IsData(segs[|segs| - 1]) then r else r + [segs[|segs| - 1]]
  }

  function PlainData(payload: Bytes): Seg {
    Seg(SegData, payload, 0, 0, {}, 0, {}, IPIDDefault, 0, 0, 0)
  }

  function DataSeg(data: Bytes, seqOff: int, p: OpParams): Seg {
    Seg(SegData, data, seqOff, 0, {}, 1, {}, p.ipid, 0, 0, 0)
  }

  function FakeSeg(data: Bytes, seqOff: int, p: OpParams): Seg {
    Seg(SegFake, data, seqOff, p.ttl, p.fool, if p.repeats < 1 then 1 else p.repeats, {}, p.ipid, 0, 0, 0)
  }

  /** n bytes of the repeated pattern from byte `offset` on; zeros without one. */
  function FillPattern(n: int, pattern: Bytes, offset: nat): (r: Bytes)
    ensures |r| == if n > 0 then n else 0
  {
    if n <= 0 then []
    else seq(n, i requires 0 <= i < n => if |pattern| == 0 then 0 else pattern[(offset + i) % |pattern|])
  }

  function EnsureDataSeg(c: Ctx, segs: seq<Seg>): seq<Seg> {
    if |c.payload| == 0 || HasData(segs) then segs else segs + [PlainData(c.payload)]
  }

  /** Index of the first data segment, or the length. */
  function FirstData(segs: seq<Seg>): (at: nat)
    ensures at <= |segs|
    ensures !HasData(segs[..at])
    ensures at < |segs| ==> IsData(segs[at])
  {
    if |segs| == 0 || IsData(segs[0]) then 0
    else
      var at := FirstData(segs[1..]);
      assert segs[..1 + at] == [segs[0]] + segs[1..][..at];
      1 + at
  }

  /** Injected segments go right in front of the payload. */
  function InsertSegs(segs: seq<Seg>, injected: seq<Seg>): seq<Seg> {
    var at := FirstData(segs);
    segs[..at] + injected + segs[at..]
  }

  predicate HasDataDgram(ds: seq<Dgram>) {
    exists i :: 0 <= i < |ds| && ds[i].kind == SegData
  }

  function FirstDataDgram(ds: seq<Dgram>): (at: nat)
    ensures at <= |ds|
    ensures forall i :: 0 <= i < at ==> ds[i].kind != SegData
    ensures at < |ds| ==> ds[at].kind == SegData
  {
    if |ds| == 0 || ds[0].kind == SegData then 0 else 1 + FirstDataDgram(ds[1..])
  }

  function InsertDgrams(ds: seq<Dgram>, injected: seq<Dgram>): seq<Dgram> {
    var at := FirstDataDgram(ds);
    ds[..at] + injected + ds[at..]
  }

  function EnsureDataDgram(c: Ctx, ds: seq<Dgram>): seq<Dgram> {
    if |c.payload| == 0 || HasDataDgram(ds) then ds else ds + [Dgram(SegData, c.payload, 0, {}, 0, 0)]
  }

  function MapSegs(segs: seq<Seg>, f: Seg -> Seg): (r: seq<Seg>)
    ensures |r| == |segs| && forall i :: 0 <= i < |segs| ==> r[i] == f(segs[i])
  {
    seq(|segs|, i requires 0 <= i < |segs| => f(segs[i]))
  }

  function MapDgrams(ds: seq<Dgram>, f: Dgram -> Dgram): (r: seq<Dgram>)
    ensures |r| == |ds| && forall i :: 0 <= i < |ds| ==> r[i] == f(ds[i])
  {
    seq(|ds|, i requires 0 <= i < |ds| => f(ds[i]))
  }

  /** A split op replaces the payload's segmentation and keeps what was injected. */
  function TakeOver(st: PlanState, segs: seq<Seg>): PlanState {
    st.(segs := NonData(st.segs) + segs, drop := true)
  }

  /** The socket-level fallback keeps nothing else. */
  function TakeOverAll(st: PlanState, segs: seq<Seg>): PlanState {
    st.(segs := segs, drop := true)
  }

  // ---------- fake, rst, syndata, block ----------

  /** The packet's own class, or the one the flow remembers. */
  function KnownL7(c: Ctx): L7 {
    if c.info.proto != {} && c.info.proto != {Unrecognised} then c.info.proto
    else if c.flow.l7 != {} then c.flow.l7
    else {Unrecognised}
  }

  function KindOfFake(l7: L7, udp: bool): FakeKind {
    if udp then
      if l7 == {Quic} then FakeQuic else if l7 == {Discord} then FakeDiscord
      else if l7 == {Stun} then FakeStun else FakeUnknownUDP
    else
      if l7 == {Tls} then FakeTls else if l7 == {Http} then FakeHttp else FakeUnknown
  }

  function InjRepeats(p: OpParams): int {
    if p.repeats < 1 then 1 else if p.repeats > 1024 then 1024 else p.repeats
  }

  function FakeSegs(c: Ctx, kind: FakeKind, blobs: seq<Bytes>): (r: seq<Seg>)
    ensures !HasData(r)
  {
    if |blobs| == 0 then []
    else
      var last := |blobs| - 1;
      var r := FakeSegs(c, kind, blobs[..last]);
      if |blobs[last]| == 0 then r
      else r + [Seg(SegFake, if kind == FakeTls then c.modTls(blobs[last], c.params.ownFakes) else blobs[last], 0, c.params.ttl,
                    c.params.fool, InjRepeats(c.params), {}, c.params.ipid, 0, 0, 0)]
  }

  function FakeDgrams(c: Ctx, blobs: seq<Bytes>): (r: seq<Dgram>)
    ensures !HasDataDgram(r)
  {
    if |blobs| == 0 then []
    else
      var last := |blobs| - 1;
      var r := FakeDgrams(c, blobs[..last]);
      if |blobs[last]| == 0 then r
      else r + [Dgram(SegFake, blobs[last], c.params.ttl, c.params.fool, InjRepeats(c.params), 0)]
  }

  function FakeOp(c: Ctx, knownOnly: bool, st: PlanState): PlanState {
    var l7 := KnownL7(c);
    if c.synPkt || |c.payload| == 0 || (knownOnly && l7 == {Unrecognised}) then st
    else
      var kind := KindOfFake(l7, c.udp);
      if c.udp then
        st.(dgrams := EnsureDataDgram(c, InsertDgrams(st.dgrams, FakeDgrams(c, c.fakes(kind, c.params.ownFakes)))))
      else
        st.(segs := EnsureDataSeg(c, InsertSegs(st.segs, FakeSegs(c, kind, c.fakes(kind, c.params.ownFakes)))))
  }

  function RstSeg(c: Ctx, ack: bool): Seg {
    Seg(SegRST, [], 0, c.params.ttl, c.params.fool, InjRepeats(c.params),
        if ack then {Rst, Ack} else {Rst}, c.params.ipid, 0, 0, 0)
  }

  function RstOp(c: Ctx, ack: bool, st: PlanState): PlanState {
    if c.synPkt || |c.payload| == 0 || c.udp then st
    else st.(segs := EnsureDataSeg(c, InsertSegs(st.segs, [RstSeg(c, ack)])))
  }

  /** The configured SYN payload, the engine's, or sixteen zero bytes. */
  function SynSeg(c: Ctx, synData: Bytes): Seg {
    var data := if |synData| == 0 then FillPattern(16, [], 0) else synData;
    Seg(SegSynData, data, 0, 0, {}, InjRepeats(c.params), {Syn}, c.params.ipid, 0, 0, 0)
  }

  function SynDataOp(c: Ctx, synData: Bytes, st: PlanState): PlanState {
    if !c.synPkt || c.udp || |c.payload| != 0 then st
    else st.(segs := st.segs + [SynSeg(c, synData)])
  }

  function BlockOp(st: PlanState): PlanState { PlanState([], [], true) }

  // ---------- multisplit, multidisorder ----------

  /** The i-th part boundary: 0, the cuts, the end of the payload. */
  function Bound(c: Ctx, pos: seq<int>, i: int): (b: nat)
    requires Cuts(pos, |c.payload|) && 0 <= i <= |pos| + 1
    ensures b <= |c.payload|
  {
    if i == 0 then 0 else if i <= |pos| then pos[i - 1] else |c.payload|
  }

  lemma BoundsIncrease(c: Ctx, pos: seq<int>, i: int)
    requires Cuts(pos, |c.payload|) && 0 <= i <= |pos| && |pos| > 0
    ensures Bound(c, pos, i) < Bound(c, pos, i + 1)
  {
    if 0 < i < |pos| { assert pos[i - 1] < pos[i]; }
  }

  /** The overlap actually used: none without control over sequence numbers, and
      none that reaches the first cut of a disordered plan. */
  function Overlap(c: Ctx, pos: seq<int>, disorder: bool): nat
    requires |pos| > 0
  {
    if c.params.seqovl <= 0 || !c.caps.seqNo || (disorder && c.params.seqovl >= pos[0]) then 0
    else c.params.seqovl
  }

  /** A real part [from, to) with an overlap in front of it. */
  function RealPart(c: Ctx, from: nat, to: nat, ovl: nat): Seg
    requires from <= to <= |c.payload|
  {
    DataSeg(FillPattern(ovl, c.params.seqovlPattern, 0) + c.payload[from..to], from - ovl, c.params)
  }

  function Part(c: Ctx, pos: seq<int>, i: int, ovl: nat): Seg
    requires Cuts(pos, |c.payload|) && 0 <= i <= |pos| && |pos| > 0
  {
    BoundsIncrease(c, pos, i);
    RealPart(c, Bound(c, pos, i), Bound(c, pos, i + 1), ovl)
  }

  /** The overlap goes in front of the first transmitted part. */
  function Target(disorder: bool): nat { if disorder then 1 else 0 }

  /** All parts in ascending order, or None when the overlapped one is too long. */
  function MultiSegs(c: Ctx, pos: seq<int>, disorder: bool): (r: Option<seq<Seg>>)
    requires Cuts(pos, |c.payload|) && |pos| > 0
    ensures r.Some? ==> |r.value| == |pos| + 1
  {
    var ovl, t := Overlap(c, pos, disorder), Target(disorder);
    if ovl > 0 && ovl + (Bound(c, pos, t + 1) - Bound(c, pos, t)) > MAX_SEG then None
    else Some(seq(|pos| + 1, i requires 0 <= i < |pos| + 1 => Part(c, pos, i, if i == t then ovl else 0)))
  }

  function Reverse(segs: seq<Seg>): (r: seq<Seg>)
    ensures |r| == |segs| && forall i :: 0 <= i < |segs| ==> r[i] == segs[|segs| - 1 - i]
  {
    seq(|segs|, i requires 0 <= i < |segs| => segs[|segs| - 1 - i])
  }

  function MultiOp(c: Ctx, disorder: bool, st: PlanState): PlanState {
    var pos := MultiPos(c, SplitSpecs(c.params));
    if |pos| == 0 then st
    else match MultiSegs(c, pos, disorder)
      case None => st
      case Some(segs) => TakeOver(st, if disorder then Reverse(segs) else segs)
  }

  function WithoutSeq(c: Ctx): Ctx { c.(caps := c.caps.(seqNo := false)) }

  /** Ascending plain parts; an emulated disorder gives the first one TTL 1. */
  function MultiDegrade(c: Ctx, disorder: bool, st: PlanState): PlanState {
    var pos := MultiPos(c, SplitSpecs(c.params));
    if |pos| == 0 then st
    else match MultiSegs(WithoutSeq(c), pos, disorder)
      case None => st
      case Some(segs) => TakeOverAll(st, if disorder then segs[0 := segs[0].(ttl := 1)] else segs)
  }

  // ---------- fakedsplit, fakeddisorder ----------

  function SplitOrder(altOrder: int, split: bool): nat {
    if split then altOrder % 4 else (altOrder / 8) % 4
  }

  /** The documented emission order: F decoys, R real parts. */
  function FakedsplitTable(order: nat, two: bool, f1: Seg, r1: Seg, f2: Seg, r2: Seg): seq<Seg> {
    if two then
      if order == 0 then [f1, r1, f1, f2, r2, f2]
      else if order == 1 then [r1, f1, f2, r2, f2]
      else if order == 2 then [r1, f2, r2, f2]
      else [r1, f2, r2]
    else if order == 0 then [f1, r1, f1]
    else if order == 1 then [r1, f1]
    else [r1]
  }

  function FakeddisorderTable(order: nat, two: bool, f1: Seg, r1: Seg, f2: Seg, r2: Seg): seq<Seg> {
    if two then
      if order == 0 then [f2, r2, f2, f1, r1, f1]
      else if order == 1 then [r2, f2, f1, r1, f1]
      else if order == 2 then [r2, f1, r1, f1]
      else [r2, f1, r1]
    else if order == 0 then [f2, r2, f2]
    else if order == 1 then [r2, f2]
    else [r2]
  }

  /** The decoy standing in for [from, to). */
  function Decoy(c: Ctx, from: nat, to: nat): Seg
    requires from <= to <= |c.payload|
  {
    FakeSeg(FillPattern(|c.payload|, c.params.pattern, 0)[from..to], from, c.params)
  }

  /** All segments of a faked split at `cut`; cut == |payload| leaves one part. */
  function FakedsplitSegs(c: Ctx, order: nat, cut: nat, ovl: nat): seq<Seg>
    requires cut <= |c.payload|
  {
    var n := |c.payload|;
    FakedsplitTable(order, cut < n, Decoy(c, 0, cut), RealPart(c, 0, cut, ovl), Decoy(c, cut, n), RealPart(c, cut, n, 0))
  }

  /** All segments of a faked disorder at `cut`; cut == 0 leaves one part. */
  function FakeddisorderSegs(c: Ctx, order: nat, cut: nat, ovl: nat): seq<Seg>
    requires cut <= |c.payload|
  {
    var n := |c.payload|;
    FakeddisorderTable(order, cut > 0, Decoy(c, 0, cut), RealPart(c, 0, cut, 0), Decoy(c, cut, n), RealPart(c, cut, n, ovl))
  }

  /** Undoes the take-over when the overlapped segment does not fit. */
  function Cancelled(c: Ctx, st: PlanState): PlanState {
    st.(segs := EnsureDataSeg(c, NonData(st.segs)))
  }

  function FakedsplitOp(c: Ctx, st: PlanState): PlanState {
    var n := |c.payload|;
    if n > MAX_FAKE then st
    else
      var sp := SinglePos(c, SplitSpecs(c.params));
      var order, cut := SplitOrder(c.params.altOrder, sp != 0), if sp == 0 then n else sp;
      var ovl := if c.params.seqovl < 0 || cut >= n || !c.caps.seqNo then 0 else c.params.seqovl;
      if ovl > 0 && ovl + cut > MAX_SEG then Cancelled(c, st)
      else TakeOver(st, FakedsplitSegs(c, order, cut, ovl))
  }

  function FakeddisorderOp(c: Ctx, st: PlanState): PlanState {
    var n := |c.payload|;
    if n > MAX_FAKE then st
    else
      var sp := SinglePos(c, SplitSpecs(c.params));
      var order := SplitOrder(c.params.altOrder, sp != 0);
      var ovl := if c.params.seqovl <= 0 || !c.caps.seqNo || c.params.seqovl >= sp then 0 else c.params.seqovl;
      if ovl > 0 && ovl + (n - sp) > MAX_SEG then Cancelled(c, st)
      else TakeOver(st, FakeddisorderSegs(c, order, sp, ovl))
  }

  /** The shared fallback of the faked-split ops: two plain parts. */
  function SplitDegrade(c: Ctx, st: PlanState): PlanState {
    var sp := SinglePos(c, SplitSpecs(c.params));
    if sp == 0 then st
    else TakeOverAll(st, [RealPart(c, 0, sp, 0), RealPart(c, sp, |c.payload|, 0)])
  }

  // ---------- hostfakesplit ----------

  const HOST_SPECS := [PosSpec(MarkerHost, 0), PosSpec(MarkerEndHost, 0)]

  /** The extra cut inside the hostname, 0 for none. */
  function MidHost(c: Ctx, host: int, endHost: int): (m: nat)
    ensures m != 0 ==> host < m < endHost
  {
    match c.params.midHost
    case None => 0
    case Some(spec) =>
      var m := FindSplitPos(c.payload, c.info, spec);
      if host < m < endHost then m else 0
  }

  function OneOf(alphabet: string, random: byte): byte
    requires |alphabet| > 0 && forall i :: 0 <= i < |alphabet| ==> alphabet[i] as int < 256
  {
    alphabet[random as int % |alphabet|] as int as byte
  }

  const ALPHA := "abcdefghijklmnopqrstuvwxyz"
  const ALNUM := "0123456789abcdefghijklmnopqrstuvwxyz"
  const TLDS := ["com", "org", "net", "edu", "gov", "biz"]
  const DOT: byte := 46

  function TldByte(pick: byte, j: nat): byte
    requires j < 3
  {
    TLDS[pick as int % 6][j] as int as byte
  }

  /** One character of the generated hostname; `random` is consulted once per
      position, and once more, at position `size`, for the top-level domain. */
  function FakeHostByte(size: nat, template: Bytes, random: nat -> byte, j: nat): byte
    requires j < size
  {
    if |template| > 0 then
      if size <= |template| then template[|template| - size + j]
      else
        var sz := size - |template|;
        if j >= sz then template[j - sz]
        else if j == sz - 1 then DOT
        else if j == 0 then OneOf(ALPHA, random(0))
        else OneOf(ALNUM, random(j))
    else if size >= 7 && j == size - 4 then DOT
    else if size >= 7 && j >= size - 3 then TldByte(random(size), j - (size - 3))
    else if j == 0 then OneOf(ALPHA, random(0))
    else OneOf(ALNUM, random(j))
  }

  function FakeHost(size: nat, template: Bytes, random: nat -> byte): (r: Bytes)
    ensures |r| == size
  {
    seq(size, j requires 0 <= j < size => FakeHostByte(size, template, random, j))
  }

  /** A wrong hostname over exactly the bytes of the real one. */
  function HostDecoy(c: Ctx, host: nat, end: nat): (s: Seg)
    requires host < end
    ensures s.kind == SegFake && s.seqOff == host && s.End() == end
  {
    FakeSeg(FakeHost(end - host, c.params.hostTemplate, c.random), host, c.params)
  }

  /** The real hostname, in one or two parts. */
  function HostParts(c: Ctx, host: nat, mid: nat, end: nat): seq<Seg>
    requires host < end <= |c.payload| && (mid != 0 ==> host < mid < end)
  {
    if mid != 0 then [RealPart(c, host, mid, 0), RealPart(c, mid, end, 0)] else [RealPart(c, host, end, 0)]
  }

  /** The documented emission order around the hostname. */
  function HostTable(late: bool, before: Seg, fake: Seg, realHost: seq<Seg>, after: Seg): seq<Seg> {
    if late then [before, fake, after] + realHost else [before, fake] + realHost + [fake, after]
  }

  function HostfakesplitSegs(c: Ctx, host: nat, mid: nat, end: nat, fake: Seg): seq<Seg>
    requires host < end <= |c.payload| && (mid != 0 ==> host < mid < end)
  {
    HostTable(c.params.altOrder == 1, RealPart(c, 0, host, 0), fake, HostParts(c, host, mid, end),
      RealPart(c, end, |c.payload|, 0))
  }

  function HostfakesplitOp(c: Ctx, st: PlanState): PlanState {
    var pos := MultiPos(c, HOST_SPECS);
    if |pos| != 2 then st
    else
      assert pos[0] < pos[1];
      var host, end := pos[0], pos[1];
      TakeOver(st, HostfakesplitSegs(c, host, MidHost(c, host, end), end, HostDecoy(c, host, end)))
  }

  function HostfakesplitDegrade(c: Ctx, st: PlanState): PlanState {
    var pos := MultiPos(c, HOST_SPECS);
    if |pos| != 2 then st
    else
      assert pos[0] < pos[1];
      var host, end := pos[0], pos[1];
      TakeOverAll(st, [RealPart(c, 0, host, 0)] + HostParts(c, host, MidHost(c, host, end), end)
                      + [RealPart(c, end, |c.payload|, 0)])
  }

  // ---------- tamper, tlsrec ----------

  /** A negative pad counts as no pad. */
  function Knobs(p: OpParams): TamperOpts {
    if p.tamper.hostPad < 0 then p.tamper.(hostPad := 0) else p.tamper
  }

  /** Only a transport that owns the byte stream may change its length. */
  predicate LengthAllowed(c: Ctx, before: int, after: int) {
    before == after || !c.caps.inject
  }

  function TamperOp(c: Ctx, st: PlanState): PlanState {
    var opts, n := Knobs(c.params), |c.payload|;
    if opts == TamperOpts({}, 0) then st
    else if !HasData(st.segs) then
      var out := c.tamperHost(c.payload, opts);
      if LengthAllowed(c, n, |out|) then st.(segs := st.segs + [DataSeg(out, 0, c.params)], drop := true) else st
    else if !Joinable(st.segs, n) then st
    else
      var out := c.tamperHost(Joined(st.segs, n), opts);
      if |out| != n then st else st.(segs := Rewritten(st.segs, Edit(n, out, 0, 0)))
  }

  /** The first configured position, or one byte into the SNI extension. */
  function TlsRecSpec(p: OpParams): PosSpec {
    if |p.splitPos| > 0 then p.splitPos[0] else PosSpec(MarkerSNIExt, 1)
  }

  function TlsRecOp(c: Ctx, st: PlanState): PlanState {
    var n, pos := |c.payload|, FindSplitPos(c.payload, c.info, TlsRecSpec(c.params));
    if pos <= 0 || pos >= n then st
    else match TLSRecordSplit(c.payload, pos)
      case None => st
      case Some(out) =>
        if LengthAllowed(c, n, |out|) then RecordPlan(c, st, pos, out) else st
  }

  /** The split record alone, or written over the planned payload. */
  function RecordPlan(c: Ctx, st: PlanState, pos: int, out: Bytes): PlanState
    requires 0 < pos < |c.payload| <= |out|
  {
    var n := |c.payload|;
    if !HasData(st.segs) then st.(segs := st.segs + [DataSeg(out, 0, c.params)], drop := true)
    else st.(segs := Overwritten(st.segs, c.payload, Edit(n, out, pos, |out| - n)))
  }

  /** The edit written over segments that carry exactly the expected bytes. */
  function Overwritten(segs: seq<Seg>, expected: Bytes, e: Edit): seq<Seg>
    requires e.Valid() && e.want == |expected|
  {
    if Joinable(segs, |expected|) && Joined(segs, |expected|) == expected then Rewritten(segs, e) else segs
  }

  // ---------- wssize, ip_id ----------

  /** The flow's relative sequence, 0 without a base. */
  function RelativeSeq(f: FlowView): int {
    if f.lastSeq != 0 && f.haveISN then (f.lastSeq - f.isn) % 0x1_0000_0000 else 0
  }

  predicate WsActive(c: Ctx) {
    match c.params.wsCutoffKind
    case Unbounded => true
    case PacketCount => c.flow.pkts <= c.params.wsCutoff
    case DataCount => c.flow.dataPkts <= c.params.wsCutoff
    case RelSeq => RelativeSeq(c.flow) <= c.params.wsCutoff
  }

  predicate CarriesWindow(c: Ctx, s: Seg) {
    s.kind == SegData || (s.kind == SegSynData && c.synPkt)
  }

  function WsWindow(p: OpParams): int { if p.wsSize > 0xFFFF then 0xFFFF else p.wsSize }

  function WsScale(p: OpParams): int { if p.wsScale < 0 then 0 else if p.wsScale > 0xFF then 0xFF else p.wsScale }

  function WsTag(c: Ctx, segs: seq<Seg>): seq<Seg> {
    MapSegs(segs, (s: Seg) => if CarriesWindow(c, s) then s.(window := WsWindow(c.params), windowScale := WsScale(c.params)) else s)
  }

  function WsSizeOp(c: Ctx, st: PlanState): PlanState {
    if c.params.wsSize <= 0 || !WsActive(c) then st
    else if exists i :: 0 <= i < |st.segs| && CarriesWindow(c, st.segs[i]) then st.(segs := WsTag(c, st.segs))
    else st.(segs := WsTag(c, EnsureDataSeg(c, st.segs)))
  }

  function IpIdOp(c: Ctx, st: PlanState): PlanState {
    if c.params.ipid == IPIDDefault then st
    else st.(segs := MapSegs(st.segs, (s: Seg) => s.(ipid := c.params.ipid)))
  }

  // ---------- ipfrag1, ipfrag2, hopbyhop, destopt, udplen ----------

  /** The configured fragment position of the protocol, else the other one, else the
      default, rounded down to a multiple of eight. */
  function RoundedFragPos(c: Ctx, udp: bool): int {
    var first := if udp then c.params.fragPosUDP else c.params.fragPosTCP;
    var second := if udp then c.params.fragPosTCP else c.params.fragPosUDP;
    var asked := if first > 0 then first else if second > 0 then second else if udp then 8 else 32;
    asked - asked % 8
  }

  /** A fragment position for a packet with payloadLen bytes behind its header. */
  function FragPos(c: Ctx, udp: bool, payloadLen: nat): int {
    var pos := RoundedFragPos(c, udp);
    if pos < 8 || pos >= HeaderLen(udp) + payloadLen then (if udp then 8 else 24) else pos
  }

  function HeaderLen(udp: bool): int { if udp then 8 else 20 }

  function IpFrag2Op(c: Ctx, st: PlanState): PlanState {
    if c.synPkt || |c.payload| == 0 || (c.udp && c.ipv6) then st
    else if c.udp then
      st.(dgrams := MapDgrams(EnsureDataDgram(c, st.dgrams),
            (d: Dgram) => if d.kind == SegData then d.(frag := FragPos(c, true, |d.data|)) else d))
    else
      st.(segs := MapSegs(EnsureDataSeg(c, st.segs),
            (s: Seg) => if s.kind == SegData then s.(frag := FragPos(c, false, |c.payload|)) else s))
  }

  /** Adds a header-level fooling bit to the real packets. */
  function Decorate(c: Ctx, bit: FoolBit, st: PlanState): PlanState {
    if c.udp then
      st.(dgrams := MapDgrams(EnsureDataDgram(c, st.dgrams),
            (d: Dgram) => if d.kind == SegData then d.(fool := d.fool + {bit}) else d))
    else
      st.(segs := MapSegs(EnsureDataSeg(c, st.segs),
            (s: Seg) => if s.kind == SegData then s.(fool := s.fool + {bit}) else s))
  }

  function Ipv6ExtOp(c: Ctx, st: PlanState): PlanState {
    if c.synPkt || |c.payload| == 0 || !c.ipv6 then st else Decorate(c, HopByHop, st)
  }

  function IpFrag1Op(c: Ctx, st: PlanState): PlanState {
    if c.synPkt || |c.payload| == 0 then st
    else if c.udp && !c.ipv6 then
      st.(dgrams := MapDgrams(st.dgrams, (d: Dgram) => if d.kind == SegFake then d.(frag := FragPos(c, true, |d.data|)) else d))
    else if !c.ipv6 then st
    else Decorate(c, IPFrag1Bit, st)
  }

  /** The resized datagram: grown with the pattern, or cut, within [1, 65535]. */
  function Resize(payload: Bytes, inc: int, pattern: Bytes): Bytes {
    var size := if |payload| + inc < 1 then 1 else if |payload| + inc > 0xFFFF then 0xFFFF else |payload| + inc;
    if size <= |payload| then payload[..size] else payload + FillPattern(size - |payload|, pattern, 0)
  }

  function Increment(p: OpParams): int { if p.udpLenIncrement == 0 then 2 else p.udpLenIncrement }

  function UdpLenOp(c: Ctx, st: PlanState): PlanState {
    if !c.udp || |c.payload| == 0 then st
    else
      var data, at := Resize(c.payload, Increment(c.params), c.params.udpLenPattern), FirstDataDgram(st.dgrams);
      if at == |st.dgrams| then st.(dgrams := st.dgrams + [Dgram(SegData, data, 0, {}, 0, 0)])
      else
        var d := st.dgrams[at];
        st.(dgrams := st.dgrams[at := d.(data := data, frag := if d.frag > 0 then FragPos(c, true, |data|) else d.frag)])
  }

  // ---------- dispatch ----------

  datatype Op =
    | SynData(synPayload: Bytes) | Fake(knownOnly: bool) | RstInject(ack: bool) | Block
    | Multisplit | Multidisorder | Fakedsplit | Fakeddisorder | Hostfakesplit
    | Tamper | TlsRec | WsSize | IpId | IpFrag1 | IpFrag2 | Ipv6Ext(destOpt: bool) | UdpLen

  function Requires(op: Op): Caps {
    match op
    case SynData(_) => NO_CAPS.(inject := true, dropOriginal := true)
    case Fake(_) => NO_CAPS.(inject := true, perPacketTTL := true, fooling := true)
    case RstInject(_) => NO_CAPS.(inject := true, perPacketTTL := true, fooling := true)
    case Block => NO_CAPS.(dropOriginal := true)
    case Multisplit => NO_CAPS.(segment := true, dropOriginal := true)
    case Multidisorder => NO_CAPS.(segment := true, dropOriginal := true, seqNo := true)
    case Fakedsplit => NO_CAPS.(inject := true, seqNo := true, dropOriginal := true)
    case Fakeddisorder => NO_CAPS.(inject := true, seqNo := true, dropOriginal := true)
    case Hostfakesplit => NO_CAPS.(inject := true, seqNo := true, dropOriginal := true)
    case Tamper => NO_CAPS.(segment := true)
    case TlsRec => NO_CAPS.(tlsRec := true)
    case WsSize => NO_CAPS.(fooling := true)
    case IpId => NO_CAPS.(ipid := true)
    case IpFrag1 => NO_CAPS.(ipv6ExtHdr := true, frag := true, dropOriginal := true)
    case IpFrag2 => NO_CAPS.(frag := true, dropOriginal := true)
    case Ipv6Ext(_) => NO_CAPS.(ipv6ExtHdr := true, dropOriginal := true)
    case UdpLen => NO_CAPS.(udp := true, dropOriginal := true)
  }

  function Apply(op: Op, c: Ctx, st: PlanState): PlanState {
    match op
    case SynData(data) => SynDataOp(c, data, st)
    case Fake(knownOnly) => FakeOp(c, knownOnly, st)
    case RstInject(ack) => RstOp(c, ack, st)
    case Block => BlockOp(st)
    case Multisplit => MultiOp(c, false, st)
    case Multidisorder => MultiOp(c, true, st)
    case Fakedsplit => FakedsplitOp(c, st)
    case Fakeddisorder => FakeddisorderOp(c, st)
    case Hostfakesplit => HostfakesplitOp(c, st)
    case Tamper => TamperOp(c, st)
    case TlsRec => TlsRecOp(c, st)
    case WsSize => WsSizeOp(c, st)
    case IpId => IpIdOp(c, st)
    case IpFrag1 => IpFrag1Op(c, st)
    case IpFrag2 => IpFrag2Op(c, st)
    case Ipv6Ext(_) => Ipv6ExtOp(c, st)
    case UdpLen => UdpLenOp(c, st)
  }

  /** The socket-level approximation; ops without one (and wssize, whose
      approximation is a note) leave the plan alone. */
  function Degrade(op: Op, c: Ctx, st: PlanState): PlanState {
    match op
    case Multisplit => MultiDegrade(c, false, st)
    case Multidisorder => MultiDegrade(c, true, st)
    case Fakedsplit => SplitDegrade(c, st)
    case Fakeddisorder => SplitDegrade(c, st)
    case Hostfakesplit => HostfakesplitDegrade(c, st)
    case _ => st
  }
}
