/** The vocabulary of the desync planner: transport capabilities, TCP segments,
    UDP datagrams, op parameters and the context an op works on. */
module Types {

  newtype byte = x: int | 0 <= x < 256

  type Bytes = seq<byte>

  datatype Option<+T> = None | Some(value: T)

  /** An L7 class mask: the empty set is "not constrained / nothing recognised". */
  datatype L7Class = Http | Tls | Quic | WireGuard | Dht | Discord | Stun | Unrecognised

  type L7 = set<L7Class>

  /** What a transport can do. */
  datatype Caps = Caps(
    inject: bool, seqNo: bool, dropOriginal: bool, perPacketTTL: bool, fooling: bool, ipid: bool,
    udp: bool, ipv6ExtHdr: bool, frag: bool, segment: bool, tlsRec: bool)

  const NO_CAPS := Caps(false, false, false, false, false, false, false, false, false, false, false)

  const FULL_CAPS := Caps(true, true, true, true, true, true, true, true, true, true, true)

  const PROXY_CAPS := NO_CAPS.(segment := true, tlsRec := true, dropOriginal := true)

  datatype SegKind = SegData | SegFake | SegRST | SegSynData

  datatype FoolBit = BadSum | BadSeq | Md5Sig | Timestamp | DataNoAck | HopByHop | HopByHop2 | IPFrag1Bit

  datatype IPIDMode = IPIDDefault | IPIDZero | IPIDRandom | IPIDSeq | IPIDSeqGroup | IPIDSame

  datatype TcpFlag = Syn | Rst | Ack

  /** One TCP unit of a plan. `seqOff` is relative to the start of the payload
      and is negative for a sequence overlap below the window. */
  datatype Seg = Seg(
    kind: SegKind, data: Bytes, seqOff: int, ttl: int, fool: set<FoolBit>, repeats: int,
    flags: set<TcpFlag>, ipid: IPIDMode, frag: int, window: int, windowScale: int)
  {
    /** One past the last stream offset the segment covers. */
    function End(): int { seqOff + |data| }
  }

  /** One UDP unit of a plan. */
  datatype Dgram = Dgram(kind: SegKind, data: Bytes, ttl: int, fool: set<FoolBit>, repeats: int, frag: int)

  datatype Marker =
    | MarkerAbs | MarkerMethod | MarkerHost | MarkerEndHost
    | MarkerSLD | MarkerEndSLD | MarkerMidSLD | MarkerSNIExt

  datatype PosSpec = PosSpec(marker: Marker, offset: int)

  datatype L7Info = L7Info(
    proto: L7, hostOff: int, hostLen: int, sldOff: int, sldLen: int, methodOff: int, sniExtOff: int)

  datatype TamperKnob =
    HostCase | HostSpell | HostNoSpace | HostDot | HostTab | DomCase | MethodSpace | MethodEOL | UnixEOL

  datatype TamperOpts = TamperOpts(knobs: set<TamperKnob>, hostPad: int)

  datatype CounterKind = Unbounded | PacketCount | DataCount | RelSeq

  datatype OpParams = OpParams(
    repeats: int, ttl: int, ttlAuto: bool, ttlDelta: int, ttlMin: int, ttlMax: int,
    fool: set<FoolBit>, splitPos: seq<PosSpec>, seqovl: int, seqovlPattern: Bytes, pattern: Bytes,
    hostTemplate: Bytes, altOrder: int, midHost: Option<PosSpec>, tamper: TamperOpts,
    udpLenIncrement: int, udpLenPattern: Bytes, wsSize: int, wsScale: int,
    wsCutoffKind: CounterKind, wsCutoff: int, ipid: IPIDMode, fragPosTCP: int, fragPosUDP: int, ownFakes: nat)

  /** The part of a tracked flow an op reads. */
  datatype FlowView = FlowView(l7: L7, pkts: int, dataPkts: int, lastSeq: int, isn: int, haveISN: bool, hops: int)

  datatype FakeKind = FakeQuic | FakeDiscord | FakeStun | FakeUnknownUDP | FakeTls | FakeHttp | FakeUnknown

  /** The input of an op. The decoy blobs and the TLS decoy mutation (functions also of
      the op's own decoy settings, `ownFakes`), the HTTP/TLS rewriter and the random
      characters of a fake hostname are arbitrary functions: nothing proved here depends
      on what they return. */
  datatype Ctx = Ctx(
    payload: Bytes, info: L7Info, caps: Caps, synPkt: bool, udp: bool, ipv6: bool, flow: FlowView,
    fakes: (FakeKind, nat) -> seq<Bytes>, modTls: (Bytes, nat) -> Bytes, tamperHost: (Bytes, TamperOpts) -> Bytes,
    random: nat -> byte, params: OpParams)
}
