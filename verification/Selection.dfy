/** What makes a profile match, and what a walk over the profiles decides, criterion by
    criterion. */
module Selection {
  import opened Types
  import opened Hosts
  import opened Cidr
  import opened Matching

  predicate InPorts(ports: seq<PortRange>, port: int) {
    ports == [] || exists i :: 0 <= i < |ports| && ports[i].lo <= port <= ports[i].hi
  }

  predicate SharesClass(a: L7, b: L7) { exists k :: k in a && k in b }

  /** The address is known and in the set. */
  predicate Named(addrs: Option<AddrSet>, dst: Option<Addr>) {
    addrs.Some? && dst.Some? && addrs.value.Match(dst.value)
  }

  predicate NamesHost(hosts: Option<HostSet>, host: Host) { hosts.Some? && host != [] && hosts.value.Match(host) }

  /** Every criterion that does not look at the host name; an absent one accepts all. */
  predicate FitsButHost(f: Filter, q: Input) {
    && (f.proto != 0 ==> q.proto == f.proto)
    && (f.l3 != 0 ==> q.l3 == f.l3)
    && InPorts(f.ports, q.port)
    && (f.l7 != {} ==> SharesClass(f.l7, q.l7))
    && !Named(f.ipsetExclude, q.dst)
    && (f.ipset.Some? ==> Named(f.ipset, q.dst))
  }

  /** ... and the host name: not excluded, and on a list where one is asked for. */
  predicate Fits(f: Filter, learned: Option<HostSet>, q: Input) {
    && FitsButHost(f, q)
    && !NamesHost(f.hostlistExclude, q.host)
    && (f.hostlist.Some? || learned.Some? ==> NamesHost(f.hostlist, q.host) || NamesHost(learned, q.host))
  }

  lemma SharedIs(a: L7, b: L7)
    ensures a * b != {} <==> SharesClass(a, b)
  {
    if a * b != {} {
      var k :| k in a * b;
    }
    if SharesClass(a, b) {
      var k :| k in a && k in b;
      assert k in a * b;
    }
  }

  lemma MatchIsFit(f: Filter, learned: Option<HostSet>, q: Input)
    ensures MatchFilter(f, learned, q) <==> Fits(f, learned, q)
    ensures MatchFilterIgnoringHost(f, q) <==> FitsButHost(f, q)
  {
    SharedIs(q.l7, f.l7);
  }

  /** The learned list of a profile, if the path it names is registered. */
  predicate ServesAt(s: Strategy, i: nat, q: Input, auto: AutoLists)
    requires i < |s|
  {
    var path := s[i].filter.autoHostlist;
    if path.Some? && path.value in auto then Fits(s[i].filter, Some(auto[path.value]), q) else Fits(s[i].filter, None, q)
  }

  predicate ServesFirst(s: Strategy, i: nat, q: Input, auto: AutoLists)
    requires i < |s|
  {
    ServesAt(s, i, q, auto) && forall j :: 0 <= j < i ==> !ServesAt(s, j, q, auto)
  }

  predicate ServesNobody(s: Strategy, q: Input, auto: AutoLists) {
    forall j :: 0 <= j < |s| ==> !ServesAt(s, j, q, auto)
  }

  /** The profile only waits for a host name. */
  predicate AwaitsHost(p: Profile, q: Input) {
    (p.filter.hostlist.Some? || p.filter.autoHostlist.Some?) && FitsButHost(p.filter, q)
  }

  /** Some profile in front of i could still take precedence once the host is known. */
  predicate MayYield(s: Strategy, i: nat, q: Input)
    requires i <= |s|
  {
    q.host == [] && exists j :: 0 <= j < i && AwaitsHost(s[j], q)
  }

  predicate Learns(p: Profile, q: Input) { p.filter.autoHostlist.Some? && FitsButHost(p.filter, q) }

  predicate LearnsFirst(s: Strategy, i: nat, q: Input, path: string)
    requires i < |s|
  {
    && Learns(s[i], q) && s[i].filter.autoHostlist == Some(path)
    && forall j :: 0 <= j < i ==> !Learns(s[j], q)
  }

  predicate LearnsNobody(s: Strategy, q: Input) {
    forall j :: 0 <= j < |s| ==> !Learns(s[j], q)
  }

  /** What each verdict says about the profiles. */
  predicate Justified(s: Strategy, q: Input, auto: AutoLists, v: Verdict) {
    match v
    case Cached(i) => i < |s| && ServesFirst(s, i, q, auto) && !MayYield(s, i, q)
    case Provisional(i) => i < |s| && ServesFirst(s, i, q, auto) && MayYield(s, i, q)
    case Watch(path) => ServesNobody(s, q, auto) && exists i :: 0 <= i < |s| && LearnsFirst(s, i, q, path)
    case NoneForGood => ServesNobody(s, q, auto) && LearnsNobody(s, q) && !MayYield(s, |s|, q)
    case NoneYet => ServesNobody(s, q, auto) && LearnsNobody(s, q) && MayYield(s, |s|, q)
  }

  lemma MatchIsServe(s: Strategy, i: nat, q: Input, auto: AutoLists)
    requires i < |s|
    ensures MatchProfile(s[i], q, auto) <==> ServesAt(s, i, q, auto)
  {
    MatchIsFit(s[i].filter, Learned(s[i], auto), q);
  }

  lemma GatedIsAwait(s: Strategy, i: nat, q: Input)
    requires i <= |s|
    ensures q.host == [] ==> (HostGatedBefore(s, i, q) <==> MayYield(s, i, q))
  {
    forall j | 0 <= j < |s| ensures AwaitsHost(s[j], q) <==> HostGated(s[j]) && MatchFilterIgnoringHost(s[j].filter, q) {
      MatchIsFit(s[j].filter, None, q);
    }
  }

  lemma {:induction false} CandidateIsFirst(s: Strategy, i: nat, q: Input)
    requires i <= |s|
    ensures match AutoCandidate(s, i, q)
      case None => forall j :: i <= j < |s| ==> !Learns(s[j], q)
      case Some(path) => exists k :: i <= k < |s| && Learns(s[k], q) && s[k].filter.autoHostlist == Some(path)
                                     && forall j :: i <= j < k ==> !Learns(s[j], q)
    decreases |s| - i
  {
    if i < |s| {
      MatchIsFit(s[i].filter, None, q);
      if !Learns(s[i], q) {
        CandidateIsFirst(s, i + 1, q);
      }
    }
  }

  /** The verdict of every walk, exactly: each kind of verdict is reached in its own case
      and in no other. */
  lemma DecideExactly(s: Strategy, q: Input, auto: AutoLists, v: Verdict)
    ensures v == Decide(s, q, auto) <==> Justified(s, q, auto, v)
  {
    DecideJustified(s, q, auto);
    if Justified(s, q, auto, v) {
      JustifiedUnique(s, q, auto, v, Decide(s, q, auto));
    }
  }

  lemma DecideJustified(s: Strategy, q: Input, auto: AutoLists)
    ensures Justified(s, q, auto, Decide(s, q, auto))
  {
    var i := FirstMatch(s, 0, q, auto);
    forall j | 0 <= j < |s| ensures MatchProfile(s[j], q, auto) <==> ServesAt(s, j, q, auto) {
      MatchIsServe(s, j, q, auto);
    }
    GatedIsAwait(s, i, q);
    if i == |s| {
      CandidateIsFirst(s, 0, q);
      if AutoCandidate(s, 0, q).Some? {
        var path := AutoCandidate(s, 0, q).value;
        var k :| 0 <= k < |s| && Learns(s[k], q) && s[k].filter.autoHostlist == Some(path)
                 && forall j :: 0 <= j < k ==> !Learns(s[j], q);
        assert LearnsFirst(s, k, q, path);
      }
    }
  }

  lemma JustifiedUnique(s: Strategy, q: Input, auto: AutoLists, v: Verdict, w: Verdict)
    requires Justified(s, q, auto, v) && Justified(s, q, auto, w)
    ensures v == w
  {
    match v {
      case Watch(path) =>
        var i :| 0 <= i < |s| && LearnsFirst(s, i, q, path);
        if w.Watch? {
          var j :| 0 <= j < |s| && LearnsFirst(s, j, q, w.path);
        }
      case _ =>
    }
  }
}
