/** Profile filters and the first-match walk over a strategy's profiles. */
module Matching {
  import opened Types
  import opened Hosts
  import opened Cidr
  import opened Chains

  /** An inclusive port range; a list of none means any port. */
  datatype PortRange = PortRange(lo: int, hi: int)

  predicate HasPort(ports: seq<PortRange>, p: int) {
    |ports| == 0 || exists i :: 0 <= i < |ports| && ports[i].lo <= p <= ports[i].hi
  }

  /** An address set, any-flag included. */
  datatype AddrSet = AddrSet(any: bool, prefixes: seq<Prefix>) {
    predicate Match(a: Addr) {
      a.Valid() && (any || exists i :: 0 <= i < |prefixes| && CoversAddr(prefixes[i], a))
    }
  }

  /** A compiled filter; 0, {} and None mean unconstrained. */
  datatype Filter = Filter(
    proto: int, ports: seq<PortRange>, l3: int, l7: L7,
    hostlist: Option<HostSet>, hostlistExclude: Option<HostSet>,
    ipset: Option<AddrSet>, ipsetExclude: Option<AddrSet>, autoHostlist: Option<string>)

  /** What a filter looks at; dst is None for an invalid address. */
  datatype Input = Input(proto: int, port: int, l3: int, l7: L7, host: Host, dst: Option<Addr>)

  /** The registered self-learning lists, by path. */
  type AutoLists = map<string, HostSet>

  datatype Bound = Bound(kind: CounterKind, n: int)

  datatype Profile = Profile(filter: Filter, ops: seq<CompiledOp>, policy: Policy, start: Bound, cutoff: Bound)

  type Strategy = seq<Profile>

  predicate MatchCheap(f: Filter, q: Input) {
    && (f.proto == 0 || f.proto == q.proto)
    && (f.l3 == 0 || f.l3 == q.l3)
    && HasPort(f.ports, q.port)
    && (f.l7 == {} || q.l7 * f.l7 != {})
  }

  /** The address conditions: exclusions win. */
  predicate MatchAddress(f: Filter, q: Input) {
    && !(f.ipsetExclude.Some? && q.dst.Some? && f.ipsetExclude.value.Match(q.dst.value))
    && (f.ipset.Some? ==> q.dst.Some? && f.ipset.value.Match(q.dst.value))
  }

  /** Evaluates a filter; `learned` is its self-learning list when registered. */
  predicate MatchFilter(f: Filter, learned: Option<HostSet>, q: Input) {
    if !MatchCheap(f, q) then false
    else if f.ipsetExclude.Some? && q.dst.Some? && f.ipsetExclude.value.Match(q.dst.value) then false
    else if f.hostlistExclude.Some? && q.host != [] && f.hostlistExclude.value.Match(q.host) then false
    else if (f.hostlist.Some? || learned.Some?)
      && (q.host == [] || !((f.hostlist.Some? && f.hostlist.value.Match(q.host))
                            || (learned.Some? && learned.value.Match(q.host)))) then false
    else f.ipset.Some? ==> q.dst.Some? && f.ipset.value.Match(q.dst.value)
  }

  /** Every criterion but the host name. */
  predicate MatchFilterIgnoringHost(f: Filter, q: Input) {
    MatchCheap(f, q) && MatchAddress(f, q)
  }

  function Learned(p: Profile, auto: AutoLists): Option<HostSet> {
    if p.filter.autoHostlist.Some? && p.filter.autoHostlist.value in auto
    then Some(auto[p.filter.autoHostlist.value]) else None
  }

  predicate MatchProfile(p: Profile, q: Input, auto: AutoLists) {
    MatchFilter(p.filter, Learned(p, auto), q)
  }

  predicate HostGated(p: Profile) { p.filter.hostlist.Some? || p.filter.autoHostlist.Some? }

  /** The first profile from index i on that matches; |s| when there is none. */
  function FirstMatch(s: Strategy, i: nat, q: Input, auto: AutoLists): (r: nat)
    requires i <= |s|
    ensures i <= r <= |s|
    ensures forall j :: i <= j < r ==> !MatchProfile(s[j], q, auto)
    ensures r < |s| ==> MatchProfile(s[r], q, auto)
    decreases |s| - i
  {
    if i == |s| || MatchProfile(s[i], q, auto) then i else FirstMatch(s, i + 1, q, auto)
  }

  /** A host-gated profile before `upto` is only waiting for a host name. */
  predicate HostGatedBefore(s: Strategy, upto: nat, q: Input) {
    exists i :: 0 <= i < |s| && i < upto && HostGated(s[i]) && MatchFilterIgnoringHost(s[i].filter, q)
  }

  /** The self-learning list of the first profile that waits for this host. */
  function AutoCandidate(s: Strategy, i: nat, q: Input): (r: Option<string>)
    requires i <= |s|
    ensures r.None? <==> forall j :: i <= j < |s| && s[j].filter.autoHostlist.Some? ==> !MatchFilterIgnoringHost(s[j].filter, q)
    decreases |s| - i
  {
    if i == |s| then None
    else if s[i].filter.autoHostlist.Some? && MatchFilterIgnoringHost(s[i].filter, q) then s[i].filter.autoHostlist
    else AutoCandidate(s, i + 1, q)
  }

  /** What the walk decides: a profile to remember, one for this packet only, a list
      to watch, or nothing (for good, or for now). */
  datatype Verdict = Cached(idx: nat) | Provisional(idx: nat) | Watch(path: string) | NoneForGood | NoneYet

  function Decide(s: Strategy, q: Input, auto: AutoLists): (v: Verdict)
    ensures v.Cached? ==> v.idx < |s|
    ensures v.Provisional? ==> v.idx < |s|
  {
    var i := FirstMatch(s, 0, q, auto);
    if i < |s| then
      if q.host == [] && HostGatedBefore(s, i, q) then Provisional(i) else Cached(i)
    else
      var path := AutoCandidate(s, 0, q);
      if path.Some? then Watch(path.value)
      else if q.host != [] || !HostGatedBefore(s, |s|, q) then NoneForGood
      else NoneYet
  }

  /** The host name can only ever take a match away, except where a list asks for it. */
  lemma MatchImpliesIgnoringHost(f: Filter, learned: Option<HostSet>, q: Input)
    ensures MatchFilter(f, learned, q) ==> MatchFilterIgnoringHost(f, q)
    ensures f.hostlist.None? && learned.None? && MatchFilter(f, learned, q) ==> MatchFilter(f, learned, q.(host := []))
  {
  }

  /** A profile that no host name was awaited for does not start matching with one. */
  lemma NoLateMatch(p: Profile, q: Input, host: Host, auto: AutoLists)
    requires q.host == [] && host != []
    requires !MatchProfile(p, q, auto)
    requires HostGated(p) ==> !MatchFilterIgnoringHost(p.filter, q)
    ensures !MatchProfile(p, q.(host := host), auto)
  {
    MatchImpliesIgnoringHost(p.filter, Learned(p, auto), q.(host := host));
  }

  /** The cached profile keeps matching unless it excludes the host. */
  lemma MatchSurvives(p: Profile, q: Input, host: Host, auto: AutoLists)
    requires q.host == [] && host != [] && MatchProfile(p, q, auto)
    ensures MatchProfile(p, q.(host := host), auto) <==>
      !(p.filter.hostlistExclude.Some? && p.filter.hostlistExclude.value.Match(host))
  {
  }

  /** Main result: a verdict cached before the host name is known is the verdict of
      the same walk with any host name learned later; for a profile, exactly when
      that profile's own exclusion list does not name the host. */
  lemma CachedVerdictIsFinal(s: Strategy, q: Input, host: Host, auto: AutoLists)
    requires q.host == [] && host != []
    ensures var v := Decide(s, q, auto);
      && (v.Cached? ==>
            (FirstMatch(s, 0, q.(host := host), auto) == v.idx <==>
              !(s[v.idx].filter.hostlistExclude.Some? && s[v.idx].filter.hostlistExclude.value.Match(host))))
      && (v.NoneForGood? ==> FirstMatch(s, 0, q.(host := host), auto) == |s|)
  {
    var v, late := Decide(s, q, auto), q.(host := host);
    var upto := if v.Cached? then v.idx else if v.NoneForGood? then |s| else 0;
    forall j | 0 <= j < upto ensures !MatchProfile(s[j], late, auto) {
      NoLateMatch(s[j], q, host, auto);
    }
    if v.Cached? { MatchSurvives(s[v.idx], q, host, auto); }
  }

  predicate AcceptsL7(p: Profile, l7: L7) { p.filter.l7 == {} || l7 * p.filter.l7 != {} }

  /** The profile matches once its L7 condition is left aside. */
  predicate MatchesButL7(p: Profile, q: Input, auto: AutoLists) {
    MatchProfile(p.(filter := p.filter.(l7 := {})), q, auto)
  }

  lemma MatchByL7(p: Profile, q: Input, auto: AutoLists)
    ensures MatchProfile(p, q, auto) <==> AcceptsL7(p, q.l7) && MatchesButL7(p, q, auto)
  {
  }

  lemma ButL7IgnoresL7(p: Profile, q: Input, l7: L7, auto: AutoLists)
    ensures MatchesButL7(p, q.(l7 := l7), auto) <==> MatchesButL7(p, q, auto)
  {
  }

  /** The profile was passed over for its L7 condition only, and accepts the new class. */
  predicate WaitsForL7(p: Profile, q: Input, l7: L7, auto: AutoLists) {
    AcceptsL7(p, l7) && !AcceptsL7(p, q.l7) && MatchesButL7(p, q, auto)
  }

  lemma LateMatch(p: Profile, q: Input, l7: L7, auto: AutoLists)
    requires !MatchProfile(p, q, auto)
    ensures MatchProfile(p, q.(l7 := l7), auto) <==> WaitsForL7(p, q, l7, auto)
  {
    MatchByL7(p, q, auto);
    MatchByL7(p, q.(l7 := l7), auto);
    ButL7IgnoresL7(p, q, l7, auto);
  }

  /** A verdict cached before the protocol is known is the verdict of the same walk
      with the protocol recognised later exactly when the cached profile accepts it and
      no earlier profile was passed over only for its L7 condition and accepts it; for
      "none", exactly when no profile at all was. */
  lemma CachedVerdictAgainstL7(s: Strategy, q: Input, l7: L7, auto: AutoLists)
    ensures var v, late := Decide(s, q, auto), FirstMatch(s, 0, q.(l7 := l7), auto);
      && (v.Cached? ==>
            (late == v.idx <==> AcceptsL7(s[v.idx], l7) && forall j :: 0 <= j < v.idx ==> !WaitsForL7(s[j], q, l7, auto)))
      && (v.NoneForGood? ==> (late == |s| <==> forall j :: 0 <= j < |s| ==> !WaitsForL7(s[j], q, l7, auto)))
  {
    var v, late := Decide(s, q, auto), q.(l7 := l7);
    var upto := FirstMatch(s, 0, q, auto);
    forall j | 0 <= j < upto ensures MatchProfile(s[j], late, auto) <==> WaitsForL7(s[j], q, l7, auto) {
      LateMatch(s[j], q, l7, auto);
    }
    if upto < |s| {
      MatchByL7(s[upto], q, auto);
      MatchByL7(s[upto], late, auto);
      ButL7IgnoresL7(s[upto], q, l7, auto);
    }
  }

  /** A verdict reached with a host name is always the walk's own. */
  lemma KnownHostDecides(s: Strategy, q: Input, auto: AutoLists)
    requires q.host != []
    ensures var v, i := Decide(s, q, auto), FirstMatch(s, 0, q, auto);
      if i < |s| then v == Cached(i) else v.Watch? || v.NoneForGood?
  {
  }

  const ANY_FILTER := Filter(0, [], 0, {}, None, None, None, None, None)
  const NO_BOUND := Bound(Unbounded, 0)

  function Plain(f: Filter): Profile { Profile(f, [], DegradeIt, NO_BOUND, NO_BOUND) }

  /** The exclusion matters: a profile cached on the SYN can turn out to exclude the
      host the ClientHello names, and the walk would then have passed it over. */
  lemma ExcludedHostStaysCached()
    ensures var excl := Plain(ANY_FILTER.(hostlistExclude := Some(HostSet(LEAF, true))));
      var s, q := [excl, Plain(ANY_FILTER)], Input(6, 443, 4, {}, [], None);
      Decide(s, q, map[]) == Cached(0) && FirstMatch(s, 0, q.(host := ["com"]), map[]) == 1
  {
    var excl := Plain(ANY_FILTER.(hostlistExclude := Some(HostSet(LEAF, true))));
    var s, q := [excl, Plain(ANY_FILTER)], Input(6, 443, 4, {}, [], None);
    assert MatchProfile(s[0], q, map[]);
    assert FirstMatch(s, 0, q, map[]) == 0;
    assert !MatchProfile(s[0], q.(host := ["com"]), map[]);
    assert MatchProfile(s[1], q.(host := ["com"]), map[]);
  }

  /** Finality is about the host name only: a profile filtered on TLS cannot match a
      SYN, so a later unfiltered profile is cached although TLS is what follows. */
  lemma LateL7IsIgnored()
    ensures var s := [Plain(ANY_FILTER.(l7 := {Tls})), Plain(ANY_FILTER)];
      var q := Input(6, 443, 4, {}, [], None);
      Decide(s, q, map[]) == Cached(1) && FirstMatch(s, 0, q.(l7 := {Tls}), map[]) == 0
  {
    var s := [Plain(ANY_FILTER.(l7 := {Tls})), Plain(ANY_FILTER)];
    var q := Input(6, 443, 4, {}, [], None);
    assert !MatchProfile(s[0], q, map[]) && MatchProfile(s[1], q, map[]);
    assert q.(l7 := {Tls}).l7 * s[0].filter.l7 == {Tls};
    assert Tls in q.(l7 := {Tls}).l7 * s[0].filter.l7;
    assert MatchProfile(s[0], q.(l7 := {Tls}), map[]);
    assert !HostGatedBefore(s, 1, q);
  }
}
