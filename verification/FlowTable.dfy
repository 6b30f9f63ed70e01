/** Which flows the engine forgets: the idle sweep, and the bisection of timestamps
    that enforces the hard cap. Times are nanoseconds, 0 is the unset time. */
module FlowTable {

  type Key(==, !new) = nat
  type Table = map<Key, int>

  const FLOW_TTL := 120_000_000_000
  const SOFT_CAP := 4096
  const HARD_CAP := 8192
  const SWEEP_INTERVAL := 250_000_000
  const KEEP := HARD_CAP * 7 / 8

  /** No entry carries the unset time. */
  predicate Stamped(t: Table) { forall k :: k in t ==> t[k] > 0 }

  predicate Within(part: Table, whole: Table) {
    forall k :: k in part ==> k in whole && part[k] == whole[k]
  }

  /** The entries not idle since before the cutoff. */
  function Fresh(t: Table, cutoff: int): Table { map k | k in t && t[k] >= cutoff :: t[k] }

  ghost predicate IsNewest(t: Table, newest: int) {
    (exists k :: k in t && t[k] == newest) && forall k :: k in t ==> t[k] <= newest
  }

  /** What is evicted is older than the newest entry, or tied with all that stays. */
  ghost predicate Oldest(before: Table, after: Table, newest: int) {
    forall k :: k in before && k !in after ==> before[k] < newest || forall j :: j in after ==> after[j] == newest
  }

  /** An eviction: it leaves the newest timestamp in place, and only older entries go
      while anything older is left. */
  ghost predicate Evicts(before: Table, after: Table) {
    Within(after, before) && forall m :: IsNewest(before, m) ==> IsNewest(after, m) && Oldest(before, after, m)
  }

  lemma Smaller(t: Table, k: Key)
    requires k in t
    ensures |t - {k}| == |t| - 1
  {
    assert (t - {k}).Keys == t.Keys - {k};
  }

  lemma WithinSize(part: Table, whole: Table)
    requires Within(part, whole)
    ensures |part| <= |whole| && (|part| == |whole| ==> part == whole)
  {
    SubsetSize(part.Keys, whole.Keys);
    if |part| == |whole| { assert part.Keys == whole.Keys; }
  }

  lemma {:induction false} SubsetSize(a: set<Key>, b: set<Key>)
    requires a <= b
    ensures |a| <= |b| && (|a| == |b| ==> a == b)
  {
    if a != {} {
      var k :| k in a;
      SubsetSize(a - {k}, b - {k});
    }
  }

  /** An entry newer than all the others is never evicted. */
  lemma NewestStays(before: Table, after: Table, k: Key)
    requires Evicts(before, after) && |after| > 0
    requires k in before && forall j :: j in before && j != k ==> before[j] < before[k]
    ensures k in after
  {
    assert IsNewest(before, before[k]);
    assert IsNewest(after, before[k]);
  }

  lemma EvictsTransitive(a: Table, b: Table, c: Table)
    requires Evicts(a, b) && Evicts(b, c)
    ensures Evicts(a, c)
  {
    forall m | IsNewest(a, m) ensures IsNewest(c, m) && Oldest(a, c, m) {
      assert IsNewest(b, m);
      forall k | k in a && k !in c ensures a[k] < m || forall j :: j in c ==> c[j] == m {
        if k in b { assert b[k] < m || forall j :: j in c ==> c[j] == m; }
      }
    }
  }

  // ---------- what the bisection may leave ----------

  ghost predicate IsFirst(t: Table, first: int) {
    (exists k :: k in t && t[k] == first) && forall k :: k in t ==> first <= t[k]
  }

  lemma {:induction false} HasExtremes(t: Table)
    requires |t| > 0
    ensures exists m :: IsNewest(t, m)
    ensures exists m :: IsFirst(t, m)
    decreases |t|
  {
    var k :| k in t.Keys;
    var rest := t - {k};
    Smaller(t, k);
    if |rest| == 0 {
      assert forall j :: j in t && j != k ==> j in rest;
      assert IsNewest(t, t[k]) && IsFirst(t, t[k]);
    } else {
      HasExtremes(rest);
      var hi :| IsNewest(rest, hi);
      var lo :| IsFirst(rest, lo);
      assert forall j :: j in t && j != k ==> j in rest;
      assert IsNewest(t, if t[k] > hi then t[k] else hi);
      assert IsFirst(t, if t[k] < lo then t[k] else lo);
    }
  }

  ghost function Newest(t: Table): (m: int)
    requires |t| > 0
    ensures IsNewest(t, m)
  {
    HasExtremes(t);
    var m :| IsNewest(t, m);
    m
  }

  ghost function First(t: Table): (m: int)
    requires |t| > 0
    ensures IsFirst(t, m)
  {
    HasExtremes(t);
    var m :| IsFirst(t, m);
    m
  }

  /** All entries carry the same timestamp. */
  ghost predicate Tied(t: Table)
    requires |t| > 0
  {
    Newest(t) <= First(t)
  }

  function Above(t: Table, cut: int): Table { map k | k in t && t[k] > cut :: t[k] }

  /** The entries after the midpoint of the timestamps. */
  ghost function UpperHalf(t: Table): (high: Table)
    requires |t| > 0 && !Tied(t)
    ensures Within(high, t) && |high| < |t| && forall k :: k in t && t[k] == Newest(t) ==> k in high
  {
    var high := Above(t, First(t) + (Newest(t) - First(t)) / 2);
    WithinSize(high, t);
    var k :| k in t && t[k] == First(t);
    assert k !in high;
    high
  }

  /** Exactly the tables a trim down to `keep` can leave: passes that keep the upper
      half, and a last one that is cut off in the middle, in any order of iteration. */
  ghost predicate Trims(before: Table, after: Table, keep: nat)
    requires keep > 0
    decreases |before|
  {
    if |before| <= keep then after == before
    else if Tied(before) then Within(after, before) && |after| == keep
    else
      var high := UpperHalf(before);
      if |high| > keep then Trims(high, after, keep)
      else Within(high, after) && Within(after, before) && |after| == keep
  }

  lemma {:induction false} TrimsEvicts(before: Table, after: Table, keep: nat)
    requires keep > 0 && Trims(before, after, keep)
    ensures Evicts(before, after) && |after| == if |before| > keep then keep else |before|
    decreases |before|
  {
    if |before| > keep {
      if Tied(before) {
        DroppedTies(before, after, Newest(before));
      } else {
        var high := UpperHalf(before);
        var cut := First(before) + (Newest(before) - First(before)) / 2;
        HalfEvicts(before, high, cut, Newest(before));
        if |high| > keep {
          TrimsEvicts(high, after, keep);
          EvictsTransitive(before, high, after);
        } else {
          HalfEvicts(before, after, cut, Newest(before));
        }
      }
    }
  }

  /** The entry survives every trim down to `keep`: it is never in a lower half that is
      thrown away or thinned out, nor in a tie that is. */
  ghost predicate Safe(t: Table, key: Key, keep: nat)
    requires keep > 0 && key in t
    decreases |t|
  {
    |t| <= keep ||
    (!Tied(t) && key in UpperHalf(t) && (|UpperHalf(t)| <= keep || Safe(UpperHalf(t), key, keep)))
  }

  lemma {:induction false} GrowKeys(core: set<Key>, all: set<Key>, keep: nat, avoid: Key) returns (r: set<Key>)
    requires core <= all && avoid !in core && |core| <= keep < |all|
    ensures core <= r <= all && |r| == keep && avoid !in r
    decreases keep - |core|
  {
    r := core;
    if |core| < keep {
      if all <= core + {avoid} { SubsetSize(all, core + {avoid}); }
      var k :| k in all && k !in core + {avoid};
      r := GrowKeys(core + {k}, all, keep, avoid);
    }
  }

  /** A table of `keep` entries around a core, without the one to avoid. */
  lemma GrowTo(core: Table, t: Table, keep: nat, avoid: Key) returns (after: Table)
    requires Within(core, t) && avoid !in core && |core| <= keep < |t|
    ensures Within(core, after) && Within(after, t) && |after| == keep && avoid !in after
  {
    var r := GrowKeys(core.Keys, t.Keys, keep, avoid);
    after := map k | k in r :: t[k];
    assert after.Keys == r;
  }

  /** Every trim down to `keep` has an outcome; without the entry, unless it is safe. */
  lemma {:induction false} SomeOutcome(t: Table, keep: nat, key: Key) returns (after: Table)
    requires keep > 0
    ensures Trims(t, after, keep)
    ensures key in t && !Safe(t, key, keep) ==> key !in after
    ensures key !in t ==> key !in after
    decreases |t|
  {
    if |t| <= keep {
      after := t;
    } else if Tied(t) {
      after := GrowTo(map[], t, keep, key);
    } else {
      var high := UpperHalf(t);
      if |high| > keep {
        after := SomeOutcome(high, keep, key);
      } else if key in high {
        after := GrowTo(high, t, keep, Outside(t, high));
      } else {
        after := GrowTo(high, t, keep, key);
      }
    }
  }

  ghost function Outside(t: Table, part: Table): (k: Key)
    requires |part| < |t| && Within(part, t)
    ensures k in t && k !in part
  {
    assert exists x :: x in t.Keys && x !in part.Keys by {
      if t.Keys <= part.Keys { SubsetSize(t.Keys, part.Keys); }
    }
    var k :| k in t.Keys && k !in part.Keys;
    k
  }

  lemma {:induction false} SafeStays(t: Table, key: Key, keep: nat, after: Table)
    requires keep > 0 && key in t && Safe(t, key, keep) && Trims(t, after, keep)
    ensures key in after
    decreases |t|
  {
    if |t| > keep && |UpperHalf(t)| > keep { SafeStays(UpperHalf(t), key, keep, after); }
  }

  /** An entry survives every order of iteration exactly when it is safe. */
  lemma StaysExactly(t: Table, key: Key, keep: nat)
    requires keep > 0 && key in t
    ensures (forall after :: Trims(t, after, keep) ==> key in after) <==> Safe(t, key, keep)
  {
    if Safe(t, key, keep) {
      forall after | Trims(t, after, keep) ensures key in after { SafeStays(t, key, keep, after); }
    } else {
      var after := SomeOutcome(t, keep, key);
      assert Trims(t, after, keep);
    }
  }

  function Ties(t: Table, stamp: int): Table { map k | k in t && t[k] == stamp :: t[k] }

  /** An entry of the newest timestamp is safe exactly when at most `keep` share it. */
  lemma {:induction false} NewestSafeExactly(t: Table, key: Key, keep: nat)
    requires keep > 0 && key in t && IsNewest(t, t[key])
    ensures Safe(t, key, keep) <==> |Ties(t, t[key])| <= keep
    decreases |t|
  {
    WithinSize(Ties(t, t[key]), t);
    if |t| > keep {
      if Tied(t) {
        assert Ties(t, t[key]) == t;
      } else {
        var high := UpperHalf(t);
        assert Ties(high, t[key]) == Ties(t, t[key]);
        WithinSize(Ties(t, t[key]), high);
        if |high| > keep { NewestSafeExactly(high, key, keep); }
      }
    }
  }

  class FlowTable {
    var flows: Table
    var lastSweep: int
    /** Calls of Touch since the last sweep. */
    ghost var sinceSweep: nat

    ghost predicate Valid()
      reads this
    {
      Stamped(flows) && |flows| <= HARD_CAP + sinceSweep
    }

    constructor ()
      ensures Valid() && flows == map[] && lastSweep == 0 && sinceSweep == 0
    {
      flows, lastSweep, sinceSweep := map[], 0, 0;
    }

    /** The idle sweep: keeps exactly the entries seen within the time to live. */
    method GcLocked(now: int)
      modifies this`flows
      ensures flows == Fresh(old(flows), now - FLOW_TTL)
    {
      var rest := flows.Keys;
      while rest != {}
        invariant rest <= flows.Keys <= old(flows).Keys && Within(flows, old(flows))
        invariant forall k :: k in old(flows) && k !in rest ==> (k in flows <==> old(flows)[k] >= now - FLOW_TTL)
        decreases |rest|
      {
        var k :| k in rest;
        rest := rest - {k};
        if flows[k] < now - FLOW_TTL {
          flows := flows - {k};
        }
      }
    }

    /** One scan for the extremes. */
    method Extent() returns (oldest: int, newest: int)
      requires Stamped(flows) && |flows| > 0
      ensures IsNewest(flows, newest) && newest > 0
      ensures (exists k :: k in flows && flows[k] == oldest) && forall k :: k in flows ==> oldest <= flows[k]
    {
      oldest, newest := 0, 0;
      var rest := flows.Keys;
      while rest != {}
        invariant rest <= flows.Keys
        invariant rest == flows.Keys ==> oldest == 0 && newest == 0
        invariant rest != flows.Keys ==> oldest > 0 && newest > 0
        invariant rest != flows.Keys ==> (exists k :: k in flows && flows[k] == oldest) && (exists k :: k in flows && flows[k] == newest)
        invariant forall k :: k in flows && k !in rest ==> oldest <= flows[k] <= newest
        decreases |rest|
      {
        var k :| k in rest;
        rest := rest - {k};
        if oldest == 0 || flows[k] < oldest {
          oldest := flows[k];
        }
        if flows[k] > newest {
          newest := flows[k];
        }
      }
    }

    /** Drops arbitrary entries until `keep` are left. */
    method DropAny(keep: nat)
      requires |flows| > keep
      modifies this`flows
      ensures Within(flows, old(flows)) && |flows| == keep
    {
      var rest := flows.Keys;
      while rest != {} && |flows| > keep
        invariant rest <= flows.Keys && Within(flows, old(flows)) && |flows| >= keep
        invariant |flows| > keep ==> rest == flows.Keys
        decreases |rest|
      {
        var k :| k in rest;
        rest := rest - {k};
        Smaller(flows, k);
        flows := flows - {k};
      }
    }

    /** One pass: evicts entries not after the cut, in any order, down to `keep`. */
    method EvictUpTo(cut: int, keep: nat) returns (removed: nat)
      requires |flows| > keep
      modifies this`flows
      ensures Within(flows, old(flows)) && keep <= |flows| && |flows| == |old(flows)| - removed
      ensures forall k :: k in old(flows) && k !in flows ==> old(flows)[k] <= cut
      ensures |flows| > keep ==> forall k :: k in flows ==> flows[k] > cut
    {
      removed := 0;
      var rest := flows.Keys;
      while rest != {} && |flows| > keep
        invariant rest <= flows.Keys && Within(flows, old(flows)) && keep <= |flows| == |old(flows)| - removed
        invariant forall k :: k in old(flows) && k !in flows ==> old(flows)[k] <= cut
        invariant |flows| > keep ==> forall k :: k in flows && k !in rest ==> flows[k] > cut
        decreases |rest|
      {
        var k :| k in rest;
        rest := rest - {k};
        if flows[k] <= cut {
          Smaller(flows, k);
          flows := flows - {k};
          removed := removed + 1;
        }
      }
    }

    /** The hard cap: exactly `keep` entries are left (at least one), and the newest
        timestamp survives. Every pass evicts something, so the fallback for a pass
        that does not is never taken. */
    method TrimLocked(atMost: int)
      requires Stamped(flows)
      modifies this`flows
      ensures Stamped(flows) && Trims(old(flows), flows, if atMost < 1 then 1 else atMost)
      ensures var keep := if atMost < 1 then 1 else atMost;
        Evicts(old(flows), flows) && |flows| == if |old(flows)| > keep then keep else |old(flows)|
    {
      var keep := if atMost < 1 then 1 else atMost;
      ghost var start := flows;
      while |flows| > keep
        invariant Stamped(flows)
        invariant forall t :: Trims(flows, t, keep) ==> Trims(start, t, keep)
        decreases |flows|
      {
        ghost var before := flows;
        var oldest, newest := Extent();
        assert oldest == First(flows) && newest == Newest(flows);
        if newest <= oldest {
          DropAny(keep);
          TrimsEvicts(start, flows, keep);
          return;
        }
        var cut := oldest + (newest - oldest) / 2;
        var removed := EvictUpTo(cut, keep);
        PassTrims(before, flows, cut, keep);
        assert removed > 0 by {
          WithinSize(flows, before);
          assert exists k :: k in before && before[k] == oldest;
        }
      }
      TrimsEvicts(start, flows, keep);
    }

    /** Looks a flow up, creating it, and stamps it before any sweep. `now` is read
        before the lock is taken, `later` by the sweep. */
    method Touch(key: Key, now: int, later: int)
      requires Valid() && 0 < now <= later
      modifies this
      ensures Valid()
      ensures var stamped := old(flows)[key := now];
        if |stamped| > SOFT_CAP && now - old(lastSweep) >= SWEEP_INTERVAL then
          && lastSweep == now && sinceSweep == 0
          && Swept(Fresh(stamped, later - FLOW_TTL), flows)
        else flows == stamped && lastSweep == old(lastSweep) && sinceSweep == old(sinceSweep) + 1
    {
      Grows(flows, key, now);
      flows := flows[key := now];
      sinceSweep := sinceSweep + 1;
      if |flows| > SOFT_CAP && now - lastSweep >= SWEEP_INTERVAL {
        lastSweep := now;
        Sweep(later);
      }
    }

    /** The periodic sweep. */
    method GC(now: int, later: int)
      requires Valid()
      modifies this
      ensures Valid() && lastSweep == now && sinceSweep == 0 && Swept(Fresh(old(flows), later - FLOW_TTL), flows)
    {
      lastSweep := now;
      Sweep(later);
    }

    method Sweep(later: int)
      requires Stamped(flows)
      modifies this`flows, this`sinceSweep
      ensures Valid() && sinceSweep == 0 && Swept(Fresh(old(flows), later - FLOW_TTL), flows)
    {
      GcLocked(later);
      sinceSweep := 0;
      if |flows| > HARD_CAP {
        TrimLocked(KEEP);
      }
    }

    method Forget(key: Key)
      requires Valid()
      modifies this`flows
      ensures Valid() && flows == old(flows) - {key}
    {
      WithinSize(flows - {key}, flows);
      flows := flows - {key};
    }
  }

  /** What a sweep may make of the entries that are not idle. */
  ghost predicate Swept(live: Table, after: Table) {
    if |live| <= HARD_CAP then after == live else Trims(live, after, KEEP)
  }

  /** The flows seen in the last two minutes. */
  function SeenLately(t: Table, now: int): set<Key> { set k | k in t && now - t[k] <= 120_000_000_000 }

  /** A sweep forgets every idle flow, stamps nothing anew, and keeps every other flow
      while there are at most 8192 of them; else 7168 stay. */
  lemma SweptExactly(stamped: Table, now: int, after: Table)
    requires Swept(Fresh(stamped, now - FLOW_TTL), after)
    ensures var lately := SeenLately(stamped, now);
      && after.Keys <= lately && (forall k :: k in after ==> after[k] == stamped[k])
      && if |lately| <= 8192 then after.Keys == lately else |after| == 7168
  {
    var live := Fresh(stamped, now - FLOW_TTL);
    assert live.Keys == SeenLately(stamped, now);
    if |live| > HARD_CAP { TrimsEvicts(live, after, KEEP); }
  }

  lemma Grows(t: Table, key: Key, now: int)
    ensures |t[key := now]| <= |t| + 1
  {
    assert t[key := now].Keys == t.Keys + {key};
  }

  lemma DroppedTies(before: Table, after: Table, newest: int)
    requires IsNewest(before, newest) && (forall k :: k in before ==> before[k] == newest)
    requires Within(after, before) && |after| > 0
    ensures Evicts(before, after)
  {
    var k :| k in after;
    assert after[k] == newest;
  }

  lemma HalfEvicts(before: Table, after: Table, cut: int, newest: int)
    requires IsNewest(before, newest) && cut < newest && Within(after, before)
    requires forall k :: k in before && k !in after ==> before[k] <= cut
    ensures Evicts(before, after)
  {
    var k :| k in before && before[k] == newest;
    assert k in after;
  }

  /** One pass is a step of the trim: it leaves the upper half, or is cut off in the
      middle of the lower one. */
  lemma PassTrims(before: Table, now: Table, cut: int, keep: nat)
    requires keep > 0 && |before| > keep && !Tied(before) && cut == First(before) + (Newest(before) - First(before)) / 2
    requires Within(now, before) && keep <= |now|
    requires forall k :: k in before && k !in now ==> before[k] <= cut
    requires |now| > keep ==> forall k :: k in now ==> now[k] > cut
    ensures forall t :: Trims(now, t, keep) ==> Trims(before, t, keep)
  {
    var high := UpperHalf(before);
    assert high == Above(before, cut) && Within(high, now);
    if |now| > keep {
      assert now == high;
    } else {
      WithinSize(high, now);
      assert |high| <= keep;
      if |high| == keep { assert now == high; }
    }
  }

  /** Main result for the caller: the entry just stamped is still in the table after
      its own sweep exactly when the sweep began within the time to live, and either the
      hard cap did not strike or the trim is safe for the entry. */
  lemma JustStampedStays(t: Table, key: Key, now: int, later: int)
    ensures var live := Fresh(t[key := now], later - FLOW_TTL);
      (forall after :: Swept(live, after) ==> key in after) <==>
        later - now <= FLOW_TTL && (|live| <= HARD_CAP || Safe(live, key, KEEP))
  {
    var live := Fresh(t[key := now], later - FLOW_TTL);
    if key in live {
      StaysExactly(live, key, KEEP);
      if |live| <= HARD_CAP { assert forall after :: Swept(live, after) ==> after == live; }
      else { assert forall after :: Swept(live, after) <==> Trims(live, after, KEEP); }
    } else {
      var after := SomeOutcome(live, if |live| <= HARD_CAP then HARD_CAP else KEEP, key);
      assert Swept(live, after) && key !in after;
    }
  }

  /** With no stamp newer than its own, that is: when at most KEEP live entries share
      its timestamp, or the hard cap does not strike. */
  lemma NewestStampedStays(t: Table, key: Key, now: int, later: int)
    requires forall k :: k in t ==> t[k] <= now
    ensures var live := Fresh(t[key := now], later - FLOW_TTL);
      (forall after :: Swept(live, after) ==> key in after) <==>
        later - now <= FLOW_TTL && (|live| <= HARD_CAP || |Ties(live, now)| <= KEEP)
  {
    var live := Fresh(t[key := now], later - FLOW_TTL);
    JustStampedStays(t, key, now, later);
    if key in live {
      assert IsNewest(live, live[key]);
      NewestSafeExactly(live, key, KEEP);
    }
  }
}
