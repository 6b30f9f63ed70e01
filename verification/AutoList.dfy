/** The self-learning hostlist: hosts that keep failing are promoted to the list. */
module AutoList {
  import opened Types
  import opened Hosts

  const DEFAULT_FAIL_THRESHOLD := 3
  const DEFAULT_FAIL_SECONDS := 60
  const DEFAULT_RETRANS_THRESHOLD := 3
  const MAX_TRACKED := 4096
  const SECOND := 1_000_000_000

  datatype Entry = Entry(fails: int, retrans: int, firstNs: int)

  datatype Event = FailAt(host: Host, ns: int) | RetransAt(host: Host, ns: int)

  /** The time of the last call, and whether it never stepped back between calls. */
  datatype Clock = Clock(ns: int, forward: bool)

  function Ticked(c: Clock, now: int): Clock { Clock(now, c.forward && now >= c.ns) }

  /** Fail calls for h with a time in [lo, hi]; only up to hi when not `within`. */
  function CountFails(log: seq<Event>, h: Host, lo: int, hi: int, within: bool): nat {
    if |log| == 0 then 0 else
      var e := log[|log| - 1];
      CountFails(log[..|log| - 1], h, lo, hi, within) +
        if e.FailAt? && e.host == h && e.ns <= hi && (within ==> lo <= e.ns) then 1 else 0
  }

  function CountRetrans(log: seq<Event>, h: Host): nat {
    if |log| == 0 then 0 else
      var e := log[|log| - 1];
      CountRetrans(log[..|log| - 1], h) + if e.RetransAt? && e.host == h then 1 else 0
  }

  lemma CountStep(log: seq<Event>, e: Event, h: Host, lo: int, hi: int, within: bool)
    ensures CountFails(log + [e], h, lo, hi, within) ==
      CountFails(log, h, lo, hi, within) +
        if e.FailAt? && e.host == h && e.ns <= hi && (within ==> lo <= e.ns) then 1 else 0
    ensures CountRetrans(log + [e], h) == CountRetrans(log, h) + if e.RetransAt? && e.host == h then 1 else 0
  {
    assert (log + [e])[..|log|] == log;
  }

  lemma {:induction false} CountLoosens(log: seq<Event>, h: Host, lo: int, hi: int)
    ensures CountFails(log, h, lo, hi, true) <= CountFails(log, h, lo, hi, false)
  {
    if |log| > 0 { CountLoosens(log[..|log| - 1], h, lo, hi); }
  }

  /** The thresholds in force. */
  datatype Limits = Limits(fails: int, window: int, retrans: int)

  /** Enough failures of h inside the window that starts at lo; if the clock stepped
      back meanwhile, only not behind the window's end. */
  ghost predicate FailedFrom(log: seq<Event>, l: Limits, h: Host, lo: int, forward: bool) {
    CountFails(log, h, lo, lo + l.window, forward) >= l.fails
  }

  /** The calls in the log justify having h on the list: enough failures inside one
      window, or enough retransmissions. */
  ghost predicate Earned(log: seq<Event>, l: Limits, h: Host, forward: bool) {
    (exists lo :: FailedFrom(log, l, h, lo, forward)) || CountRetrans(log, h) >= l.retrans
  }

  /** A pending counter is never negative and never claims more than the log shows. */
  predicate Backed(log: seq<Event>, l: Limits, clock: Clock, h: Host, e: Entry) {
    && (clock.forward ==> e.firstNs <= clock.ns)
    && e.fails <= CountFails(log, h, e.firstNs, e.firstNs + l.window, clock.forward)
    && 0 <= e.fails && 0 <= e.retrans <= CountRetrans(log, h)
  }

  lemma CountGrows(log: seq<Event>, e: Event, h: Host, lo: int, hi: int, was: bool, forward: bool)
    requires forward ==> was
    ensures CountFails(log + [e], h, lo, hi, forward) >= CountFails(log, h, lo, hi, was)
    ensures CountFails(log, h, lo, hi, forward) >= CountFails(log, h, lo, hi, was)
    ensures CountRetrans(log + [e], h) >= CountRetrans(log, h)
  {
    CountStep(log, e, h, lo, hi, forward);
    if was && !forward { CountLoosens(log, h, lo, hi); }
  }

  /** Neither a longer log nor a later clock takes anything back. */
  lemma LogGrows(log: seq<Event>, e: Event, l: Limits, was: Clock, clock: Clock)
    requires clock.forward ==> was.forward && was.ns <= clock.ns
    ensures forall h :: Earned(log, l, h, was.forward) ==> Earned(log + [e], l, h, clock.forward)
    ensures forall h :: Earned(log, l, h, was.forward) ==> Earned(log, l, h, clock.forward)
    ensures forall h, p :: Backed(log, l, was, h, p) ==> Backed(log + [e], l, clock, h, p)
    ensures forall h, p :: Backed(log, l, was, h, p) ==> Backed(log, l, clock, h, p)
  {
    forall h, p | Backed(log, l, was, h, p) ensures Backed(log + [e], l, clock, h, p) && Backed(log, l, clock, h, p) {
      CountGrows(log, e, h, p.firstNs, p.firstNs + l.window, was.forward, clock.forward);
    }
    forall h | Earned(log, l, h, was.forward)
      ensures Earned(log + [e], l, h, clock.forward) && Earned(log, l, h, clock.forward)
    {
      CountGrows(log, e, h, 0, 0, was.forward, clock.forward);
      if CountRetrans(log, h) < l.retrans {
        var lo :| FailedFrom(log, l, h, lo, was.forward);
        CountGrows(log, e, h, lo, lo + l.window, was.forward, clock.forward);
        assert FailedFrom(log + [e], l, h, lo, clock.forward) && FailedFrom(log, l, h, lo, clock.forward);
      }
    }
  }

  /** The counter's window is over, or was never opened. */
  predicate Expired(e: Entry, l: Limits, now: int) { e.firstNs == 0 || now - e.firstNs > l.window }

  /** A counter after one more failure at `now`. */
  function Bumped(e: Entry, l: Limits, now: int): Entry {
    if Expired(e, l, now) then Entry(1, e.retrans, now) else e.(fails := e.fails + 1)
  }

  /** The counter to go on with: the pending one, or a new one. */
  function Known(hosts: map<Host, Entry>, h: Host, now: int): Entry { if h in hosts then hosts[h] else Entry(0, 0, now) }

  function Pruned(hosts: map<Host, Entry>, l: Limits, now: int): map<Host, Entry> {
    var live := map h | h in hosts && now - hosts[h].firstNs <= l.window :: hosts[h];
    if |live| >= MAX_TRACKED then map[] else live
  }

  /** The table with room for h. */
  function Room(hosts: map<Host, Entry>, l: Limits, h: Host, now: int): map<Host, Entry> {
    if h in hosts || |hosts| < MAX_TRACKED then hosts else Pruned(hosts, l, now)
  }

  /** A counter after failures at the given times. */
  function Counter(e: Entry, l: Limits, times: seq<int>): Entry {
    if |times| == 0 then e else Bumped(Counter(e, l, times[..|times| - 1]), l, times[|times| - 1])
  }

  /** A run of failures adds up in the counter its first one restarted exactly when none
      comes after the end of that window; with a clock that does not step back, that
      is: exactly when they all fall inside the window. */
  lemma {:induction false} FailuresAddUpExactly(e: Entry, l: Limits, times: seq<int>)
    requires |times| > 0 && times[0] > 0 && Expired(e, l, times[0]) && l.window >= 0
    ensures var b := Counter(e, l, times);
      && (b.fails == |times| <==> forall i :: 0 <= i < |times| ==> times[i] <= times[0] + l.window)
      && (b.fails == |times| ==> b == Entry(|times|, e.retrans, times[0]))
      && b.fails <= |times|
  {
    var n := |times|;
    var front := times[..n - 1];
    if n > 1 {
      FailuresAddUpExactly(e, l, front);
      assert forall i :: 0 <= i < n - 1 ==> front[i] == times[i];
      assert (forall i :: 0 <= i < n ==> times[i] <= times[0] + l.window) <==>
             (forall i :: 0 <= i < n - 1 ==> front[i] <= front[0] + l.window) && times[n - 1] <= times[0] + l.window;
    } else {
      assert Counter(e, l, front) == e;
    }
  }

  /** The counter after the first k failures. */
  function CounterAt(e: Entry, l: Limits, times: seq<int>, k: nat): Entry
    requires k <= |times|
  {
    Counter(e, l, times[..k])
  }

  lemma CounterStep(e: Entry, l: Limits, times: seq<int>, k: nat)
    requires k < |times|
    ensures CounterAt(e, l, times, k + 1) == Bumped(CounterAt(e, l, times, k), l, times[k])
  {
    assert times[..k + 1][..k] == times[..k];
  }

  /** From failure i to failure k, all inside one window: the counter went up all the
      way, or was restarted once, by failure m. */
  predicate OneRestart(e: Entry, l: Limits, times: seq<int>, i: nat, k: nat, m: Option<nat>)
    requires i <= k <= |times|
  {
    var b := CounterAt(e, l, times, k);
    match m
    case None => b.fails == CounterAt(e, l, times, i).fails + (k - i)
    case Some(m) =>
      && i <= m < k && b.fails == k - m && b.firstNs == times[m]
      && CounterAt(e, l, times, m).fails == CounterAt(e, l, times, i).fails + (m - i)
  }

  lemma {:induction false} RestartOnce(e: Entry, l: Limits, times: seq<int>, i: nat, k: nat) returns (m: Option<nat>)
    requires i <= k <= |times| && (forall x, y :: 0 <= x < y < |times| ==> 0 < times[x] <= times[y])
    requires k > i ==> times[k - 1] - times[i] <= l.window
    ensures OneRestart(e, l, times, i, k, m)
    ensures k > i && Expired(CounterAt(e, l, times, i), l, times[i]) ==> m == Some(i)
    decreases k
  {
    if k == i {
      m := None;
    } else {
      if k - 1 > i { assert times[k - 2] <= times[k - 1]; }
      m := RestartOnce(e, l, times, i, k - 1);
      CounterStep(e, l, times, k - 1);
      if Expired(CounterAt(e, l, times, k - 1), l, times[k - 1]) {
        m := Some(k - 1);
      }
    }
  }

  /** The counter holds at least the failure it was started or restarted by. */
  predicate Opened(e: Entry, l: Limits, times: seq<int>) {
    |times| > 0 && (e.fails >= 1 || Expired(e, l, times[0]))
  }

  lemma {:induction false} CountsItsOwn(e: Entry, l: Limits, times: seq<int>, k: nat)
    requires 0 < k <= |times| && e.fails >= 0
    ensures CounterAt(e, l, times, k).fails >= 1
    decreases k
  {
    CounterStep(e, l, times, k - 1);
    if k > 1 { CountsItsOwn(e, l, times, k - 1); } else { assert times[..0] == []; }
  }

  /** Enough failures inside any one window do promote: twice the threshold less two
      when the counter was opened by a failure, less one when a retransmission opened
      it. The counter may be restarted in the middle of the window, but only once, so
      one of the two parts reaches the threshold. */
  lemma FailuresPromote(e: Entry, l: Limits, times: seq<int>, i: nat, j: nat)
    requires i < j <= |times| && times[j - 1] - times[i] <= l.window && l.fails >= 2 && e.fails >= 0
    requires forall x, y :: 0 <= x < y < |times| ==> 0 < times[x] <= times[y]
    requires j - i >= 2 * l.fails - (if i > 0 || Opened(e, l, times) then 2 else 1)
    ensures exists k :: i <= k <= j && CounterAt(e, l, times, k).fails >= l.fails
  {
    var m := RestartOnce(e, l, times, i, j);
    assert times[..0] == [];
    if i > 0 { CountsItsOwn(e, l, times, i); }
    if CounterAt(e, l, times, j).fails < l.fails {
      if i == 0 { CounterStep(e, l, times, 0); }
      assert m.Some? && i < m.value;
      assert CounterAt(e, l, times, m.value).fails >= l.fails;
    }
  }

  /** The bound is tight: with threshold 3, three failures inside fifty seconds of a
      sixty-second window that are split by a restart promote nothing. */
  lemma FailuresMissed()
    ensures var l, times := Limits(3, 60 * SECOND, 3), [1 * SECOND, 50 * SECOND, 70 * SECOND, 100 * SECOND];
      forall k :: 0 <= k <= |times| ==> CounterAt(Entry(0, 0, 1 * SECOND), l, times, k).fails < l.fails
  {
    var e, l, times := Entry(0, 0, 1 * SECOND), Limits(3, 60 * SECOND, 3), [1 * SECOND, 50 * SECOND, 70 * SECOND, 100 * SECOND];
    assert times[..0] == [];
    CounterStep(e, l, times, 0);
    CounterStep(e, l, times, 1);
    CounterStep(e, l, times, 2);
    CounterStep(e, l, times, 3);
  }

  lemma BumpedBacked(log: seq<Event>, l: Limits, clock: Clock, h: Host, e: Entry)
    requires Backed(log, l, clock, h, e) && l.window > 0
    ensures Backed(log + [FailAt(h, clock.ns)], l, clock, h, Bumped(e, l, clock.ns))
  {
    var b := Bumped(e, l, clock.ns);
    CountStep(log, FailAt(h, clock.ns), h, b.firstNs, b.firstNs + l.window, clock.forward);
  }

  /** A counter after one more retransmission. */
  function Resent(e: Entry): Entry { e.(retrans := e.retrans + 1) }

  lemma RetransBacked(log: seq<Event>, l: Limits, clock: Clock, h: Host, e: Entry)
    requires Backed(log, l, clock, h, e)
    ensures Backed(log + [RetransAt(h, clock.ns)], l, clock, h, Resent(e))
  {
    CountStep(log, RetransAt(h, clock.ns), h, e.firstNs, e.firstNs + l.window, clock.forward);
  }

  /** A backed counter that reached a threshold earns the host its place. */
  lemma EnoughEarned(log: seq<Event>, l: Limits, clock: Clock, h: Host, e: Entry)
    requires Backed(log, l, clock, h, e)
    ensures e.fails >= l.fails ==> FailedFrom(log, l, h, e.firstNs, clock.forward) && Earned(log, l, h, clock.forward)
    ensures e.retrans >= l.retrans ==> CountRetrans(log, h) >= l.retrans && Earned(log, l, h, clock.forward)
  {
    if e.fails >= l.fails { assert FailedFrom(log, l, h, e.firstNs, clock.forward); }
  }

  /** The pending table is bounded and every counter in it is backed by the log. */
  predicate PendingOk(hosts: map<Host, Entry>, log: seq<Event>, l: Limits, clock: Clock) {
    && l.window > 0
    && |hosts| <= MAX_TRACKED
    && forall h :: h in hosts ==> Backed(log, l, clock, h, hosts[h])
  }

  /** The list holds what it started with, and otherwise only hosts that earned it. */
  ghost predicate ListOk(learned: HostSet, initial: Node, log: seq<Event>, l: Limits, forward: bool) {
    && !learned.any && ProperEntries(learned.root)
    && (forall x :: Has(initial, x) ==> Has(learned.root, x))
    && (forall x :: Has(learned.root, x) ==> Has(initial, x) || Earned(log, l, x, forward))
  }

  ghost predicate SameEntries(a: Node, b: Node) {
    forall x :: Has(a, x) <==> Has(b, x)
  }

  class AutoHostList {
    const limits: Limits
    var hosts: map<Host, Entry>
    var learned: HostSet
    var dirty: bool
    /** The entries in the file, as of the last successful write or load. */
    var file: Node
    ghost const initial: Node
    ghost var log: seq<Event>
    ghost var clock: Clock

    ghost predicate Valid()
      reads this
    {
      && PendingOk(hosts, log, limits, clock)
      && ListOk(learned, initial, log, limits, clock.forward)
      && (!dirty ==> SameEntries(file, learned.root))
    }

    /** Opens the list kept in a file; an empty file matches nothing here, and a
        non-positive limit means the default. */
    constructor (failThreshold: int, failSeconds: int, retransThreshold: int, file: Node, ghost start: int)
      requires ProperEntries(file)
      ensures Valid() && !dirty && hosts == map[] && learned == HostSet(file, false) && log == [] && initial == file && clock == Clock(start, true)
      ensures limits.fails > 0 && limits.retrans > 0
      ensures failThreshold > 0 ==> limits.fails == failThreshold
      ensures failSeconds > 0 ==> limits.window == failSeconds * SECOND
      ensures retransThreshold > 0 ==> limits.retrans == retransThreshold
    {
      limits := Limits(
        if failThreshold > 0 then failThreshold else DEFAULT_FAIL_THRESHOLD,
        (if failSeconds > 0 then failSeconds else DEFAULT_FAIL_SECONDS) * SECOND,
        if retransThreshold > 0 then retransThreshold else DEFAULT_RETRANS_THRESHOLD);
      hosts, learned, dirty, this.file := map[], HostSet(file, false), false, file;
      initial, log, clock := file, [], Clock(start, true);
    }

    ghost method Record(e: Event)
      requires Valid() && e.ns == clock.ns
      modifies this`log
      ensures Valid() && log == old(log) + [e]
    {
      LogGrows(log, e, limits, clock, clock);
      log := log + [e];
    }

    ghost method Tick(now: int)
      requires Valid()
      modifies this`clock
      ensures Valid() && clock == Ticked(old(clock), now)
    {
      LogGrows(log, FailAt([], now), limits, clock, Ticked(clock, now));
      clock := Ticked(clock, now);
    }

    /** Drops expired counters; clears the table when that frees nothing. */
    method Gc(now: int)
      requires Valid()
      modifies this`hosts
      ensures Valid() && |hosts| < MAX_TRACKED
      ensures hosts == Pruned(old(hosts), limits, now)
    {
      var live := map h | h in hosts && now - hosts[h].firstNs <= limits.window :: hosts[h];
      FewerKeys(live, hosts);
      hosts := live;
      if |hosts| >= MAX_TRACKED {
        hosts := map[];
      }
    }

    /** The pending counter of h, made if there is none. */
    method EntryFor(h: Host, now: int) returns (e: Entry)
      requires Valid() && clock.ns == now
      modifies this`hosts
      ensures Valid() && h in hosts && hosts[h] == e
      ensures e == Known(old(hosts), h, now) && hosts == Room(old(hosts), limits, h, now)[h := e]
    {
      if h in hosts {
        assert hosts[h := hosts[h]] == hosts;
        return hosts[h];
      }
      if |hosts| >= MAX_TRACKED {
        Gc(now);
      }
      e := Entry(0, 0, now);
      hosts := hosts[h := e];
    }

    /** Promotes h. Reports true even for a malformed host, which the set drops. */
    method Promote(h: Host) returns (added: bool)
      requires Valid() && Earned(log, limits, h, clock.forward)
      modifies this`hosts, this`learned, this`dirty
      ensures Valid()
      ensures added == !old(learned.Match(h))
      ensures added ==> Promoted(h) && dirty && hosts == old(hosts) - {h}
      ensures !added ==> learned == old(learned) && dirty == old(dirty) && hosts == old(hosts)
    {
      if learned.Match(h) {
        return false;
      }
      forall x ensures Has(learned.Add(h).root, x) <==> Has(learned.root, x) || (x == h && Proper(h)) {
        InsertAdds(learned.root, h, x);
      }
      FewerKeys(hosts - {h}, hosts);
      learned := learned.Add(h);
      hosts := hosts - {h};
      dirty := true;
      added := true;
    }

    /** Stores the counter that event `ev` leaves. */
    method SetEntry(h: Host, e: Entry, ghost ev: Event)
      requires Valid() && h in hosts && ev.ns == clock.ns && Backed(log + [ev], limits, clock, h, e)
      modifies this`hosts, this`log
      ensures Valid() && hosts == old(hosts)[h := e] && log == old(log) + [ev]
    {
      Record(ev);
      assert hosts[h := e].Keys == hosts.Keys;
      hosts := hosts[h := e];
    }

    /** Counts a failure in the host's window, restarting an expired one. */
    method BumpFails(host: Host, now: int) returns (enough: bool)
      requires Valid() && clock.ns == now
      modifies this`hosts, this`log
      ensures Valid() && log == old(log) + [FailAt(host, now)]
      ensures var e := Bumped(Known(old(hosts), host, now), limits, now);
        && hosts == Room(old(hosts), limits, host, now)[host := e] && (enough <==> e.fails >= limits.fails)
        && (enough ==> FailedFrom(log, limits, host, e.firstNs, clock.forward) && Earned(log, limits, host, clock.forward))
    {
      var known := EntryFor(host, now);
      var e := known;
      if e.firstNs == 0 || now - e.firstNs > limits.window {
        e := e.(firstNs := now, fails := 0);
      }
      e := e.(fails := e.fails + 1);
      BumpedBacked(log, limits, clock, host, known);
      Overwrite(Room(old(hosts), limits, host, now), host, known, e);
      SetEntry(host, e, FailAt(host, now));
      EnoughEarned(log, limits, clock, host, e);
      enough := e.fails >= limits.fails;
    }

    method BumpRetrans(host: Host, now: int) returns (enough: bool)
      requires Valid() && clock.ns == now
      modifies this`hosts, this`log
      ensures Valid() && log == old(log) + [RetransAt(host, now)]
      ensures var e := Resent(Known(old(hosts), host, now));
        && hosts == Room(old(hosts), limits, host, now)[host := e] && (enough <==> e.retrans >= limits.retrans)
        && (enough ==> CountRetrans(log, host) >= limits.retrans && Earned(log, limits, host, clock.forward))
    {
      var known := EntryFor(host, now);
      var e := known.(retrans := known.retrans + 1);
      RetransBacked(log, limits, clock, host, known);
      Overwrite(Room(old(hosts), limits, host, now), host, known, e);
      SetEntry(host, e, RetransAt(host, now));
      EnoughEarned(log, limits, clock, host, e);
      enough := e.retrans >= limits.retrans;
    }

    /** A host is counted when it is well-formed and not listed yet. */
    twostate predicate Counts(h: Host)
      reads this
    {
      |h| > 0 && !old(learned.Match(h))
    }

    /** The list after promoting h, entry by entry. */
    twostate predicate Promoted(h: Host)
      reads this
    {
      forall x :: Has(learned.root, x) <==> old(Has(learned.root, x)) || (x == h && Proper(h))
    }

    /** Records one connection failure; true when it promoted the host. Then that
        many failures did fall inside one window, if the clock never stepped back. */
    method Fail(host: Host, now: int) returns (promoted: bool)
      requires Valid()
      modifies this
      ensures Valid() && file == old(file) && clock == (if |host| > 0 then Ticked(old(clock), now) else old(clock))
      ensures log == if |host| > 0 then old(log) + [FailAt(host, now)] else old(log)
      ensures var e := Bumped(Known(old(hosts), host, now), limits, now);
        && (promoted <==> Counts(host) && e.fails >= limits.fails)
        && (promoted ==> FailedFrom(log, limits, host, e.firstNs, clock.forward))
        && hosts == Tracked(old(hosts), limits, host, now, e, Counts(host), promoted)
      ensures if promoted then Promoted(host) && dirty else learned == old(learned) && dirty == old(dirty)
    {
      if |host| == 0 {
        return false;
      }
      Tick(now);
      if learned.Match(host) {
        Record(FailAt(host, now));
        return false;
      }
      promoted := BumpFails(host, now);
      if promoted {
        promoted := Promote(host);
      }
    }

    /** Records one client retransmission, without a window. */
    method Retrans(host: Host, now: int) returns (promoted: bool)
      requires Valid()
      modifies this
      ensures Valid() && file == old(file) && clock == (if |host| > 0 then Ticked(old(clock), now) else old(clock))
      ensures log == if |host| > 0 then old(log) + [RetransAt(host, now)] else old(log)
      ensures promoted ==> CountRetrans(log, host) >= limits.retrans
      ensures var e := Resent(Known(old(hosts), host, now));
        && (promoted <==> Counts(host) && e.retrans >= limits.retrans)
        && hosts == Tracked(old(hosts), limits, host, now, e, Counts(host), promoted)
      ensures if promoted then Promoted(host) && dirty else learned == old(learned) && dirty == old(dirty)
    {
      if |host| == 0 {
        return false;
      }
      Tick(now);
      if learned.Match(host) {
        Record(RetransAt(host, now));
        return false;
      }
      promoted := BumpRetrans(host, now);
      if promoted {
        promoted := Promote(host);
      }
    }

    /** Writes the list to its file; a failed write leaves the file and the flag alone. */
    method Flush(writable: bool) returns (ok: bool)
      requires Valid()
      modifies this`dirty, this`file
      ensures Valid()
      ensures ok ==> !dirty && SameEntries(file, learned.root)
      ensures !ok ==> !writable && dirty == old(dirty) && file == old(file)
      ensures !old(dirty) ==> ok && file == old(file)
    {
      if !dirty {
        return true;
      }
      if !writable {
        return false;
      }
      file := learned.root;
      dirty := false;
      ok := true;
    }
  }

  datatype Call = CallFail(host: Host, elapsed: int) | CallRetrans(host: Host, elapsed: int) | CallFlush(writable: bool)

  predicate Forward(calls: seq<Call>) { forall i :: 0 <= i < |calls| && !calls[i].CallFlush? ==> calls[i].elapsed >= 0 }

  /** Main result: after any history of calls, every listed host was in the file at the
      start or earned its place (inside one window while the clock does not step back);
      the list still matches whatever it matched at the start; the pending table is
      bounded; and a clean flag means the file equals the list. */
  method AnyHistory(list: AutoHostList, start: int, calls: seq<Call>)
    requires list.Valid()
    modifies list
    ensures list.Valid()
    ensures old(list.clock.forward && list.clock.ns <= start) && Forward(calls) ==> list.clock.forward
    ensures forall x :: Has(list.learned.root, x) ==> Has(list.initial, x) || Earned(list.log, list.limits, x, list.clock.forward)
    ensures forall x :: old(Has(list.learned.root, x)) ==> Has(list.learned.root, x)
    ensures forall q :: old(list.learned.Match(q)) ==> list.learned.Match(q)
    ensures |list.hosts| <= MAX_TRACKED
    ensures !list.dirty ==> SameEntries(list.file, list.learned.root)
  {
    ghost var before := list.learned;
    ghost var steady := list.clock.forward && list.clock.ns <= start && Forward(calls);
    var now := start;
    for i := 0 to |calls|
      invariant list.Valid() && (steady ==> list.clock.forward && list.clock.ns <= now)
      invariant forall x :: Has(before.root, x) ==> Has(list.learned.root, x)
    {
      match calls[i] {
        case CallFail(host, elapsed) =>
          now := now + elapsed;
          var _ := list.Fail(host, now);
        case CallRetrans(host, elapsed) =>
          now := now + elapsed;
          var _ := list.Retrans(host, now);
        case CallFlush(writable) => var _ := list.Flush(writable);
      }
    }
    MatchGrows(before, list.learned);
  }

  /** It needs the clock: after a step back, failures far apart add up in one counter. */
  lemma StepBackStretchesWindow()
    ensures var l := Limits(3, 60 * SECOND, 3);
      Counter(Entry(0, 0, 0), l, [1000 * SECOND, 1 * SECOND, 2 * SECOND]).fails == l.fails
  {
    var l, ts := Limits(3, 60 * SECOND, 3), [1000 * SECOND, 1 * SECOND, 2 * SECOND];
    assert ts[..2] == [1000 * SECOND, 1 * SECOND] && ts[..2][..1] == [1000 * SECOND] && ts[..2][..1][..0] == [];
    assert Counter(Entry(0, 0, 0), l, ts[..2][..1]) == Entry(1, 0, 1000 * SECOND);
    assert Counter(Entry(0, 0, 0), l, ts[..2]) == Entry(2, 0, 1000 * SECOND);
  }

  /** The pending table after a call: untouched, counted, or without the promoted host. */
  function Tracked(hosts: map<Host, Entry>, l: Limits, h: Host, now: int, e: Entry, counts: bool, promoted: bool): map<Host, Entry> {
    if !counts then hosts
    else if promoted then Room(hosts, l, h, now)[h := e] - {h}
    else Room(hosts, l, h, now)[h := e]
  }

  lemma Overwrite(m: map<Host, Entry>, h: Host, a: Entry, b: Entry)
    ensures m[h := a][h := b] == m[h := b]
  {
  }

  lemma FewerKeys(a: map<Host, Entry>, b: map<Host, Entry>)
    requires a.Keys <= b.Keys
    ensures |a| <= |b|
  {
    if a.Keys == b.Keys {
    } else {
      assert |a.Keys| + |b.Keys - a.Keys| == |b.Keys|;
    }
  }

  lemma MatchGrows(a: HostSet, b: HostSet)
    requires ProperEntries(a.root) && ProperEntries(b.root) && !a.any && !b.any
    requires forall x :: Has(a.root, x) ==> Has(b.root, x)
    ensures forall q :: a.Match(q) ==> b.Match(q)
  {
    forall q | a.Match(q) ensures b.Match(q) {
      WalkIsSuffixRule(a.root, q);
      WalkIsSuffixRule(b.root, q);
    }
  }

  /** A promotion takes effect exactly when the host has no empty label: promoting
      "a..b" is reported as a success and lists nothing. */
  lemma PromotionTakesEffectExactly(s: HostSet, h: Host)
    requires ProperEntries(s.root) && !s.Match(h) && |h| > 0
    ensures s.Add(h).Match(h) <==> Proper(h)
  {
    forall x ensures Has(s.Add(h).root, x) <==> Has(s.root, x) || (x == h && Proper(h)) {
      InsertAdds(s.root, h, x);
    }
    WalkIsSuffixRule(s.root, h);
    WalkIsSuffixRule(s.Add(h).root, h);
    assert h[..|h|] == h;
  }

  /** It happens. */
  lemma MalformedPromotionListsNothing()
    ensures var s, h := HostSet(LEAF, false), ["b", "", "a"]; !s.Match(h) && !s.Add(h).Match(h)
  {
    var s, h := HostSet(LEAF, false), ["b", "", "a"];
    assert forall e :: !Has(LEAF, e);
    PromotionTakesEffectExactly(s, h);
    assert h[1] == "";
  }
}
