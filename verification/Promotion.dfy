/** Enough retransmissions do put a host on the self-learning list. */
module Promotion {
  import opened Hosts
  import opened AutoList

  predicate Resend(call: Call, h: Host) { call.CallRetrans? && call.host == h }

  /** How many of the calls report a retransmission to h. */
  function Resends(calls: seq<Call>, h: Host): nat {
    if |calls| == 0 then 0
    else Resends(calls[..|calls| - 1], h) + if Resend(calls[|calls| - 1], h) then 1 else 0
  }

  /** h is covered by the list, or its counter stands where n retransmissions leave it. */
  predicate Counting(learned: HostSet, hosts: map<Host, Entry>, l: Limits, h: Host, n: nat) {
    learned.Match(h) || n == 0 || (h in hosts && n <= hosts[h].retrans < l.retrans)
  }

  lemma Listed(a: HostSet, b: HostSet, x: Host)
    requires ProperEntries(a.root) && ProperEntries(b.root) && !a.any && !b.any
    requires forall y :: Has(b.root, y) <==> Has(a.root, y) || (y == x && Proper(x))
    ensures forall q :: a.Match(q) ==> b.Match(q)
    ensures |x| > 0 && Proper(x) ==> b.Match(x)
  {
    MatchGrows(a, b);
    WalkIsSuffixRule(b.root, x);
    assert x[..|x|] == x;
  }

  method CountResend(list: AutoHostList, x: Host, now: int, ghost h: Host, ghost n: nat)
    requires list.Valid() && |list.hosts| < MAX_TRACKED && |h| > 0 && Proper(h)
    requires Counting(list.learned, list.hosts, list.limits, h, n)
    modifies list
    ensures list.Valid() && |list.hosts| <= old(|list.hosts|) + 1
    ensures Counting(list.learned, list.hosts, list.limits, h, if x == h then n + 1 else n)
  {
    ghost var before := list.learned;
    var promoted := list.Retrans(x, now);
    if promoted {
      Listed(before, list.learned, x);
    }
  }

  method CountFail(list: AutoHostList, x: Host, now: int, ghost h: Host, ghost n: nat)
    requires list.Valid() && |list.hosts| < MAX_TRACKED && |h| > 0 && Proper(h)
    requires Counting(list.learned, list.hosts, list.limits, h, n)
    modifies list
    ensures list.Valid() && |list.hosts| <= old(|list.hosts|) + 1
    ensures Counting(list.learned, list.hosts, list.limits, h, n)
  {
    ghost var before := list.learned;
    var promoted := list.Fail(x, now);
    if promoted {
      Listed(before, list.learned, x);
    }
  }

  /** A well-formed host is covered once the calls report as many retransmissions to it
      as the threshold, whatever else they report, at whatever times and with flushes in
      between, as long as the pending table never has to make room. */
  method ResendsListHost(list: AutoHostList, start: int, calls: seq<Call>, h: Host)
    requires list.Valid() && |h| > 0 && Proper(h)
    requires |list.hosts| + |calls| <= MAX_TRACKED
    requires 0 < list.limits.retrans <= Resends(calls, h)
    modifies list
    ensures list.Valid() && list.learned.Match(h)
  {
    var now := start;
    for i := 0 to |calls|
      invariant list.Valid() && |list.hosts| <= old(|list.hosts|) + i
      invariant Counting(list.learned, list.hosts, list.limits, h, Resends(calls[..i], h))
    {
      assert calls[..i + 1][..i] == calls[..i];
      match calls[i] {
        case CallFail(x, elapsed) =>
          now := now + elapsed;
          CountFail(list, x, now, h, Resends(calls[..i], h));
        case CallRetrans(x, elapsed) =>
          now := now + elapsed;
          CountResend(list, x, now, h, Resends(calls[..i], h));
        case CallFlush(writable) => var _ := list.Flush(writable);
      }
    }
    assert calls[..|calls|] == calls;
  }
}
