/** Domain sets: a tree of labels read from right to left, matched by suffix. */
module Hosts {

  /** A host name as its labels, right to left: "cdn.discord.com" is
      ["com", "discord", "cdn"]. The empty list is "no host name". */
  type Host = seq<string>

  datatype Node = Node(kids: map<string, Node>, terminal: bool)

  const LEAF := Node(map[], false)

  /** The entry spelled by the labels ends at a terminal node. */
  predicate Has(n: Node, e: Host)
    decreases |e|
  {
    if |e| == 0 then n.terminal else e[0] in n.kids && Has(n.kids[e[0]], e[1..])
  }

  /** An entry such as "a..b" has an empty label and is not a domain. */
  predicate Proper(e: Host) { "" !in e }

  /** Inserts an entry; a malformed one leaves its path behind but no entry. */
  function Insert(n: Node, e: Host): Node
    decreases |e|
  {
    if |e| == 0 then n.(terminal := true)
    else if e[0] == "" then n
    else
      var kid := if e[0] in n.kids then n.kids[e[0]] else LEAF;
      n.(kids := n.kids[e[0] := Insert(kid, e[1..])])
  }

  /** Walks the labels of a host until an entry is complete. */
  predicate Walk(n: Node, h: Host)
    decreases |h|
  {
    |h| > 0 && h[0] != "" && h[0] in n.kids &&
    (n.kids[h[0]].terminal || Walk(n.kids[h[0]], h[1..]))
  }

  /** The suffix rule: some entry is a non-empty suffix of the host, label by label. */
  predicate SuffixListed(n: Node, h: Host) {
    exists k :: 0 < k <= |h| && Has(n, h[..k])
  }

  /** Every entry of the tree is a proper domain. */
  ghost predicate ProperEntries(n: Node) {
    forall e :: Has(n, e) ==> Proper(e)
  }

  /** Inserting adds exactly the entry, and only when it is proper. */
  lemma {:induction false} InsertAdds(n: Node, e: Host, x: Host)
    ensures Has(Insert(n, e), x) <==> Has(n, x) || (x == e && Proper(e))
    decreases |e|
  {
    if |e| > 0 && e[0] != "" {
      var kid := if e[0] in n.kids then n.kids[e[0]] else LEAF;
      if |x| > 0 && x[0] == e[0] {
        InsertAdds(kid, e[1..], x[1..]);
        assert x == e <==> x[1..] == e[1..];
        assert e == [e[0]] + e[1..];
        if e[0] !in n.kids { NothingInLeaf(x[1..]); }
      }
    }
  }

  lemma NothingInLeaf(x: Host)
    ensures !Has(LEAF, x)
  {
  }

  /** The walk is the suffix rule. */
  lemma {:induction false} WalkIsSuffixRule(n: Node, h: Host)
    requires ProperEntries(n)
    ensures Walk(n, h) <==> SuffixListed(n, h)
    decreases |h|
  {
    if |h| > 0 {
      if h[0] == "" || h[0] !in n.kids {
        forall k | 0 < k <= |h| ensures !Has(n, h[..k]) {
          assert h[..k][0] == h[0] && h[0] in h[..k];
        }
      } else {
        var kid := n.kids[h[0]];
        KidProper(n, h[0]);
        WalkIsSuffixRule(kid, h[1..]);
        forall k | 0 < k <= |h| ensures Has(n, h[..k]) <==> Has(kid, h[1..][..k - 1]) {
          assert h[..k][1..] == h[1..][..k - 1];
        }
        if Walk(n, h) {
          if kid.terminal {
            assert Has(kid, h[1..][..0]);
            assert Has(n, h[..1]);
          } else {
            var k :| 0 < k <= |h[1..]| && Has(kid, h[1..][..k]);
            assert h[1..][..k] == h[1..][..(k + 1) - 1];
            assert Has(n, h[..k + 1]);
          }
        }
        if SuffixListed(n, h) {
          var k :| 0 < k <= |h| && Has(n, h[..k]);
          assert Has(kid, h[1..][..k - 1]);
          if k == 1 { assert h[1..][..0] == []; } else { assert SuffixListed(kid, h[1..]); }
        }
      }
    }
  }

  lemma KidProper(n: Node, l: string)
    requires ProperEntries(n) && l in n.kids
    ensures ProperEntries(n.kids[l])
  {
    forall e | Has(n.kids[l], e) ensures Proper(e) {
      assert ([l] + e)[1..] == e;
      assert Has(n, [l] + e);
      assert forall s :: s in e ==> s in [l] + e;
    }
  }

  /** A domain set; `any` is the empty-file state that matches every host. */
  datatype HostSet = HostSet(root: Node, any: bool) {
    predicate Match(h: Host) { any || Walk(root, h) }
    function Add(e: Host): HostSet { HostSet(Insert(root, e), any) }
  }
}
