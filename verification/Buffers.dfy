/** The byte-buffer loops: tiling a pattern, growing a fake hostname, resizing a
    datagram. Each is proved equal to the byte-by-byte definition in Ops. */
module Buffers {
  import opened Types
  import opened Ops
  import opened Division

  /** Copies as much of src as fits into dst from `at` on. */
  method CopyInto(dst: array<byte>, at: nat, src: Bytes) returns (n: nat)
    requires at <= dst.Length
    modifies dst
    ensures n == if |src| < dst.Length - at then |src| else dst.Length - at
    ensures forall k :: 0 <= k < dst.Length ==> dst[k] == if at <= k < at + n then src[k - at] else old(dst[k])
  {
    n := 0;
    while n < |src| && at + n < dst.Length
      invariant n <= |src| && at + n <= dst.Length
      invariant forall k :: 0 <= k < dst.Length ==> dst[k] == if at <= k < at + n then src[k - at] else old(dst[k])
    {
      dst[at + n] := src[n];
      n := n + 1;
    }
  }

  /** A whole pattern laid down where the pattern starts again continues the tiling. */
  lemma TileStep(pattern: Bytes, offset: nat, i: nat, k: nat)
    requires |pattern| > 0 && (offset + i) % |pattern| + k < |pattern|
    ensures pattern[(offset + (i + k)) % |pattern|] == pattern[(offset + i) % |pattern| + k]
  {
    ModOfSum(offset + i, k, |pattern|);
  }

  predicate TiledTo(out: array<byte>, i: nat, pattern: Bytes, offset: nat)
    requires |pattern| > 0 && i <= out.Length
    reads out
  {
    forall k :: 0 <= k < i ==> out[k] == pattern[(offset + k) % |pattern|]
  }

  /** Continues the tiling with the rest of the current pattern copy. */
  method TileMore(out: array<byte>, i: nat, pattern: Bytes, offset: nat) returns (next: nat)
    requires |pattern| > 0 && i < out.Length && TiledTo(out, i, pattern, offset)
    modifies out
    ensures i < next <= out.Length && TiledTo(out, next, pattern, offset)
    ensures next == out.Length || (offset + next) % |pattern| == 0
  {
    var off := (offset + i) % |pattern|;
    var n := CopyInto(out, i, pattern[off..]);
    next := i + n;
    forall k | 0 <= k < next ensures out[k] == pattern[(offset + k) % |pattern|] {
      if k >= i { TileStep(pattern, offset, i, k - i); }
    }
    if next < out.Length {
      ModAtEnd(offset + i, |pattern|);
      assert offset + next == offset + i + (|pattern| - off);
    }
  }

  /** n bytes of the repeated pattern, from `offset` bytes into it. */
  method TilePattern(n: int, pattern: Bytes, offset: nat) returns (r: Bytes)
    ensures r == FillPattern(n, pattern, offset)
  {
    if n <= 0 {
      return [];
    }
    var out := new byte[n](_ => 0);
    if |pattern| == 0 {
      return out[..];
    }
    var i := 0;
    while i < n
      invariant 0 <= i <= n && TiledTo(out, i, pattern, offset)
      invariant i == 0 || i == n || (offset + i) % |pattern| == 0
    {
      i := TileMore(out, i, pattern, offset);
    }
    r := out[..];
  }

  method FillRandom(dst: array<byte>, from: nat, to: nat, random: nat -> byte)
    requires from <= to <= dst.Length
    modifies dst
    ensures forall k :: 0 <= k < dst.Length ==>
      dst[k] == if from <= k < to then OneOf(ALNUM, random(k)) else old(dst[k])
  {
    for i := from to to
      invariant forall k :: 0 <= k < dst.Length ==>
        dst[k] == if from <= k < i then OneOf(ALNUM, random(k)) else old(dst[k])
    {
      dst[i] := OneOf(ALNUM, random(i));
    }
  }

  /** A wrong hostname of the same length: the template grown or cut on the left, or
      a random name under a known top-level domain. */
  method MakeFakeHost(size: nat, template: Bytes, random: nat -> byte) returns (r: Bytes)
    ensures r == FakeHost(size, template, random)
  {
    if size == 0 {
      return [];
    }
    var out := new byte[size](_ => 0);
    if |template| > 0 {
      if size <= |template| {
        var n := CopyInto(out, 0, template[|template| - size..]);
        return out[..];
      }
      var sz := size - |template|;
      var n := CopyInto(out, sz, template);
      sz := sz - 1;
      out[sz] := DOT;
      if sz > 0 {
        out[0] := OneOf(ALPHA, random(0));
        FillRandom(out, 1, sz, random);
      }
      return out[..];
    }
    out[0] := OneOf(ALPHA, random(0));
    FillRandom(out, 1, size, random);
    if size >= 7 {
      out[size - 4] := DOT;
      var tld := [TldByte(random(size), 0), TldByte(random(size), 1), TldByte(random(size), 2)];
      var n := CopyInto(out, size - 3, tld);
    }
    r := out[..];
  }

  /** Grows or cuts a datagram payload, in the order the clamps are applied. */
  method ResizeDatagram(payload: Bytes, inc: int, pattern: Bytes) returns (r: Bytes)
    ensures r == Resize(payload, inc, pattern)
  {
    var n, pad := |payload|, inc;
    if n + pad <= 0 {
      pad := -n + 1;
    }
    if n + pad > 0xFFFF {
      pad := 0xFFFF - n;
    }
    if pad < 0 {
      n := n + pad;
      pad := 0;
    }
    assert n + pad == if |payload| + inc < 1 then 1 else if |payload| + inc > 0xFFFF then 0xFFFF else |payload| + inc;
    r := payload[..n];
    if pad > 0 {
      var tail := TilePattern(pad, pattern, 0);
      r := r + tail;
    }
  }
}
