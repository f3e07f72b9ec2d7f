/** Numbers in the memory of a little- or big-endian host, and the in-place reversals that turn them
    into the big-endian bytes of the format and back. Both kinds of host produce and accept the
    same bytes. */
module HostMemory {
  import opened Bytes

  function Reversed(s: seq<byte>): (r: seq<byte>)
    ensures |r| == |s|
  {
    if s == [] then [] else Reversed(s[1..]) + [s[0]]
  }

  lemma {:induction false} ReversedAt(s: seq<byte>, k: nat)
    requires k < |s|
    ensures Reversed(s)[k] == s[|s| - 1 - k]
  {
    if k < |s| - 1 { ReversedAt(s[1..], k); }
  }

  lemma ReversedIs(s: seq<byte>, r: seq<byte>)
    requires |r| == |s| && forall k :: 0 <= k < |s| ==> r[k] == s[|s| - 1 - k]
    ensures r == Reversed(s)
  {
    forall k | 0 <= k < |s| ensures r[k] == Reversed(s)[k] { ReversedAt(s, k); }
  }

  lemma ReversedTwice(s: seq<byte>)
    ensures Reversed(Reversed(s)) == s
  {
    forall k | 0 <= k < |s| ensures Reversed(Reversed(s))[k] == s[k] {
      ReversedAt(Reversed(s), k);
      ReversedAt(s, |s| - 1 - k);
    }
  }

  /** How a host keeps a number of `w` bytes. */
  function Stored(n: nat, w: nat, littleEndian: bool): (s: seq<byte>)
    ensures |s| == w
  {
    if littleEndian then Reversed(BigEndian(n, w)) else BigEndian(n, w)
  }

  /** The number that a host sees in some bytes. */
  function Loaded(s: seq<byte>, littleEndian: bool): nat
  {
    FromBigEndian(if littleEndian then Reversed(s) else s)
  }

  lemma LoadInverts(n: nat, w: nat, littleEndian: bool)
    ensures Loaded(Stored(n, w, littleEndian), littleEndian) == n <==> n < Pow256(w)
  {
    ReversedTwice(BigEndian(n, w));
    BigEndianInverts(n, w);
  }

  /** A vector of numbers in memory. */
  function StoredAll(ns: seq<nat>, w: nat, littleEndian: bool): (s: seq<byte>)
    ensures |s| == |ns| * w
  {
    if ns == [] then [] else Stored(ns[0], w, littleEndian) + StoredAll(ns[1..], w, littleEndian)
  }

  /** Every chunk of `w` bytes reversed. */
  function ChunksReversed(s: seq<byte>, w: nat): (r: seq<byte>)
    requires w > 0
    ensures |r| == |s|
  {
    if |s| < w then s else Reversed(s[..w]) + ChunksReversed(s[w..], w)
  }

  function LoadedAll(s: seq<byte>, w: nat, littleEndian: bool): (ns: seq<nat>)
    requires w > 0
  {
    if |s| < w then [] else [Loaded(s[..w], littleEndian)] + LoadedAll(s[w..], w, littleEndian)
  }

  /** Memory in file order, and back: only a little-endian host has anything to do. */
  function Flipped(s: seq<byte>, w: nat, littleEndian: bool): (r: seq<byte>)
    requires w > 0
    ensures |r| == |s|
  {
    if littleEndian then ChunksReversed(s, w) else s
  }

  lemma {:induction false} StoredFlipped(ns: seq<nat>, w: nat, littleEndian: bool)
    requires w > 0
    ensures Flipped(StoredAll(ns, w, littleEndian), w, littleEndian) == StoredAll(ns, w, false)
  {
    if ns != [] && littleEndian {
      var first, rest := Stored(ns[0], w, true), StoredAll(ns[1..], w, true);
      assert (first + rest)[..w] == first && (first + rest)[w..] == rest;
      ReversedTwice(BigEndian(ns[0], w));
      StoredFlipped(ns[1..], w, true);
    }
  }

  lemma {:induction false} FlippedLoaded(s: seq<byte>, w: nat, littleEndian: bool)
    requires w > 0
    ensures LoadedAll(Flipped(s, w, littleEndian), w, littleEndian) == LoadedAll(s, w, false)
    decreases |s|
  {
    if |s| >= w && littleEndian {
      var first, rest := Reversed(s[..w]), ChunksReversed(s[w..], w);
      assert (first + rest)[..w] == first && (first + rest)[w..] == rest;
      ReversedTwice(s[..w]);
      FlippedLoaded(s[w..], w, true);
    }
  }

  lemma {:induction false} LoadedStored(ns: seq<nat>, w: nat)
    requires w > 0 && forall i :: 0 <= i < |ns| ==> ns[i] < Pow256(w)
    ensures LoadedAll(StoredAll(ns, w, false), w, false) == ns
  {
    if ns != [] {
      var first, rest := Stored(ns[0], w, false), StoredAll(ns[1..], w, false);
      assert (first + rest)[..w] == first && (first + rest)[w..] == rest;
      LoadInverts(ns[0], w, false);
      LoadedStored(ns[1..], w);
    }
  }

  /** Any two hosts understand each other: a vector that one of them puts into file order is what
      the other one sees after taking it out of file order. */
  lemma HostsAgree(ns: seq<nat>, w: nat, writer: bool, reader: bool)
    requires w > 0 && forall i :: 0 <= i < |ns| ==> ns[i] < Pow256(w)
    ensures Flipped(StoredAll(ns, w, writer), w, writer) == Flipped(StoredAll(ns, w, reader), w, reader)
    ensures LoadedAll(Flipped(Flipped(StoredAll(ns, w, writer), w, writer), w, reader), w, reader) == ns
  {
    StoredFlipped(ns, w, writer);
    StoredFlipped(ns, w, reader);
    FlippedLoaded(StoredAll(ns, w, false), w, reader);
    LoadedStored(ns, w);
  }

  /** Reverses a stretch of an array and touches nothing else. */
  method ReverseRange(a: array<byte>, lo: nat, hi: nat)
    requires lo <= hi <= a.Length
    modifies a
    ensures a[..lo] == old(a[..lo]) && a[hi..] == old(a[hi..])
    ensures a[lo..hi] == Reversed(old(a[lo..hi]))
  {
    hide Reversed;
    var i, j := lo, hi;
    ghost var was := a[..];
    while i + 1 < j
      invariant lo <= i <= j <= hi && i - lo == hi - j
      invariant forall k :: lo <= k < i || j <= k < hi ==> a[k] == was[lo + hi - 1 - k]
      invariant forall k :: 0 <= k < lo || i <= k < j || hi <= k < a.Length ==> a[k] == was[k]
    {
      j := j - 1;
      a[i], a[j] := a[j], a[i];
      i := i + 1;
    }
    ReversedIs(was[lo..hi], a[lo..hi]);
  }

  /** `s` is a whole number of chunks. */
  predicate Chunked(s: seq<byte>, w: nat)
    requires w > 0
  {
    s == [] || (|s| >= w && Chunked(s[w..], w))
  }

  lemma {:induction false} ChunksAppend(s: seq<byte>, t: seq<byte>, w: nat)
    requires w > 0 && Chunked(s, w) && |t| == w
    ensures ChunksReversed(s + t, w) == ChunksReversed(s, w) + Reversed(t) && Chunked(s + t, w)
    decreases |s|
  {
    if s == [] {
      assert s + t == t && t[..w] == t && t[w..] == [];
    } else {
      assert (s + t)[..w] == s[..w] && (s + t)[w..] == s[w..] + t;
      ChunksAppend(s[w..], t, w);
    }
  }

  /** The size of `n` chunks. */
  function Chunks(n: nat, w: nat): nat { if n == 0 then 0 else Chunks(n - 1, w) + w }

  lemma {:induction false} ChunksAre(n: nat, w: nat)
    ensures Chunks(n, w) == n * w
  {
    if n > 0 {
      ChunksAre(n - 1, w);
      assert n * w == (n - 1) * w + w;
    }
  }

  lemma ChunksStart(w: nat)
    requires w > 0
    ensures Chunks(0, w) == 0 && Chunked([], w) && ChunksReversed([], w) == []
  {
  }

  lemma {:induction false} MoreChunks(i: nat, n: nat, w: nat)
    requires i < n
    ensures Chunks(i, w) + w == Chunks(i + 1, w) <= Chunks(n, w)
  {
    if i + 1 < n { MoreChunks(i, n - 1, w); }
  }

  /** Changes the byte order of `n` numbers in place. */
  method FlipChunks(a: array<byte>, w: nat, n: nat)
    requires w > 0 && a.Length == Chunks(n, w)
    modifies a
    ensures a[..] == ChunksReversed(old(a[..]), w)
  {
    hide Chunks, Chunked, ChunksReversed, Reversed;
    ghost var was := a[..];
    var copy := 0;
    ChunksStart(w);
    assert was[..0] == [];
    for i := 0 to n
      invariant copy == Chunks(i, w) && copy <= a.Length
      invariant Chunked(was[..copy], w)
      invariant a[..copy] == ChunksReversed(was[..copy], w)
      invariant a[copy..] == was[copy..]
    {
      MoreChunks(i, n, w);
      assert a[copy..copy + w] == a[copy..][..w] == was[copy..][..w] == was[copy..copy + w];
      assert a[copy + w..] == a[copy..][w..] == was[copy..][w..] == was[copy + w..];
      ReverseRange(a, copy, copy + w);
      ChunksAppend(was[..copy], was[copy..copy + w], w);
      assert was[..copy] + was[copy..copy + w] == was[..copy + w];
      assert a[..copy + w] == a[..copy] + a[copy..copy + w];
      copy := copy + w;
    }
    assert a[..copy] == a[..] && was[..copy] == was;
  }
}
