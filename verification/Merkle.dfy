/** The Merkle roots of bccrypto/merkle: the recursive split and the in-place pairing loop. */
module Merkle {
  import opened Common

  function EmptyHash(sum: Hasher): Bytes {
    sum([])
  }

  // The recursive version hashes its leaves without the 0x00 prefix.
  function PlainLeafHash(sum: Hasher, leaf: Bytes): Bytes {
    sum(leaf)
  }

  function PrefixedLeafHash(sum: Hasher, leaf: Bytes): Bytes {
    sum([0] + leaf)
  }

  function InnerHash(sum: Hasher, left: Bytes, right: Bytes): Bytes {
    sum([1] + left + right)
  }

  function Pow2(e: nat): (p: nat)
    ensures p > 0
  {
    if e == 0 then 1 else 2 * Pow2(e - 1)
  }

  // Number of bits of n, as bits.Len.
  function BitLen(n: nat): nat {
    if n == 0 then 0 else 1 + BitLen(n / 2)
  }

  lemma {:induction false} BitLenBounds(n: nat)
    requires n > 0
    ensures BitLen(n) > 0
    ensures Pow2(BitLen(n) - 1) <= n < 2 * Pow2(BitLen(n) - 1)
  {
    if n > 1 {
      BitLenBounds(n / 2);
    } else {
      assert BitLen(n / 2) == 0;
    }
  }

  // k is the largest power of two below n.
  ghost predicate IsSplit(k: nat, n: nat) {
    k < n <= 2 * k && exists e: nat :: k == Pow2(e)
  }

  // The source panics on a length below one.
  function GetSplitPoint(length: nat): nat
    requires length >= 1
  {
    var k := Pow2(BitLen(length) - 1);
    if k == length then k / 2 else k
  }

  // The largest power of two below n.
  function SplitBelow(n: nat): (k: nat)
    requires n >= 2
    ensures 1 <= k < n
  {
    if n == 2 then 1 else 2 * SplitBelow((n + 1) / 2)
  }

  lemma {:induction false} Pow2Grows(d: nat, e: nat)
    requires d < e
    ensures 2 * Pow2(d) <= Pow2(e)
  {
    if d + 1 < e {
      Pow2Grows(d, e - 1);
    }
  }

  lemma SplitIsUnique(k: nat, j: nat, n: nat)
    requires IsSplit(k, n) && IsSplit(j, n)
    ensures k == j
  {
    var d: nat :| k == Pow2(d);
    var e: nat :| j == Pow2(e);
    if d < e { Pow2Grows(d, e); }
    if e < d { Pow2Grows(e, d); }
  }

  lemma {:induction false} SplitBelowIsSplit(n: nat)
    requires n >= 2
    ensures IsSplit(SplitBelow(n), n)
  {
    if n == 2 {
      assert Pow2(0) == 1;
    } else {
      SplitBelowIsSplit((n + 1) / 2);
      var e: nat :| SplitBelow((n + 1) / 2) == Pow2(e);
      assert Pow2(e + 1) == SplitBelow(n);
    }
  }

  lemma SplitPointIsLargestPowerBelow(length: nat)
    requires length >= 1
    ensures length == 1 ==> GetSplitPoint(length) == 0
    ensures length >= 2 ==> GetSplitPoint(length) == SplitBelow(length) && IsSplit(GetSplitPoint(length), length)
  {
    BitLenBounds(length);
    var e := BitLen(length) - 1;
    if length >= 2 {
      if Pow2(e) == length {
        assert Pow2(e) / 2 == Pow2(e - 1);
      }
      SplitBelowIsSplit(length);
      SplitIsUnique(GetSplitPoint(length), SplitBelow(length), length);
    }
  }

  // The tree of section 2.1 of RFC 6962 above leaves that are hashed already.
  function Tree(sum: Hasher, items: seq<Bytes>): Bytes
    requires items != []
  {
    if |items| == 1 then items[0]
    else
      var k := SplitBelow(|items|);
      InnerHash(sum, Tree(sum, items[..k]), Tree(sum, items[k..]))
  }

  function MapLeaves(f: Bytes -> Bytes, input: seq<Bytes>): seq<Bytes> {
    seq(|input|, i requires 0 <= i < |input| => f(input[i]))
  }

  function HashedLeaves(sum: Hasher, input: seq<Bytes>): seq<Bytes> {
    MapLeaves(leaf => PrefixedLeafHash(sum, leaf), input)
  }

  // The Merkle tree hash MTH of section 2.1 of RFC 6962.
  function MerkleTreeHash(sum: Hasher, input: seq<Bytes>): Bytes {
    if input == [] then EmptyHash(sum)
    else Tree(sum, HashedLeaves(sum, input))
  }

  function HashFromByteSlices(sum: Hasher, input: seq<Bytes>): Bytes {
    if |input| == 0 then EmptyHash(sum)
    else if |input| == 1 then PlainLeafHash(sum, input[0])
    else
      SplitPointIsLargestPowerBelow(|input|);
      var k := GetSplitPoint(|input|);
      InnerHash(sum, HashFromByteSlices(sum, input[..k]), HashFromByteSlices(sum, input[k..]))
  }

  // The recursive version builds the same tree; only its leaf hash differs from RFC 6962.
  lemma {:induction false} RecursiveIsTree(sum: Hasher, input: seq<Bytes>)
    requires input != []
    ensures HashFromByteSlices(sum, input) == Tree(sum, MapLeaves(leaf => PlainLeafHash(sum, leaf), input))
  {
    if |input| > 1 {
      SplitPointIsLargestPowerBelow(|input|);
      var k := GetSplitPoint(|input|);
      var f := leaf => PlainLeafHash(sum, leaf);
      RecursiveIsTree(sum, input[..k]);
      RecursiveIsTree(sum, input[k..]);
      assert MapLeaves(f, input)[..k] == MapLeaves(f, input[..k]);
      assert MapLeaves(f, input)[k..] == MapLeaves(f, input[k..]);
    }
  }

  /* Bottom-up pairing */

  function PairAt(sum: Hasher, items: seq<Bytes>, j: nat): Bytes
    requires 2 * j < |items|
  {
    if 2 * j + 1 < |items| then InnerHash(sum, items[2 * j], items[2 * j + 1]) else items[2 * j]
  }

  // One pass of the pairing loop; an odd last item moves up unchanged.
  function PairUp(sum: Hasher, items: seq<Bytes>): seq<Bytes> {
    seq((|items| + 1) / 2, j requires 0 <= j < (|items| + 1) / 2 => PairAt(sum, items, j))
  }

  // Pairing commutes with the split.
  lemma PairUpSplits(sum: Hasher, items: seq<Bytes>, k: nat)
    requires k % 2 == 0 && k < |items|
    ensures PairUp(sum, items)[..k / 2] == PairUp(sum, items[..k])
    ensures PairUp(sum, items)[k / 2..] == PairUp(sum, items[k..])
  {
    var up, left, right := PairUp(sum, items), PairUp(sum, items[..k]), PairUp(sum, items[k..]);
    forall j | 0 <= j < k / 2 ensures up[j] == left[j] {
      assert 2 * j + 1 < k;
    }
    forall j | 0 <= j < |right| ensures up[k / 2 + j] == right[j] {
      assert PairAt(sum, items, k / 2 + j) == PairAt(sum, items[k..], j);
    }
  }

  // The split of the level above is the pairing of the two halves.
  lemma PairedTreeSplits(sum: Hasher, items: seq<Bytes>, k: nat)
    requires |items| >= 3 && k == SplitBelow(|items|)
    ensures Tree(sum, PairUp(sum, items)) == InnerHash(sum, Tree(sum, PairUp(sum, items[..k])), Tree(sum, PairUp(sum, items[k..])))
  {
    PairUpSplits(sum, items, k);
    var up := PairUp(sum, items);
    assert SplitBelow(|up|) == k / 2;
  }

  lemma {:induction false} PairUpKeepsTree(sum: Hasher, items: seq<Bytes>)
    requires items != []
    ensures Tree(sum, PairUp(sum, items)) == Tree(sum, items)
    decreases |items|
  {
    var up := PairUp(sum, items);
    if |items| == 1 {
      assert up == items;
    } else if |items| == 2 {
      assert items[..1] == [items[0]] && items[1..] == [items[1]];
    } else {
      var k := SplitBelow(|items|);
      PairedTreeSplits(sum, items, k);
      PairUpKeepsTree(sum, items[..k]);
      PairUpKeepsTree(sum, items[k..]);
    }
  }

  // One pass over items[..size], in place. The write position never passes the read
  // position, so no unread item is overwritten.
  method PairInPlace(sum: Hasher, items: array<Bytes>, size: nat) returns (wp: nat)
    requires size <= items.Length
    modifies items
    ensures wp <= size
    ensures items[..wp] == PairUp(sum, old(items[..size]))
  {
    ghost var level := items[..size];
    var rp := 0;
    wp := 0;
    while rp < size
      invariant wp <= rp <= size
      invariant wp == (rp + 1) / 2 && (rp == size || rp % 2 == 0)
      invariant forall j :: 0 <= j < wp ==> items[j] == PairAt(sum, level, j)
      invariant forall j :: rp <= j < size ==> items[j] == level[j]
    {
      hide InnerHash, Tree;
      assert rp == 2 * wp && items[rp] == level[rp];
      if rp + 1 < size {
        assert PairAt(sum, level, wp) == InnerHash(sum, items[rp], items[rp + 1]);
        items[wp] := InnerHash(sum, items[rp], items[rp + 1]);
        rp := rp + 2;
      } else {
        assert PairAt(sum, level, wp) == items[rp];
        items[wp] := items[rp];
        rp := rp + 1;
      }
      wp := wp + 1;
    }
  }

  method HashFromByteSlicesIterative(sum: Hasher, input: seq<Bytes>) returns (root: Bytes)
    ensures root == MerkleTreeHash(sum, input)
  {
    var items := new Bytes[|input|];
    for i := 0 to |input|
      invariant forall j :: 0 <= j < i ==> items[j] == PrefixedLeafHash(sum, input[j])
    {
      items[i] := PrefixedLeafHash(sum, input[i]);
    }
    assert items[..items.Length] == HashedLeaves(sum, input);
    var size := items.Length;
    while size > 1
      invariant 0 <= size <= items.Length
      invariant size == 0 <==> input == []
      invariant size > 0 ==> Tree(sum, items[..size]) == MerkleTreeHash(sum, input)
    {
      PairUpKeepsTree(sum, items[..size]);
      size := PairInPlace(sum, items, size);
    }
    assert size == 1 ==> items[..size] == [items[0]];
    root := if size == 0 then EmptyHash(sum) else items[0];
  }

  /* Binding */

  // The byte string whose digest is the root of a non-empty list.
  function Preimage(sum: Hasher, input: seq<Bytes>): Bytes
    requires input != []
  {
    if |input| == 1 then [0] + input[0]
    else
      var k := SplitBelow(|input|);
      [1] + MerkleTreeHash(sum, input[..k]) + MerkleTreeHash(sum, input[k..])
  }

  lemma RootIsDigestOfPreimage(sum: Hasher, input: seq<Bytes>)
    requires input != []
    ensures MerkleTreeHash(sum, input) == sum(Preimage(sum, input))
  {
    if |input| > 1 {
      var k := SplitBelow(|input|);
      assert HashedLeaves(sum, input)[..k] == HashedLeaves(sum, input[..k]);
      assert HashedLeaves(sum, input)[k..] == HashedLeaves(sum, input[k..]);
    }
  }

  // The string hashed for the root of any list.
  function Hashed(sum: Hasher, input: seq<Bytes>): Bytes {
    if input == [] then [] else Preimage(sum, input)
  }

  lemma RootIsDigest(sum: Hasher, input: seq<Bytes>)
    ensures MerkleTreeHash(sum, input) == sum(Hashed(sum, input))
  {
    if input != [] { RootIsDigestOfPreimage(sum, input); }
  }

  lemma RootLength(sum: Hasher, input: seq<Bytes>)
    requires IsDigest(sum) && input != []
    ensures |MerkleTreeHash(sum, input)| == DIGEST_LENGTH
  {
    RootIsDigestOfPreimage(sum, input);
  }

  // Equal preimages of two inner nodes have equal halves, since digests have one length.
  lemma InnerHalvesAgree(sum: Hasher, xs: seq<Bytes>, ys: seq<Bytes>)
    requires IsDigest(sum) && |xs| > 1 && |ys| > 1
    requires Preimage(sum, xs) == Preimage(sum, ys)
    ensures MerkleTreeHash(sum, xs[..SplitBelow(|xs|)]) == MerkleTreeHash(sum, ys[..SplitBelow(|ys|)])
    ensures MerkleTreeHash(sum, xs[SplitBelow(|xs|)..]) == MerkleTreeHash(sum, ys[SplitBelow(|ys|)..])
  {
    var i, j := SplitBelow(|xs|), SplitBelow(|ys|);
    var l, r := MerkleTreeHash(sum, xs[..i]), MerkleTreeHash(sum, xs[i..]);
    var l', r' := MerkleTreeHash(sum, ys[..j]), MerkleTreeHash(sum, ys[j..]);
    RootLength(sum, xs[..i]);
    RootLength(sum, ys[..j]);
    var a, b := [1] + l + r, [1] + l' + r';
    assert l == a[1..33] && r == a[33..] && l' == b[1..33] && r' == b[33..];
  }

  lemma LeafPreimageFixesLeaf(sum: Hasher, xs: seq<Bytes>, ys: seq<Bytes>)
    requires |xs| == 1 && |ys| == 1
    ensures Preimage(sum, xs) == Preimage(sum, ys) ==> xs == ys
  {
    assert Preimage(sum, xs)[1..] == xs[0] && Preimage(sum, ys)[1..] == ys[0];
    assert xs == [xs[0]] && ys == [ys[0]];
  }

  // The first byte tells leaves from inner nodes.
  lemma FirstByte(sum: Hasher, input: seq<Bytes>)
    ensures input == [] <==> Hashed(sum, input) == []
    ensures input != [] ==> Hashed(sum, input) == Preimage(sum, input) && Hashed(sum, input)[0] == (if |input| == 1 then 0 else 1)
  {
    hide MerkleTreeHash, SplitBelow;
  }

  // Equal preimages of different lists are those of two inner nodes.
  lemma SamePreimage(sum: Hasher, xs: seq<Bytes>, ys: seq<Bytes>)
    requires IsDigest(sum) && xs != ys
    requires Hashed(sum, xs) == Hashed(sum, ys)
    ensures |xs| > 1 && |ys| > 1
    ensures MerkleTreeHash(sum, xs[..SplitBelow(|xs|)]) == MerkleTreeHash(sum, ys[..SplitBelow(|ys|)])
    ensures MerkleTreeHash(sum, xs[SplitBelow(|xs|)..]) == MerkleTreeHash(sum, ys[SplitBelow(|ys|)..])
  {
    FirstByte(sum, xs);
    FirstByte(sum, ys);
    hide MerkleTreeHash, SplitBelow, Hashed, Preimage;
    if |xs| == 1 && |ys| == 1 {
      LeafPreimageFixesLeaf(sum, xs, ys);
    } else {
      InnerHalvesAgree(sum, xs, ys);
    }
  }

  // From two different lists with one root, two different strings with one digest.
  lemma {:induction false} RootBindsLeaves(sum: Hasher, xs: seq<Bytes>, ys: seq<Bytes>) returns (a: Bytes, b: Bytes)
    requires IsDigest(sum)
    requires xs != ys && MerkleTreeHash(sum, xs) == MerkleTreeHash(sum, ys)
    ensures Collides(sum, a, b)
    decreases |xs|
  {
    hide MerkleTreeHash, SplitBelow, Hashed;
    a, b := Hashed(sum, xs), Hashed(sum, ys);
    RootIsDigest(sum, xs);
    RootIsDigest(sum, ys);
    if a == b {
      SamePreimage(sum, xs, ys);
      var i, j := SplitBelow(|xs|), SplitBelow(|ys|);
      assert xs == xs[..i] + xs[i..] && ys == ys[..j] + ys[j..];
      if xs[..i] != ys[..j] {
        a, b := RootBindsLeaves(sum, xs[..i], ys[..j]);
      } else {
        a, b := RootBindsLeaves(sum, xs[i..], ys[j..]);
      }
    }
  }

  lemma RecursiveRootLength(sum: Hasher, input: seq<Bytes>)
    requires IsDigest(sum)
    ensures |HashFromByteSlices(sum, input)| == DIGEST_LENGTH
  {
  }

  // The two root functions agree on the empty list. On any other list they hash leaves
  // differently, so equal roots expose a collision.
  lemma {:induction false} RootFunctionsDiffer(sum: Hasher, input: seq<Bytes>) returns (a: Bytes, b: Bytes)
    requires IsDigest(sum) && input != []
    requires HashFromByteSlices(sum, input) == MerkleTreeHash(sum, input)
    ensures Collides(sum, a, b)
    decreases |input|
  {
    if |input| == 1 {
      a, b := input[0], [0] + input[0];
      assert |b| == |a| + 1;
    } else {
      SplitPointIsLargestPowerBelow(|input|);
      RootIsDigestOfPreimage(sum, input);
      var k := SplitBelow(|input|);
      var l, r := HashFromByteSlices(sum, input[..k]), HashFromByteSlices(sum, input[k..]);
      a, b := [1] + l + r, Preimage(sum, input);
      if a == b {
        RecursiveRootLength(sum, input[..k]);
        RootLength(sum, input[..k]);
        assert l == a[1..33] && MerkleTreeHash(sum, input[..k]) == b[1..33];
        a, b := RootFunctionsDiffer(sum, input[..k]);
      }
    }
  }

  // Without the prefix an inner node passes for a leaf, so the recursive root binds nothing: a
  // list of one has the root of any list of two, whatever the hash.
  lemma RecursiveRootBindsNothing(sum: Hasher, a: Bytes, b: Bytes)
    ensures HashFromByteSlices(sum, [[1] + sum(a) + sum(b)]) == HashFromByteSlices(sum, [a, b])
  {
    SplitPointIsLargestPowerBelow(2);
    assert GetSplitPoint(2) == 1;
    assert [a, b][..1] == [a] && [a, b][1..] == [b];
  }
}
