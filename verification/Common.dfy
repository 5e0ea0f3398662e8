/** Bytes, optional values, hash functions and views shared by every protocol of the orderer. */
module Common {

  datatype Option<+T> = None | Some(value: T)

  type Byte = x: int | 0 <= x < 256

  // A Go byte slice. The nil slice and the empty slice are both [].
  type Bytes = seq<Byte>

  // A hash function, written Sum in the source. Nothing is assumed of it but the digest length.
  type Hasher = Bytes -> Bytes

  const DIGEST_LENGTH := 32

  ghost predicate IsDigest(sum: Hasher) {
    forall content: Bytes :: |sum(content)| == DIGEST_LENGTH
  }

  // Two different byte strings with the same digest.
  predicate Collides(sum: Hasher, a: Bytes, b: Bytes) {
    a != b && sum(a) == sum(b)
  }

  // Go's byte(x) keeps the low eight bits of x.
  function ToByte(x: int): Byte {
    x % 256
  }

  function Concat(parts: seq<Bytes>): Bytes {
    if parts == [] then [] else parts[0] + Concat(parts[1..])
  }

  // trans are the commands, those above 128 bytes cut off there.
  ghost predicate CutFrom(trans: seq<Bytes>, cmds: seq<Bytes>) {
    |trans| == |cmds| && forall j :: 0 <= j < |cmds| ==>
      && trans[j] <= cmds[j]
      && (|cmds[j]| <= 128 ==> trans[j] == cmds[j])
      && (|cmds[j]| > 128 ==> |trans[j]| == 128)
  }

  // The largest number of votes, (n-1)/3*2, that is still not a quorum.
  function VoteBound(nodesNum: nat): nat {
    if nodesNum == 0 then 0 else (nodesNum - 1) / 3 * 2
  }

  datatype View = View(viewNumber: int, leader: nat, nodesNum: nat) {
    predicate Valid() {
      nodesNum > 0 && leader < nodesNum
    }

    function NextView(): View
      requires nodesNum > 0
    {
      View(viewNumber + 1, (leader + 1) % nodesNum, nodesNum)
    }
  }

  /* Rotation of leaders */

  // The leader of view v: view 0 starts with node 0, and every view hands over to the next node.
  function LeaderAt(v: int, n: nat): nat
    requires n > 0
    ensures LeaderAt(v, n) < n
  {
    v % n
  }

  lemma ModUnique(x: int, q: int, r: int, n: int)
    requires x == q * n + r && 0 <= r < n
    ensures x % n == r
  {
    var d := x / n - q;
    assert d * n == r - x % n by {
      assert x == (x / n) * n + x % n;
    }
    assert d != 0 ==> d * n >= n || d * n <= -n;
  }

  lemma ModSucc(x: int, n: int)
    requires 0 < n
    ensures (x % n + 1) % n == (x + 1) % n
  {
    var q, r := x / n, x % n;
    if r + 1 < n {
      ModUnique(x + 1, q, r + 1, n);
      ModUnique(r + 1, 0, r + 1, n);
    } else {
      ModUnique(x + 1, q + 1, 0, n);
      ModUnique(n, 1, 0, n);
    }
  }

  lemma ModAdd(x: int, k: int, n: int)
    requires 0 < n
    ensures (x % n + k) % n == (x + k) % n
  {
    var q, r := (x + k) / n, (x + k) % n;
    ModUnique(x % n + k, q - x / n, r, n);
  }

  /* Finite sets and maxima */

  lemma {:induction false} SetIsBounded(s: set<nat>, n: nat)
    requires forall x <- s :: x < n
    ensures |s| <= n
  {
    if n == 0 {
      assert s == {};
    } else {
      SetIsBounded(s - {n - 1}, n - 1);
    }
  }

  // Index of the first largest of views[..n].
  function FirstMaxUpTo(views: seq<int>, n: nat): (i: nat)
    requires 0 < n <= |views|
    ensures i < n
  {
    if n == 1 then 0
    else
      var i := FirstMaxUpTo(views, n - 1);
      if views[n - 1] > views[i] then n - 1 else i
  }

  lemma {:induction false} FirstMaxIsMax(views: seq<int>, n: nat)
    requires 0 < n <= |views|
    ensures forall i :: 0 <= i < n ==> views[i] <= views[FirstMaxUpTo(views, n)]
    ensures forall i :: 0 <= i < FirstMaxUpTo(views, n) ==> views[i] < views[FirstMaxUpTo(views, n)]
  {
    if n > 1 {
      FirstMaxIsMax(views, n - 1);
    }
  }
}
