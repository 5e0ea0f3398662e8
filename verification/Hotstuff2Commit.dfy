/** The locked blocks of HotStuff-2 and what a commit stores and drops (orderer/consensus/hotstuff2). */
module Hotstuff2Commit {
  import opened Common
  import opened Blockchain
  import opened HotstuffTypes

  datatype QuromCert = QuromCert(viewNumber: int, hs2Node: HsNode, height: int, sign: Signature)

  datatype H2Proposal = H2Proposal(height: int, viewNumber: int, preBlkHash: Bytes, rootHash: Bytes, command: Option<seq<Bytes>>)

  const NO_H2PROPOSAL := H2Proposal(0, 0, [], [], None)

  datatype H2Msg = H2Msg(
    mType: StateType, viewNumber: int, hs2Node: HsNode, block: Block, consSign: Signature,
    justify1: QuromCert, justify2: QuromCert, sendNode: Option<nat>)

  // The two lock lists and the block store.
  datatype Locks = Locks(lockHs2Node: seq<HsNode>, lockBlk: seq<Block>, blkStore: Store) {
    predicate Aligned() {
      |lockHs2Node| == |lockBlk|
    }
  }

  /* Which blocks a commit covers */

  // The lock list from start to end: a maximal segment linked by parent hashes, ending at
  // the first block of the view.
  ghost predicate IsCommitRange(nodes: seq<HsNode>, blks: seq<Block>, viewNumber: int, start: int, end: int)
    requires |nodes| == |blks|
  {
    if forall b <- blks :: b.blkHdr.viewNumber != viewNumber then start == -1 && end == -1
    else
      && 0 <= start <= end < |blks|
      && blks[end].blkHdr.viewNumber == viewNumber
      && (forall i :: 0 <= i < end ==> blks[i].blkHdr.viewNumber != viewNumber)
      && (forall i :: start <= i < end ==> nodes[i].curHash == nodes[i + 1].parentHash)
      && (start > 0 ==> nodes[start - 1].curHash != nodes[start].parentHash)
  }

  lemma CommitRangeUnique(nodes: seq<HsNode>, blks: seq<Block>, v: int, s: int, e: int, s': int, e': int)
    requires |nodes| == |blks|
    requires IsCommitRange(nodes, blks, v, s, e) && IsCommitRange(nodes, blks, v, s', e')
    ensures s == s' && e == e'
  {
  }

  /* What a commit does to the lists */

  function WithoutRange<T>(s: seq<T>, start: nat, end: nat): seq<T>
    requires start <= end < |s|
  {
    s[..start] + s[end + 1..]
  }

  // The source leaves the lists alone when the range is the first entry of a longer list.
  predicate KeepsRange(start: int, end: int, count: nat) {
    start == 0 && end == 0 && count > 1
  }

  function Remaining<T>(s: seq<T>, start: nat, end: nat): seq<T>
    requires start <= end < |s|
  {
    if KeepsRange(start, end, |s|) then s else WithoutRange(s, start, end)
  }

  function StoreAll(store: Store, blks: seq<Block>): Store {
    if blks == [] then store else StoreAll(store, blks[..|blks| - 1]).StoreBlock(blks[|blks| - 1])
  }

  lemma {:induction false} StoreAllWrites(store: Store, blks: seq<Block>)
    ensures StoreAll(store, blks).written == store.written + blks
    ensures StoreAll(store, blks).height == store.height + |blks|
    ensures |blks| == 1 ==> StoreAll(store, blks).preBlkHash == store.curBlkHash
    ensures |blks| > 1 ==> StoreAll(store, blks).preBlkHash == []
    ensures blks != [] ==> StoreAll(store, blks).curBlkHash == []
  {
    if blks != [] {
      StoreAllWrites(store, blks[..|blks| - 1]);
    }
  }

  function WriteNewBlocks(l: Locks, start: int, end: int): Locks
    requires l.Aligned() && ((start == -1 || end == -1) || 0 <= start <= end < |l.lockBlk|)
  {
    if start == -1 || end == -1 then l
    else Locks(Remaining(l.lockHs2Node, start, end), Remaining(l.lockBlk, start, end),
               StoreAll(l.blkStore, l.lockBlk[start..end + 1]))
  }

  // The first block of the certificate's view gets the certificate as validation.
  ghost predicate ValidatedBy(blks: seq<Block>, after: seq<Block>, qc: QuromCert) {
    && |after| == |blks|
    && (forall i :: 0 <= i < |blks| ==>
          if blks[i].blkHdr.viewNumber == qc.viewNumber && (forall j :: 0 <= j < i ==> blks[j].blkHdr.viewNumber != qc.viewNumber)
          then after[i] == blks[i].WithValidation(qc.sign)
          else after[i] == blks[i])
  }

  // One commit on the certificate of view v: validate with qc, find the range, write it.
  ghost predicate CommitStep(l: Locks, v: int, qc: QuromCert, start: int, end: int, l1: Locks) {
    && l.Aligned() && IsCommitRange(l.lockHs2Node, l.lockBlk, v, start, end)
    && exists blks :: ValidatedBy(l.lockBlk, blks, qc) && l1 == WriteNewBlocks(l.(lockBlk := blks), start, end)
  }

  /** The part of a HotStuff-2 node that commits. Each locked block is referenced from the
      lock list only, so the list holds block values. */
  class Hotstuff2 {
    var prepareQC: QuromCert
    var lockHs2Node: seq<HsNode>
    var lockBlk: seq<Block>
    var curHs2Node: HsNode
    var curProposal: H2Proposal
    var newViewMsgs: seq<H2Msg>
    var vote1: seq<H2Msg>
    var vote2: seq<H2Msg>
    var blkStore: Store

    function State(): Locks
      reads this
    {
      Locks(lockHs2Node, lockBlk, blkStore)
    }

    constructor (sum: Hasher)
      ensures State() == Locks([], [], NewStore(sum))
    {
      prepareQC := QuromCert(0, NO_NODE, 0, NoSign);
      lockHs2Node, lockBlk := [], [];
      curHs2Node := NO_NODE;
      blkStore := NewStore(sum);
      curProposal := NO_H2PROPOSAL;
      newViewMsgs, vote1, vote2 := [], [], [];
    }

    // The source indexes both lists with the positions of one, so it relies on their alignment.
    method GenCommitBlkIndex() returns (start: int, end: int)
      requires State().Aligned()
      ensures IsCommitRange(lockHs2Node, lockBlk, prepareQC.viewNumber, start, end)
    {
      start, end := -1, -1;
      for i := 0 to |lockBlk|
        invariant start == end == -1
        invariant forall j :: 0 <= j < i ==> lockBlk[j].blkHdr.viewNumber != prepareQC.viewNumber
      {
        if lockBlk[i].blkHdr.viewNumber == prepareQC.viewNumber {
          end := i;
          break;
        }
      }
      if end != -1 {
        start := end;
        var i := end - 1;
        while i >= 0
          invariant -1 <= i < end && start == i + 1
          invariant forall j :: start <= j < end ==> lockHs2Node[j].curHash == lockHs2Node[j + 1].parentHash
        {
          if lockHs2Node[i].curHash != lockHs2Node[i + 1].parentHash {
            break;
          }
          start := start - 1;
          i := i - 1;
        }
        assert lockBlk[end] in lockBlk;
      }
    }

    method AddValidation2Blk(qc: QuromCert)
      modifies this`lockBlk
      ensures ValidatedBy(old(lockBlk), lockBlk, qc)
    {
      for i := 0 to |lockBlk|
        invariant lockBlk == old(lockBlk)
        invariant forall j :: 0 <= j < i ==> lockBlk[j].blkHdr.viewNumber != qc.viewNumber
      {
        if lockBlk[i].blkHdr.viewNumber == qc.viewNumber {
          lockBlk := lockBlk[i := lockBlk[i].WithValidation(qc.sign)];
          break;
        }
      }
    }

    method UpdateAfterCommit(start: nat, end: nat)
      requires State().Aligned() && start <= end < |lockBlk|
      modifies this`lockHs2Node, this`lockBlk
      ensures lockHs2Node == Remaining(old(lockHs2Node), start, end)
      ensures lockBlk == Remaining(old(lockBlk), start, end)
    {
      if start == 0 && end == |lockHs2Node| - 1 {
        lockHs2Node := [];
        lockBlk := [];
      } else if start == 0 && end == 0 {
      } else if start == 0 {
        lockHs2Node := lockHs2Node[end + 1..];
        lockBlk := lockBlk[end + 1..];
      } else if end == |lockHs2Node| - 1 {
        lockHs2Node := lockHs2Node[..start];
        lockBlk := lockBlk[..start];
      } else {
        lockHs2Node := lockHs2Node[..start] + lockHs2Node[end + 1..];
        lockBlk := lockBlk[..start] + lockBlk[end + 1..];
      }
    }

    method WriteNewH2Block(start: int, end: int)
      requires State().Aligned() && (start == -1 || end == -1 || 0 <= start <= end < |lockBlk|)
      modifies this
      ensures State() == WriteNewBlocks(old(State()), start, end)
      ensures prepareQC == old(prepareQC) && curHs2Node == old(curHs2Node)
      ensures newViewMsgs == old(newViewMsgs) && vote1 == old(vote1) && vote2 == old(vote2)
      ensures curProposal == if start == -1 || end == -1 then old(curProposal) else old(curProposal).(preBlkHash := blkStore.preBlkHash)
    {
      if start == -1 || end == -1 {
        return;
      }
      ghost var blks := lockBlk[start..end + 1];
      var i := start;
      while i <= end
        invariant start <= i <= end + 1
        invariant lockBlk == old(lockBlk) && lockHs2Node == old(lockHs2Node)
        invariant prepareQC == old(prepareQC) && curHs2Node == old(curHs2Node) && curProposal == old(curProposal)
        invariant newViewMsgs == old(newViewMsgs) && vote1 == old(vote1) && vote2 == old(vote2)
        invariant blkStore == StoreAll(old(blkStore), blks[..i - start])
      {
        assert blks[..i + 1 - start][..i - start] == blks[..i - start];
        blkStore := blkStore.StoreBlock(lockBlk[i]);
        i := i + 1;
      }
      assert blks[..end + 1 - start] == blks;
      UpdateAfterCommit(start, end);
      curProposal := curProposal.(preBlkHash := blkStore.preBlkHash);
    }

    // As in GenProposal and HandlePropose: validate, find the range, write it.
    method Commit(qc: QuromCert) returns (start: int, end: int)
      requires State().Aligned()
      modifies this
      ensures prepareQC == old(prepareQC)
      ensures CommitStep(old(State()), prepareQC.viewNumber, qc, start, end, State())
    {
      AddValidation2Blk(qc);
      ghost var blks := lockBlk;
      start, end := GenCommitBlkIndex();
      ValidationKeepsRange(old(lockHs2Node), old(lockBlk), blks, qc, prepareQC.viewNumber, start, end);
      WriteNewH2Block(start, end);
    }

    method UpdateConsensus(sum: Hasher)
      modifies this
      ensures lockHs2Node == old(lockHs2Node) + [old(curHs2Node)]
      ensures lockBlk == old(lockBlk) + [old(blkStore).curProposalBlk]
      ensures blkStore == old(blkStore).GenEmptyBlock(sum)
      ensures curHs2Node == NO_NODE && prepareQC == old(prepareQC)
      ensures curProposal == NO_H2PROPOSAL && newViewMsgs == [] && vote1 == [] && vote2 == []
    {
      lockHs2Node := lockHs2Node + [curHs2Node];
      lockBlk := lockBlk + [Block(blkStore.curProposalBlk.blkHdr, blkStore.curProposalBlk.blkData)];
      blkStore := blkStore.GenEmptyBlock(sum);
      curProposal := NO_H2PROPOSAL;
      curHs2Node := NO_NODE;
      newViewMsgs, vote1, vote2 := [], [], [];
    }
  }

  lemma ValidationKeepsRange(nodes: seq<HsNode>, blks: seq<Block>, after: seq<Block>, qc: QuromCert, v: int, start: int, end: int)
    requires |nodes| == |blks| && ValidatedBy(blks, after, qc)
    requires IsCommitRange(nodes, after, v, start, end)
    ensures IsCommitRange(nodes, blks, v, start, end)
  {
    forall i | 0 <= i < |blks| ensures after[i].blkHdr.viewNumber == blks[i].blkHdr.viewNumber {}
    if forall b <- after :: b.blkHdr.viewNumber != v {
      forall b | b in blks ensures b.blkHdr.viewNumber != v {
        var i :| 0 <= i < |blks| && blks[i] == b;
        assert after[i] in after;
      }
    } else {
      assert blks[end] in blks;
    }
  }

  /* Nothing is lost, and what is stored twice */

  // All blocks a node holds, stored or locked, counted with multiplicity.
  function Held(l: Locks): multiset<Block> {
    multiset(BareAll(l.blkStore.written)) + multiset(BareAll(l.lockBlk))
  }

  lemma BareAllConcat(a: seq<Block>, b: seq<Block>)
    ensures BareAll(a + b) == BareAll(a) + BareAll(b)
  {
  }

  lemma ValidationKeepsHeld(blks: seq<Block>, after: seq<Block>, qc: QuromCert)
    requires ValidatedBy(blks, after, qc)
    ensures BareAll(after) == BareAll(blks)
  {
    forall i | 0 <= i < |blks| ensures after[i].Bare() == blks[i].Bare() {}
  }

  lemma BareAllParts(blks: seq<Block>, start: nat, end: nat)
    requires start <= end < |blks|
    ensures multiset(BareAll(blks)) == multiset(BareAll(WithoutRange(blks, start, end))) + multiset(BareAll(blks[start..end + 1]))
  {
    var a, mid, c := blks[..start], blks[start..end + 1], blks[end + 1..];
    assert BareAll(blks) == BareAll(a) + BareAll(mid) + BareAll(c);
    BareAllConcat(a, c);
  }

  // A commit moves blocks from the lock list to the store, no more and no fewer, exactly
  // when the range is not the first entry of a longer list. In that case the block stays
  // locked, and is held once more.
  lemma CommitConserves(l: Locks, start: int, end: int)
    requires l.Aligned() && (start == end == -1 || 0 <= start <= end < |l.lockBlk|)
    ensures var l1 := WriteNewBlocks(l, start, end);
      && l1.Aligned()
      && (Held(l1) == Held(l) <==> !KeepsRange(start, end, |l.lockBlk|))
      && (KeepsRange(start, end, |l.lockBlk|) ==> Held(l1) == Held(l) + multiset{l.lockBlk[0].Bare()})
  {
    if start != -1 {
      var mid := l.lockBlk[start..end + 1];
      StoreAllWrites(l.blkStore, mid);
      BareAllConcat(l.blkStore.written, mid);
      if KeepsRange(start, end, |l.lockBlk|) {
        assert BareAll(mid) == [l.lockBlk[0].Bare()];
        assert |Held(l) + multiset{l.lockBlk[0].Bare()}| == |Held(l)| + 1;
      } else {
        BareAllParts(l.lockBlk, start, end);
      }
    }
  }

  /* Over a whole run */

  datatype Op = Lock(node: HsNode, blk: Block) | Commit(viewNumber: int, qc: QuromCert)

  // UpdateConsensus locks a block; a commit may change nothing.
  ghost predicate OpStep(l: Locks, op: Op, l1: Locks) {
    match op
    case Lock(node, blk) =>
      l1.lockHs2Node == l.lockHs2Node + [node] && l1.lockBlk == l.lockBlk + [blk] && l1.blkStore.written == l.blkStore.written
    case Commit(v, qc) => exists start, end :: CommitStep(l, v, qc, start, end, l1)
  }

  // The commit falls on the first entry of a longer list.
  ghost predicate Exceptional(l: Locks, op: Op) {
    op.Commit? && l.Aligned() && |l.lockBlk| > 1 && IsCommitRange(l.lockHs2Node, l.lockBlk, op.viewNumber, 0, 0)
  }

  ghost predicate IsRun(trace: seq<Locks>, ops: seq<Op>) {
    && |trace| == |ops| + 1 && trace[0].lockHs2Node == [] && trace[0].lockBlk == [] && trace[0].blkStore.written == []
    && forall k :: 0 <= k < |ops| ==> OpStep(trace[k], ops[k], trace[k + 1])
  }

  // The blocks locked by the first n operations.
  function LockedBlocks(ops: seq<Op>, n: nat): multiset<Block>
    requires n <= |ops|
  {
    if n == 0 then multiset{}
    else match ops[n - 1]
      case Lock(_, blk) => LockedBlocks(ops, n - 1) + multiset{blk.Bare()}
      case Commit(_, _) => LockedBlocks(ops, n - 1)
  }

  lemma LockHolds(l: Locks, node: HsNode, blk: Block, l1: Locks)
    requires l.Aligned() && OpStep(l, Lock(node, blk), l1)
    ensures l1.Aligned() && Held(l1) == Held(l) + multiset{blk.Bare()}
  {
    hide Block.Bare;
    assert BareAll(l1.lockBlk) == BareAll(l.lockBlk) + [blk.Bare()];
  }

  lemma RangeHolds(l: Locks, start: int, end: int, l1: Locks)
    requires l.Aligned() && (start == end == -1 || 0 <= start <= end < |l.lockBlk|) && l1 == WriteNewBlocks(l, start, end)
    ensures l1.Aligned()
    ensures !KeepsRange(start, end, |l.lockBlk|) ==> Held(l1) == Held(l)
    ensures KeepsRange(start, end, |l.lockBlk|) ==> Held(l) < Held(l1)
  {
    CommitConserves(l, start, end);
    hide Held, WriteNewBlocks, StoreAll;
  }

  lemma CommitHolds(l: Locks, op: Op, l1: Locks)
    requires l.Aligned() && op.Commit? && OpStep(l, op, l1)
    ensures l1.Aligned()
    ensures !Exceptional(l, op) ==> Held(l1) == Held(l)
    ensures Exceptional(l, op) ==> Held(l) < Held(l1)
  {
    hide Held, WriteNewBlocks, StoreAll;
    var v, qc := op.viewNumber, op.qc;
    var start, end :| CommitStep(l, v, qc, start, end, l1);
    var blks :| ValidatedBy(l.lockBlk, blks, qc) && l1 == WriteNewBlocks(l.(lockBlk := blks), start, end);
    if Exceptional(l, op) {
      CommitRangeUnique(l.lockHs2Node, l.lockBlk, v, start, end, 0, 0);
    }
    assert |blks| == |l.lockBlk| && (KeepsRange(start, end, |blks|) <==> Exceptional(l, op));
    assert start == end == -1 || 0 <= start <= end < |blks|;
    SameHeld(l, blks, qc);
    hide ValidatedBy, IsCommitRange, Exceptional, KeepsRange;
    RangeHolds(l.(lockBlk := blks), start, end, l1);
  }

  lemma SameHeld(l: Locks, blks: seq<Block>, qc: QuromCert)
    requires ValidatedBy(l.lockBlk, blks, qc)
    ensures Held(l.(lockBlk := blks)) == Held(l)
  {
    ValidationKeepsHeld(l.lockBlk, blks, qc);
  }

  lemma OpStepHolds(l: Locks, op: Op, l1: Locks)
    requires l.Aligned() && OpStep(l, op, l1)
    ensures l1.Aligned()
    ensures op.Lock? ==> Held(l1) == Held(l) + multiset{op.blk.Bare()}
    ensures op.Commit? && !Exceptional(l, op) ==> Held(l1) == Held(l)
    ensures Exceptional(l, op) ==> Held(l) < Held(l1)
  {
    hide OpStep, Held;
    match op
    case Lock(node, blk) => LockHolds(l, node, blk, l1);
    case Commit(_, _) => CommitHolds(l, op, l1);
  }

  lemma AddToBoth(a: multiset<Block>, b: multiset<Block>, x: Block)
    requires a <= b
    ensures a + multiset{x} <= b + multiset{x}
    ensures a + multiset{x} == b + multiset{x} <==> a == b
  {
    assert (a + multiset{x}) - multiset{x} == a && (b + multiset{x}) - multiset{x} == b;
  }

  // Over every run: the blocks stored and the blocks still locked are together the blocks
  // ever locked, each as often as it was locked, exactly when no commit was exceptional.
  lemma {:induction false} RunConserves(trace: seq<Locks>, ops: seq<Op>, n: nat)
    requires IsRun(trace, ops) && n <= |ops|
    ensures trace[n].Aligned()
    ensures LockedBlocks(ops, n) <= Held(trace[n])
    ensures Held(trace[n]) == LockedBlocks(ops, n) <==> forall k :: 0 <= k < n ==> !Exceptional(trace[k], ops[k])
  {
    if n > 0 {
      RunConserves(trace, ops, n - 1);
      assert OpStep(trace[n - 1], ops[n - 1], trace[n - 1 + 1]);
      OpStepHolds(trace[n - 1], ops[n - 1], trace[n]);
      if ops[n - 1].Lock? {
        AddToBoth(LockedBlocks(ops, n - 1), Held(trace[n - 1]), ops[n - 1].blk.Bare());
      }
    }
  }

  // No block of the view comes later in the list.
  ghost predicate IsLastOf(blks: seq<Block>, v: int, end: int) {
    forall i :: 0 <= i < |blks| && end < i ==> blks[i].blkHdr.viewNumber != v
  }

  // Committing again on the same certificate changes nothing, exactly when the first commit
  // was not the exception and the list has no second block of the view; else it stores again.
  lemma CommittedOnce(l: Locks, v: int, start: int, end: int, start': int, end': int)
    requires l.Aligned() && IsCommitRange(l.lockHs2Node, l.lockBlk, v, start, end)
    requires var l1 := WriteNewBlocks(l, start, end);
      l1.Aligned() && IsCommitRange(l1.lockHs2Node, l1.lockBlk, v, start', end')
    ensures WriteNewBlocks(WriteNewBlocks(l, start, end), start', end') == WriteNewBlocks(l, start, end)
      <==> !KeepsRange(start, end, |l.lockBlk|) && IsLastOf(l.lockBlk, v, end)
  {
    var l1 := WriteNewBlocks(l, start, end);
    hide StoreAll;
    if end == -1 {
      assert l1 == l;
      hide WriteNewBlocks;
    } else if KeepsRange(start, end, |l.lockBlk|) {
      CommitRangeUnique(l.lockHs2Node, l.lockBlk, v, start, end, start', end');
      hide IsCommitRange;
      StoringChanges(l1, 0, 0);
    } else if IsLastOf(l.lockBlk, v, end) {
      NoneLeft(l.lockBlk, v, start, end);
      assert start' == end' == -1;
      hide IsCommitRange;
    } else {
      SomeLeft(l.lockBlk, v, start, end);
      assert 0 <= start' <= end' < |l1.lockBlk|;
      hide IsCommitRange;
      StoringChanges(l1, start', end');
    }
  }

  lemma StoringChanges(l: Locks, start: nat, end: nat)
    requires l.Aligned() && start <= end < |l.lockBlk|
    ensures WriteNewBlocks(l, start, end) != l
  {
    StoreAllWrites(l.blkStore, l.lockBlk[start..end + 1]);
    hide StoreAll;
    assert |WriteNewBlocks(l, start, end).blkStore.written| > |l.blkStore.written|;
  }

  lemma NoneLeft(blks: seq<Block>, v: int, start: nat, end: nat)
    requires start <= end < |blks| && IsLastOf(blks, v, end) && forall i :: 0 <= i < end ==> blks[i].blkHdr.viewNumber != v
    ensures forall b <- WithoutRange(blks, start, end) :: b.blkHdr.viewNumber != v
  {
    var left := WithoutRange(blks, start, end);
    forall i | 0 <= i < |left| ensures left[i].blkHdr.viewNumber != v {
      var k := if i < start then i else i + (end - start + 1);
      assert left[i] == blks[k] && k != end;
    }
  }

  lemma SomeLeft(blks: seq<Block>, v: int, start: nat, end: nat)
    requires start <= end < |blks| && !IsLastOf(blks, v, end)
    ensures exists b <- WithoutRange(blks, start, end) :: b.blkHdr.viewNumber == v
  {
    var k :| end < k < |blks| && blks[k].blkHdr.viewNumber == v;
    var left := WithoutRange(blks, start, end);
    assert left[k - (end - start + 1)] == blks[k];
    assert blks[k] in left;
  }

  /* Nodes and blocks of the lock lists */

  // The two lists hold matching pairs.
  ghost predicate InStep(l: Locks, sum: Hasher) {
    l.Aligned() && forall i :: 0 <= i < |l.lockBlk| ==> l.lockBlk[i].Hash(sum) == l.lockHs2Node[i].curHash
  }

  lemma ValidationKeepsInStep(l: Locks, blks: seq<Block>, qc: QuromCert, sum: Hasher)
    requires InStep(l, sum) && ValidatedBy(l.lockBlk, blks, qc)
    ensures InStep(l.(lockBlk := blks), sum)
  {
    forall i | 0 <= i < |blks| ensures blks[i].Hash(sum) == l.lockHs2Node[i].curHash {
      ValidationNotHashed(l.lockBlk[i], qc.sign);
    }
  }

  // What stays locked keeps its order, and the pairs still match.
  lemma RemainingInStep(l: Locks, start: nat, end: nat, sum: Hasher)
    requires InStep(l, sum) && start <= end < |l.lockBlk|
    ensures InStep(WriteNewBlocks(l, start, end), sum)
  {
  }

  lemma OpKeepsInStep(l: Locks, op: Op, l1: Locks, sum: Hasher)
    requires InStep(l, sum) && OpStep(l, op, l1) && (op.Lock? ==> op.blk.Hash(sum) == op.node.curHash)
    ensures InStep(l1, sum)
  {
    hide Block.Hash, StoreAll;
    match op
    case Lock(_, _) =>
    case Commit(v, qc) =>
      var start, end :| CommitStep(l, v, qc, start, end, l1);
      var blks :| ValidatedBy(l.lockBlk, blks, qc) && l1 == WriteNewBlocks(l.(lockBlk := blks), start, end);
      ValidationKeepsInStep(l, blks, qc, sum);
      if start != -1 {
        RemainingInStep(l.(lockBlk := blks), start, end, sum);
      }
  }

  // Over every run that locks matching pairs, the lists hold matching pairs.
  lemma {:induction false} RunKeepsInStep(trace: seq<Locks>, ops: seq<Op>, n: nat, sum: Hasher)
    requires IsRun(trace, ops) && n <= |ops|
    requires forall k :: 0 <= k < |ops| && ops[k].Lock? ==> ops[k].blk.Hash(sum) == ops[k].node.curHash
    ensures InStep(trace[n], sum)
  {
    if n > 0 {
      hide OpStep, InStep, Block.Hash;
      RunKeepsInStep(trace, ops, n - 1, sum);
      assert OpStep(trace[n - 1], ops[n - 1], trace[n - 1 + 1]);
      OpKeepsInStep(trace[n - 1], ops[n - 1], trace[n], sum);
    }
  }

  // blks is appended to what was stored, ends in view v, and each of its blocks is the parent
  // of the next: nodes names the parents.
  ghost predicate StoresBranch(before: seq<Block>, after: seq<Block>, nodes: seq<HsNode>, v: int, sum: Hasher) {
    && |after| == |before| + |nodes| && after[..|before|] == before && nodes != []
    && after[|after| - 1].blkHdr.viewNumber == v
    && forall i :: 0 < i < |nodes| ==> after[|before| + i - 1].Hash(sum) == nodes[i].parentHash
  }

  lemma LinkedIsBranch(before: seq<Block>, segment: seq<Block>, nodes: seq<HsNode>, v: int, sum: Hasher)
    requires |segment| == |nodes| > 0 && segment[|segment| - 1].blkHdr.viewNumber == v
    requires forall i :: 0 <= i < |segment| ==> segment[i].Hash(sum) == nodes[i].curHash
    requires forall i :: 0 < i < |nodes| ==> nodes[i - 1].curHash == nodes[i].parentHash
    ensures StoresBranch(before, before + segment, nodes, v, sum)
  {
    hide Block.Hash;
    forall i | 0 < i < |nodes| ensures (before + segment)[|before| + i - 1].Hash(sum) == nodes[i].parentHash {
      assert (before + segment)[|before| + i - 1] == segment[i - 1];
    }
  }

  // The stored segment is a branch.
  lemma StoredSegmentIsBranch(l: Locks, v: int, start: int, end: int, sum: Hasher)
    requires InStep(l, sum) && IsCommitRange(l.lockHs2Node, l.lockBlk, v, start, end) && end != -1
    ensures StoresBranch(l.blkStore.written, WriteNewBlocks(l, start, end).blkStore.written, l.lockHs2Node[start..end + 1], v, sum)
  {
    hide Block.Hash, StoresBranch;
    var segment, nodes := l.lockBlk[start..end + 1], l.lockHs2Node[start..end + 1];
    StoreAllWrites(l.blkStore, segment);
    hide StoreAll;
    forall i | 0 <= i < |segment| ensures segment[i].Hash(sum) == nodes[i].curHash {
      assert segment[i] == l.lockBlk[start + i];
    }
    forall i | 0 < i < |nodes| ensures nodes[i - 1].curHash == nodes[i].parentHash {
      var k := start + i - 1;
      assert nodes[i - 1] == l.lockHs2Node[k] && nodes[i] == l.lockHs2Node[k + 1];
    }
    LinkedIsBranch(l.blkStore.written, segment, nodes, v, sum);
  }

  lemma ValidatedRange(nodes: seq<HsNode>, blks: seq<Block>, after: seq<Block>, qc: QuromCert, v: int, start: int, end: int)
    requires |nodes| == |blks| && ValidatedBy(blks, after, qc) && end != -1
    requires IsCommitRange(nodes, blks, v, start, end)
    ensures IsCommitRange(nodes, after, v, start, end)
  {
    forall i | 0 <= i < |blks| ensures after[i].blkHdr.viewNumber == blks[i].blkHdr.viewNumber {}
    assert after[end] in after;
  }

  // In every run that locks matching pairs, each commit that stores anything stores a branch
  // that ends in the view committed.
  lemma CommitsStoreBranches(trace: seq<Locks>, ops: seq<Op>, k: nat, start: int, end: int, sum: Hasher)
    requires IsRun(trace, ops) && k < |ops| && ops[k].Commit?
    requires forall j :: 0 <= j < |ops| && ops[j].Lock? ==> ops[j].blk.Hash(sum) == ops[j].node.curHash
    requires CommitStep(trace[k], ops[k].viewNumber, ops[k].qc, start, end, trace[k + 1]) && end != -1
    ensures 0 <= start <= end < |trace[k].lockHs2Node|
    ensures StoresBranch(trace[k].blkStore.written, trace[k + 1].blkStore.written, trace[k].lockHs2Node[start..end + 1], ops[k].viewNumber, sum)
  {
    RunKeepsInStep(trace, ops, k, sum);
    var l, qc := trace[k], ops[k].qc;
    var blks :| ValidatedBy(l.lockBlk, blks, qc) && trace[k + 1] == WriteNewBlocks(l.(lockBlk := blks), start, end);
    hide IsRun, Block.Hash, StoreAll;
    ValidationKeepsInStep(l, blks, qc, sum);
    ValidatedRange(l.lockHs2Node, l.lockBlk, blks, qc, ops[k].viewNumber, start, end);
    StoredSegmentIsBranch(l.(lockBlk := blks), ops[k].viewNumber, start, end, sum);
  }
}
