/** What makes a node of chained HotStuff propose, accept, lock, store and certify, each with its
    exact condition. */
module ChainedRules {
  import opened Common
  import opened Blockchain
  import opened HotstuffTypes
  import opened ChainedSpec
  import BasicHotstuffSpec
  import Merkle

  lemma SendOne(r: CNode, outs: seq<CMsg>)
    requires |outs| == 1
    ensures AfterSendAll(r, outs) == AfterSend(r, outs[0])
    ensures AfterSend(r, outs[0]) == r.(curRoundMsg := AfterSend(r, outs[0]).curRoundMsg, executeState := AfterSend(r, outs[0]).executeState)
  {
    assert AfterSendAll(r, []) == r;
  }

  // A request is proposed exactly when the leader waits and has more than (n-1)/3*2 new-view
  // messages; in view 0 it needs no more than those it starts with.
  lemma RequestProposesIff(c: Crypto, r: CNode, height: int, preHash: Bytes, cmds: seq<Bytes>, timeStamp: int)
    requires r.view.nodesNum > 0 && (r.curPhase == WAITING ==> r.newViewMsgs != [])
    ensures var (r1, out) := HandleReq(c, r, height, preHash, cmds, timeStamp);
      && (out.Some? <==> r.curPhase == WAITING && (|r.newViewMsgs| > (r.view.nodesNum - 1) / 3 * 2 || r.view.viewNumber == 0))
      && (out.Some? ==> out.value.mType == GENERIC && r1.curPhase == HALF_GENERIC && r1.curRoundMsg == out.value)
  {
    hide GenBlock, UpdateBlock, FirstMaxUpTo, Merkle.MerkleTreeHash;
  }

  // A new-view message of the view makes the leader propose what it holds exactly when it has, with
  // this one, more than (n-1)/3*2 of them, the last leader's among them or a timeout noted.
  lemma ReportProposesIff(c: Crypto, r: CNode, m: CMsg)
    requires r.view.nodesNum > 0 && m.mType == NEW_VIEW
    ensures var counts := m.viewNumber == r.view.viewNumber;
      var (r1, outs) := HandleCMsg(c, r, m, 0);
      && (outs != [] <==>
            && r.curPhase == NEW_VIEW && r.consId == r.view.leader
            && |r.newViewMsgs| + (if counts then 1 else 0) > (r.view.nodesNum - 1) / 3 * 2
            && (r.lastLeaderState || r.viewChangeFlag || (counts && m.sendNode == Some((r.view.leader + r.view.nodesNum - 1) % r.view.nodesNum)))
            && !r.curProposal.IsEmpty())
      && (outs != [] ==>
            && |outs| == 1 && outs[0].mType == GENERIC && outs[0].proposal == r.curProposal && r1.curPhase == HALF_GENERIC
            && r1.blkStore.height == r.blkStore.height + 1
            && (r.curProposal.commands != [] ==> CutFrom(outs[0].blk.blkData.trans, r.curProposal.commands)))
  {
    ReportOuts(c, r, m);
    var (r1, outs) := CHandleNewView(c, r, m, 0);
    if |outs| == 1 { SendOne(r1, outs); }
    hide CHandleNewView, CHandleGeneric, CHandleGenericVote, AfterSend;
  }

  lemma ReportOuts(c: Crypto, r: CNode, m: CMsg)
    requires r.view.nodesNum > 0 && m.mType == NEW_VIEW
    ensures var counts := m.viewNumber == r.view.viewNumber;
      var (r1, outs) := CHandleNewView(c, r, m, 0);
      && (outs != [] <==>
            && r.curPhase == NEW_VIEW && r.consId == r.view.leader
            && |r.newViewMsgs| + (if counts then 1 else 0) > (r.view.nodesNum - 1) / 3 * 2
            && (r.lastLeaderState || r.viewChangeFlag || (counts && m.sendNode == Some((r.view.leader + r.view.nodesNum - 1) % r.view.nodesNum)))
            && !r.curProposal.IsEmpty())
      && (outs != [] ==>
            && |outs| == 1 && outs[0].mType == GENERIC && outs[0].proposal == r.curProposal && r1.curPhase == HALF_GENERIC
            && r1.blkStore.height == r.blkStore.height + 1
            && (r.curProposal.commands != [] ==> CutFrom(outs[0].blk.blkData.trans, r.curProposal.commands)))
  {
    BasicHotstuffSpec.CutOffCuts(r.curProposal.commands);
    hide BasicHotstuffSpec.CutOff, CutFrom, FirstMaxUpTo, Block.HashedBytes, Merkle.HashFromByteSlices;
  }

  // A generic message is answered exactly when it is of the view, its newest node extends the next
  // one by a hash that is not empty, and its certificate is for the parent or newer than the lock.
  lemma GenericAnsweredIff(c: Crypto, r: CNode, m: CMsg)
    requires r.view.nodesNum > 0 && m.mType == GENERIC
    ensures var (r1, outs) := HandleCMsg(c, r, m, 0);
      && (outs != [] <==>
            && m.viewNumber == r.view.viewNumber
            && m.hsNodes.s0.parentHash == m.hsNodes.s1.curHash != []
            && (m.justify.hsNodes.s0.curHash == m.hsNodes.s0.parentHash || m.justify.viewNumber > r.lockedQC.viewNumber))
      && (outs == [] ==> r1 == r)
      && (outs != [] ==> |outs| == (if r.IsLeader() then 1 else 2) && outs[0].mType == GENERIC_VOTE)
  {
    hide Accept, CHandleNewView, CHandleGenericVote, Block.Hash;
  }

  // The sign to execute is given with the new-view message after a decision, and taken back then;
  // it stays as long as no validated block is in the window. A leader keeps it until it certifies.
  lemma ExecutesOnReport(c: Crypto, r: CNode, m: CMsg)
    requires r.view.nodesNum > 0 && m.mType == GENERIC && HandleCMsg(c, r, m, 0).1 != []
    ensures var r1, accepted := HandleCMsg(c, r, m, 0).0, Accept(c, r, m);
      && r1.executeState == (accepted.executeState && (r.IsLeader() || accepted.blocks.s3.blkHdr.validation == NoSign))
      && r1.blkStore == accepted.blkStore && r1.lockedQC == accepted.lockedQC && r1.genericQC == accepted.genericQC && r1.curRoundMsg == accepted.curRoundMsg
  {
    GenericAnsweredIff(c, r, m);
    var (r1, outs) := CHandleGeneric(c, r, m);
    hide Accept, Block.Hash, CheckNewCHsNode;
    if |outs| == 1 {
      SendOne(r1, outs);
    } else {
      assert outs[..2] == outs && outs[..1] == [outs[0]];
      SendOne(r1, [outs[0]]);
    }
  }

  // How many consecutive links, newest first, the window of a message has.
  function Links(nodes: Four<HsNode>): nat {
    if nodes.s0.parentHash != nodes.s1.curHash then 0
    else if nodes.s1.parentHash != nodes.s2.curHash then 1
    else if nodes.s2.parentHash != nodes.s3.curHash then 2
    else 3
  }

  // One link moves the certificate, two move the lock, three decide: then the oldest block is
  // stored, with the certificate as validation, exactly when it has commands and the hash that the
  // oldest node names; else nothing is stored.
  lemma LinksDecide(c: Crypto, r: CNode, m: CMsg)
    requires r.view.nodesNum > 0
    ensures var r1, window := Accept(c, r, m), if r.IsLeader() then r.blocks else r.blocks.Push(m.blk);
      var oldest, decided := window.s3, Links(m.hsNodes) == 3 && window.s3.blkData.trans != [] && window.s3.Hash(c.sum) == m.hsNodes.s3.curHash;
      && r1.genericQC == (if Links(m.hsNodes) >= 1 then m.justify else r.genericQC)
      && r1.lockedQC == (if Links(m.hsNodes) >= 2 then m.justify else r.lockedQC)
      && r1.executeState == (r.executeState || Links(m.hsNodes) == 3)
      && r1.blkStore.written == (if decided then r.blkStore.written + [oldest.WithValidation(m.justify.sign)] else r.blkStore.written)
      && r1.blkStore.preBlkHash == (if decided then oldest.Hash(c.sum) else r.blkStore.preBlkHash)
      && r1.blkStore.height == r.blkStore.height
      && r1.hsNodes == m.hsNodes && r1.newViewMsgs == [] && !r1.viewChangeFlag
      && r1.blocks == (if decided then window.(s3 := oldest.WithValidation(m.justify.sign)) else window)
  {
    var window := if r.IsLeader() then r.blocks else r.blocks.Push(m.blk);
    ValidationNotHashed(window.s3, m.justify.sign);
    hide Block.HashedBytes;
  }

  // A vote makes the leader certify exactly when it is collecting, has with this one more than
  // (n-1)/3*2 votes, and their shares combine over its own message.
  lemma VoteCertifiesIff(c: Crypto, r: CNode, m: CMsg)
    requires r.view.nodesNum > 0 && m.mType == GENERIC_VOTE
    ensures var votes := if m.viewNumber == r.view.viewNumber then r.genericVoteMsgs + [m] else r.genericVoteMsgs;
      var (r1, outs) := HandleCMsg(c, r, m, 0);
      && (outs != [] <==>
            && r.curPhase == HALF_GENERIC && |votes| > (r.view.nodesNum - 1) / 3 * 2
            && c.combineSig(r.curRoundMsg.ChainedMessage2Byte(), Shares(votes)) != NoSign)
      && (outs != [] ==> |outs| == 1 && outs[0].mType == NEW_VIEW && r1.view == r.view.NextView() && r1.curPhase == NEW_VIEW)
  {
    var (r1, outs) := CHandleGenericVote(c, r, m);
    if |outs| == 1 { SendOne(r1, outs); }
    hide CHandleNewView, CHandleGeneric, Shares, CMsg.ChainedMessage2Byte;
  }

  // A request without commands is proposed as an empty block of height 0, and every node that
  // takes it in starts to count heights from 1 again, whatever it stored before.
  lemma EmptyRequestRestartsHeights(c: Crypto, r: CNode, height: int, preHash: Bytes, timeStamp: int, follower: CNode)
    requires r.view.nodesNum > 0 && r.curPhase == WAITING && r.newViewMsgs != [] && !follower.IsLeader()
    requires HandleReq(c, r, height, preHash, [], timeStamp).1.Some?
    ensures var (r1, out) := HandleReq(c, r, height, preHash, [], timeStamp);
      && out.value.blk == EMPTY_BLOCK && out.value.hsNodes.s0.curHash == Merkle.EmptyHash(c.sum)
      && r1.blkStore.generatedHeight == 1 && r1.blkStore.height == r.blkStore.height + 1
      && UpdateBlock(c, follower, out.value.blk).blkStore.generatedHeight == 1
      && UpdateBlock(c, follower, out.value.blk).blkStore.curBlkHash == Merkle.EmptyHash(c.sum)
  {
    hide FirstMaxUpTo, Merkle.MerkleTreeHash;
  }

  // The first leader starts with (n-1)/3*2 messages of its own and proposes the first request.
  lemma FirstRequestIsProposed(c: Crypto, n: nat, height: int, preHash: Bytes, cmds: seq<Bytes>, timeStamp: int)
    requires n >= 4
    ensures var r := InitLeader(c, NewCNode(c, 0, n));
      && |r.newViewMsgs| == (n - 1) / 3 * 2 && r.curPhase == WAITING && r.IsLeader()
      && var (r1, out) := HandleReq(c, r, height, preHash, cmds, timeStamp);
      out.Some? && out.value.viewNumber == 0 && out.value.hsNodes.s0.parentHash == r.hsNodes.s0.curHash == Merkle.EmptyHash(c.sum)
  {
    var r := InitLeader(c, NewCNode(c, 0, n));
    RequestProposesIff(c, r, height, preHash, cmds, timeStamp);
    assert forall m <- r.newViewMsgs :: m == InitMsg(c);
    FirstMaxIsMax(JustifyViews(r.newViewMsgs), |r.newViewMsgs|);
    hide FirstMaxUpTo, BasicHotstuffSpec.CutOff, Merkle.MerkleTreeHash, Block.HashedBytes;
  }
}
