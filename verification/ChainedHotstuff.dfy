/** The chained HotStuff core of one node: CHotstuff and its handlers. */
module ChainedHotstuff {
  import opened Common
  import opened Blockchain
  import opened HotstuffTypes
  import opened ChainedSpec
  import BasicHotstuffSpec
  import Merkle

  class CHotstuff {
    const crypto: Crypto
    const consId: nat

    var curPhase: StateType
    var view: View
    var executeState: bool
    var lastLeaderState: bool
    var viewChangeFlag: bool
    var hsNodes: Four<HsNode>
    var blocks: Four<Block>
    var genericQC: ChainedQC
    var lockedQC: ChainedQC
    var curProposal: Proposal
    var curRoundMsg: CMsg
    var newViewMsgs: seq<CMsg>
    var genericVoteMsgs: seq<CMsg>
    var blkStore: Store

    function State(): CNode
      reads this
    {
      CNode(consId, curPhase, view, executeState, lastLeaderState, viewChangeFlag, hsNodes, blocks, genericQC, lockedQC,
        curProposal, curRoundMsg, newViewMsgs, genericVoteMsgs, blkStore)
    }

    constructor (crypto: Crypto, consId: nat, nodesNum: nat)
      ensures State() == NewCNode(crypto, consId, nodesNum) && this.crypto == crypto
    {
      this.crypto, this.consId := crypto, consId;
      var empty := Merkle.EmptyHash(crypto.sum);
      var nodes := Same(HsNode(empty, empty));
      curPhase, view := NEW_VIEW, View(0, 0, nodesNum);
      executeState, lastLeaderState, viewChangeFlag := false, false, false;
      hsNodes, blocks := nodes, Same(EMPTY_BLOCK);
      genericQC, lockedQC := ChainedQC(NEW_VIEW, -1, nodes, NoSign), ChainedQC(NEW_VIEW, -1, nodes, NoSign);
      curProposal, curRoundMsg := NO_PROPOSAL, NO_CMSG;
      newViewMsgs, genericVoteMsgs := [], [];
      blkStore := Store(0, 0, [], [], EMPTY_BLOCK, []);
    }

    method InitLeader()
      modifies this
      ensures State() == ChainedSpec.InitLeader(crypto, old(State()))
    {
      var count := VoteBound(view.nodesNum);
      for i := 0 to count
        invariant State() == old(State()).(newViewMsgs := old(newViewMsgs) + seq(i, _ => InitMsg(crypto)))
      {
        newViewMsgs := newViewMsgs + [InitMsg(crypto)];
      }
      curPhase := WAITING;
    }

    method UpdateBlock(blk: Block)
      modifies this
      ensures State() == ChainedSpec.UpdateBlock(crypto, old(State()), blk)
    {
      blocks := Four(blk, blocks.s0, blocks.s1, blocks.s2);
      if |blk.blkData.trans| == 0 {
        blkStore := blkStore.(curBlkHash := Merkle.EmptyHash(crypto.sum));
      }
      blkStore := blkStore.(generatedHeight := blk.blkHdr.height + 1);
    }

    // The loop over the new-view messages.
    method HighChainedQC() returns (high: CMsg)
      requires newViewMsgs != []
      ensures high == GetHighChainedQC(newViewMsgs)
    {
      var maxIndex := 0;
      var maxViewNumber := newViewMsgs[0].justify.viewNumber;
      for i := 0 to |newViewMsgs|
        invariant maxIndex < |newViewMsgs| && maxViewNumber == newViewMsgs[maxIndex].justify.viewNumber
        invariant maxIndex == if i == 0 then 0 else FirstMaxUpTo(JustifyViews(newViewMsgs), i)
      {
        if newViewMsgs[i].justify.viewNumber > maxViewNumber {
          maxIndex := i;
          maxViewNumber := newViewMsgs[i].justify.viewNumber;
        }
      }
      high := newViewMsgs[maxIndex];
    }

    method GenBlock(heightStep: int, timeStamp: int)
      modifies this
      ensures State() == old(State()).(blkStore := ChainedSpec.GenBlock(crypto, old(State()), heightStep, timeStamp))
    {
      var store := blkStore;
      if |curProposal.commands| == 0 {
        store := store.GenEmptyBlock(crypto.sum);
        store := store.(height := store.height + 1);
      } else {
        var reqs := BasicHotstuffSpec.CutOff(curProposal.commands, 128);
        store := store.GenNewBlockAt(crypto.sum, view.viewNumber, reqs, store.generatedHeight, timeStamp);
        store := store.(height := store.height + heightStep);
      }
      blkStore := store;
    }

    method Propose(heightStep: int, timeStamp: int) returns (generic: CMsg)
      requires newViewMsgs != []
      modifies this
      ensures (State(), generic) == ChainedSpec.Propose(crypto, old(State()), heightStep, timeStamp)
    {
      hide Store.GenNewBlockAt, Store.GenEmptyBlock, FirstMaxUpTo;
      var highQcMsg := HighChainedQC();
      genericQC := highQcMsg.justify;
      GenBlock(heightStep, timeStamp);
      var newCHsNode := HsNode(blkStore.curBlkHash, highQcMsg.justify.hsNodes.s0.curHash);
      var msgCHsNode := Four(newCHsNode, hsNodes.s0, hsNodes.s1, hsNodes.s2);
      UpdateBlock(blkStore.curProposalBlk);
      StartHalf();
      generic := NO_CMSG.(mType := GENERIC, viewNumber := view.viewNumber, reciNode := Broadcast, hsNodes := msgCHsNode,
                          proposal := curProposal, blk := blkStore.curProposalBlk, justify := genericQC);
    }

    method StartHalf()
      modifies this
      ensures State() == old(State()).(curPhase := HALF_GENERIC, lastLeaderState := false, executeState := false, newViewMsgs := [], genericVoteMsgs := [])
    {
      curPhase := HALF_GENERIC;
      lastLeaderState := false;
      executeState := false;
      newViewMsgs := [];
      genericVoteMsgs := [];
    }

    method LogNewView(msg: CMsg)
      requires view.nodesNum > 0
      modifies this
      ensures State() == ChainedSpec.LogNewView(old(State()), msg)
      ensures view == old(view) && curPhase == old(curPhase) && curProposal == old(curProposal)
    {
      if MatchingCMsg(msg, NEW_VIEW, view.viewNumber) {
        newViewMsgs := newViewMsgs + [msg];
        if msg.sendNode == Some((view.leader + view.nodesNum - 1) % view.nodesNum) {
          lastLeaderState := true;
        }
      }
    }

    method CHandleNewView(msg: CMsg, timeStamp: int) returns (outs: seq<CMsg>)
      requires view.nodesNum > 0
      modifies this
      ensures (State(), outs) == ChainedSpec.CHandleNewView(crypto, old(State()), msg, timeStamp)
    {
      hide ChainedSpec.LogNewView, ChainedSpec.Propose, Proposal.IsEmpty;
      if curPhase != NEW_VIEW {
        return [];
      }
      LogNewView(msg);
      if consId != view.leader {
        return [];
      }
      if |newViewMsgs| <= VoteBound(view.nodesNum) {
        return [];
      }
      if !lastLeaderState && !viewChangeFlag {
        return [];
      }
      lastLeaderState := false;
      viewChangeFlag := false;
      curPhase := WAITING;
      if curProposal.IsEmpty() {
        return [];
      }
      var generic := Propose(1, timeStamp);
      outs := [generic];
    }

    method HandleReq(height: int, preHash: Bytes, cmds: seq<Bytes>, timeStamp: int) returns (out: Option<CMsg>)
      requires curPhase == WAITING ==> newViewMsgs != []
      modifies this
      ensures (State(), out) == ChainedSpec.HandleReq(crypto, old(State()), height, preHash, cmds, timeStamp)
    {
      if curPhase != WAITING {
        return None;
      }
      var root := Merkle.HashFromByteSlicesIterative(crypto.sum, cmds);
      curProposal := Proposal(height, preHash, root, cmds, []);
      if |newViewMsgs| <= VoteBound(view.nodesNum) && view.viewNumber != 0 {
        return None;
      }
      var generic := Propose(0, timeStamp);
      generic := generic.(sendNode := Some(consId));
      curRoundMsg := generic;
      out := Some(generic);
    }

    method StoreOldest(sign: Signature)
      modifies this
      ensures State() == ChainedSpec.StoreOldest(crypto, old(State()), sign)
    {
      blocks := blocks.(s3 := blocks.s3.WithValidation(sign));
      var store := blkStore.(curBlkHash := blocks.s3.Hash(crypto.sum)).StoreBlock(blocks.s3);
      blkStore := store.(height := store.height - 1);
    }

    method Advance(msg: CMsg)
      modifies this
      ensures State() == ChainedSpec.Advance(crypto, old(State()), msg)
    {
      if msg.hsNodes.s0.parentHash == msg.hsNodes.s1.curHash {
        genericQC := msg.justify;
        if msg.hsNodes.s1.parentHash == msg.hsNodes.s2.curHash {
          lockedQC := msg.justify;
          if msg.hsNodes.s2.parentHash == msg.hsNodes.s3.curHash {
            executeState := true;
            if !blocks.s3.IsEmpty() && blocks.s3.Hash(crypto.sum) == hsNodes.s3.curHash {
              StoreOldest(msg.justify.sign);
            }
          }
        }
      }
    }

    method Accept(msg: CMsg)
      modifies this
      ensures State() == ChainedSpec.Accept(crypto, old(State()), msg)
    {
      viewChangeFlag := false;
      if consId != view.leader {
        UpdateBlock(msg.blk);
      }
      hsNodes := msg.hsNodes;
      Advance(msg);
      newViewMsgs := [];
    }

    method CHandleGeneric(msg: CMsg) returns (outs: seq<CMsg>)
      requires view.nodesNum > 0
      modifies this
      ensures (State(), outs) == ChainedSpec.CHandleGeneric(crypto, old(State()), msg)
    {
      if msg.viewNumber != view.viewNumber {
        return [];
      }
      if !CheckNewCHsNode(State(), msg) {
        return [];
      }
      var leads := consId == view.leader;
      var genericVote := GenericVote(crypto, State(), msg);
      Accept(msg);
      if leads {
        return [genericVote];
      }
      view := view.NextView();
      var newViewMsg := NO_CMSG.(mType := NEW_VIEW, viewNumber := view.viewNumber, hsNodes := hsNodes, justify := genericQC, reciNode := Node(view.leader));
      if consId == view.leader {
        lastLeaderState := false;
      }
      outs := [genericVote, newViewMsg];
    }

    method CHandleGenericVote(msg: CMsg) returns (outs: seq<CMsg>)
      requires view.nodesNum > 0
      modifies this
      ensures (State(), outs) == ChainedSpec.CHandleGenericVote(crypto, old(State()), msg)
    {
      if curPhase != HALF_GENERIC {
        return [];
      }
      if MatchingCMsg(msg, GENERIC_VOTE, view.viewNumber) {
        genericVoteMsgs := genericVoteMsgs + [msg];
      }
      if |genericVoteMsgs| <= VoteBound(view.nodesNum) {
        return [];
      }
      var partSigs := [];
      for i := 0 to |genericVoteMsgs|
        invariant partSigs == Shares(genericVoteMsgs[..i])
      {
        partSigs := partSigs + [genericVoteMsgs[i].partialSig];
      }
      assert genericVoteMsgs[..|genericVoteMsgs|] == genericVoteMsgs;
      var genericSig := crypto.combineSig(curRoundMsg.ChainedMessage2Byte(), partSigs);
      if genericSig == NoSign {
        return [];
      }
      var newView := NextRound(ChainedQC(GENERIC, msg.viewNumber, msg.hsNodes, genericSig));
      outs := [newView];
    }

    method NextRound(qc: ChainedQC) returns (newView: CMsg)
      requires view.nodesNum > 0
      modifies this
      ensures State() == old(State()).(genericQC := qc, view := old(view).NextView(), curPhase := NEW_VIEW, curProposal := NO_PROPOSAL)
      ensures newView == NO_CMSG.(mType := NEW_VIEW, hsNodes := hsNodes, reciNode := Node(view.leader), viewNumber := view.viewNumber, justify := qc)
    {
      genericQC := qc;
      view := view.NextView();
      curPhase := NEW_VIEW;
      curProposal := NO_PROPOSAL;
      newView := NO_CMSG.(mType := NEW_VIEW, hsNodes := hsNodes, reciNode := Node(view.leader), viewNumber := view.viewNumber, justify := genericQC);
    }

    method RouteCMsg(msg: CMsg, timeStamp: int) returns (outs: seq<CMsg>)
      requires view.nodesNum > 0
      modifies this
      ensures (State(), outs) == ChainedSpec.RouteCMsg(crypto, old(State()), msg, timeStamp)
    {
      outs := [];
      if msg.mType == NEW_VIEW { outs := CHandleNewView(msg, timeStamp); }
      else if msg.mType == GENERIC { outs := CHandleGeneric(msg); }
      else if msg.mType == GENERIC_VOTE { outs := CHandleGenericVote(msg); }
    }

    method AfterSend(out: CMsg)
      modifies this
      ensures State() == ChainedSpec.AfterSend(old(State()), out)
    {
      if out.mType == GENERIC {
        curRoundMsg := out.(sendNode := Some(consId));
      }
      if out.mType == NEW_VIEW && executeState && blocks.s3.blkHdr.validation != NoSign {
        executeState := false;
      }
    }

    method HandleCMsg(msg: CMsg, timeStamp: int) returns (sent: seq<CMsg>)
      requires view.nodesNum > 0
      modifies this
      ensures (State(), sent) == ChainedSpec.HandleCMsg(crypto, old(State()), msg, timeStamp)
    {
      var outs := RouteCMsg(msg, timeStamp);
      sent := [];
      ghost var routed := State();
      for i := 0 to |outs|
        invariant State() == AfterSendAll(routed, outs[..i])
        invariant sent == Signed(consId, outs[..i])
      {
        assert outs[..i + 1][..i] == outs[..i];
        AfterSend(outs[i]);
        sent := sent + [outs[i].(sendNode := Some(consId))];
      }
      assert outs[..|outs|] == outs;
    }
  }
}
