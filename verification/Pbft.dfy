/** The PBFT core of one replica: PBFT, its normal-case handlers and HandleViewChangeMsg. */
module Pbft {
  import opened Common
  import opened Blockchain
  import opened PbftTypes
  import opened PbftSpec
  import PbftViewChange

  class PBFT {
    const consId: nat
    const signer: Signer

    var curPhase: StateType
    var view: View
    var sequenceNum: int
    var curProposal: Proposal
    var checkSeq: int
    var msgLog: seq<MsgsLog>
    var viewChangeMsgs: seq<PMsg>
    var replyMsgs: seq<PMsg>
    var blkStore: Store

    function State(): Replica
      reads this
    {
      Replica(consId, curPhase, view, sequenceNum, curProposal, checkSeq, msgLog, viewChangeMsgs, replyMsgs, blkStore)
    }

    constructor (signer: Signer, consId: nat, nodesNum: nat)
      ensures State() == NewReplica(signer, consId, nodesNum) && this.signer == signer
    {
      this.signer, this.consId := signer, consId;
      curPhase, view, sequenceNum, curProposal, checkSeq := NEW_VIEW, View(0, 0, nodesNum), 0, NO_PROPOSAL, 0;
      msgLog := seq(CHECKPOINTNUM, _ => NO_LOG);
      viewChangeMsgs, replyMsgs := [], [];
      blkStore := NewStore(signer.sum);
    }

    method LogMsg(msg: PMsg)
      requires State().Valid()
      modifies `msgLog
      ensures State() == PbftSpec.LogMsg(old(State()), msg)
    {
      var i := view.viewNumber % CHECKPOINTNUM;
      var slot := msgLog[i];
      if msg.mType == PREPREPARE {
        slot := slot.(preprepareMsg := Some(msg));
      } else if msg.mType == PREPARE {
        slot := slot.(prepareMsgs := slot.prepareMsgs + [msg]);
      } else if msg.mType == COMMIT {
        slot := slot.(commitMsgs := slot.commitMsgs + [msg]);
      }
      msgLog := msgLog[i := slot];
    }

    method CheckMsg(msg: PMsg) returns (ok: bool)
      requires State().Valid()
      modifies `msgLog
      ensures (State(), ok) == PbftSpec.CheckMsg(signer, old(State()), msg)
    {
      if msg.viewNumber < view.viewNumber || msg.seqNum > checkSeq + CHECKPOINTNUM {
        return false;
      }
      if !msg.SignedOn(signer, msg.VoteBytes(signer)) {
        return false;
      }
      if msg.mType != PREPREPARE {
        var pp := msgLog[msg.viewNumber % CHECKPOINTNUM].preprepareMsg;
        if pp == None {
          LogMsg(msg);
          return false;
        }
        return Matches(msg, pp.value);
      }
      ok := true;
    }

    // The loop that catches up with the view of a message.
    method CatchUp(v: int)
      requires view.Valid()
      modifies `view
      ensures view == AdvanceTo(old(view), v) && view.Valid()
    {
      while view.viewNumber < v
        invariant view.Valid() && AdvanceTo(view, v) == AdvanceTo(old(view), v)
        decreases v - view.viewNumber
      {
        view := view.NextView();
      }
    }

    method Reply(digest: Bytes) returns (reply: PMsg)
      requires State().Valid()
      modifies this
      ensures (State(), reply) == PbftSpec.Reply(signer, old(State()), digest)
    {
      curPhase := COMMIT;
      var commits := msgLog[view.viewNumber % CHECKPOINTNUM].commitMsgs;
      var blk := blkStore.curProposalBlk.WithValidation(signer.validation(commits));
      blkStore := blkStore.(curProposalBlk := blk);
      reply := NO_PMSG.(mType := REPLY, viewNumber := view.viewNumber, seqNum := sequenceNum, digest := digest);
      replyMsgs := replyMsgs + [reply];
      blkStore := blkStore.StoreBlock(blk);
      if (reply.seqNum + 1) % CHECKPOINTNUM == 0 {
        curPhase := CHECKPOINT;
      } else {
        curPhase := NEW_VIEW;
      }
      view := view.NextView();
      curProposal := NO_PROPOSAL;
      sequenceNum := sequenceNum + 1;
    }

    method CheckPrepareAndCommit(msg: PMsg) returns (out: Option<PMsg>)
      requires State().Valid()
      modifies this
      ensures (State(), out) == PbftSpec.CheckPrepareAndCommit(signer, old(State()), msg)
    {
      var i := view.viewNumber % CHECKPOINTNUM;
      if |msgLog[i].prepareMsgs| == 0 {
        return None;
      }
      var commitMsgs := msgLog[i].commitMsgs;
      var kept := [];
      for k := 0 to |commitMsgs|
        invariant kept == Filter(commitMsgs[..k], msg)
      {
        assert commitMsgs[..k + 1][..k] == commitMsgs[..k];
        if Matches(commitMsgs[k], msg) {
          kept := kept + [commitMsgs[k]];
        }
      }
      assert commitMsgs[..|commitMsgs|] == commitMsgs;
      msgLog := msgLog[i := msgLog[i].(commitMsgs := kept)];
      if |kept| <= VoteBound(view.nodesNum) {
        return None;
      }
      CatchUp(msg.viewNumber);
      var reply := Reply(msg.digest);
      out := Some(reply);
    }

    method HandlePrePrepareMsg(msg: PMsg) returns (out: Option<PMsg>)
      requires State().Valid()
      modifies this
      ensures (State(), out) == PbftSpec.HandlePrePrepareMsg(signer, old(State()), msg)
    {
      if msgLog[msg.viewNumber % CHECKPOINTNUM].preprepareMsg != None {
        return None;
      }
      if !CheckPrePrepareMsg(signer, State(), msg) {
        return None;
      }
      Adopt(msg);
      out := CheckPrepareAndCommit(msg);
      if out == None {
        out := Some(Vote(signer, State(), PREPARE, msg.seqNum, msg.digest));
      }
    }

    method Adopt(msg: PMsg)
      requires State().Valid()
      modifies this
      ensures State() == PbftSpec.Adopt(signer, old(State()), msg)
    {
      LogMsg(msg);
      if consId != view.leader {
        blkStore := blkStore.(curProposalBlk := msg.block);
        blkStore := blkStore.(curBlkHash := blkStore.curProposalBlk.Hash(signer.sum));
        curPhase := PREPREPARE;
        curProposal := msg.proposal;
        sequenceNum := msg.seqNum;
      }
    }

    method HandlePrepareMsg(msg: PMsg) returns (out: Option<PMsg>)
      requires State().Valid()
      modifies this
      ensures (State(), out) == PbftSpec.HandlePrepareMsg(signer, old(State()), msg)
    {
      if curPhase == VIEW_CHANGE {
        return None;
      }
      var ok := CheckMsg(msg);
      if !ok {
        return None;
      }
      LogMsg(msg);
      if curPhase == PREPARE {
        return None;
      }
      if |msgLog[view.viewNumber % CHECKPOINTNUM].prepareMsgs| <= VoteBound(view.nodesNum) {
        return None;
      }
      curPhase := PREPARE;
      CatchUp(msg.viewNumber);
      out := Some(Vote(signer, State(), COMMIT, sequenceNum, msg.digest));
    }

    method HandleCommitMsg(msg: PMsg) returns (out: Option<PMsg>)
      requires State().Valid()
      modifies this
      ensures (State(), out) == PbftSpec.HandleCommitMsg(signer, old(State()), msg)
    {
      if curPhase == VIEW_CHANGE {
        return None;
      }
      var ok := CheckMsg(msg);
      if !ok {
        return None;
      }
      LogMsg(msg);
      if curPhase == COMMIT && msg.viewNumber < view.viewNumber {
        return None;
      }
      var slot := msgLog[view.viewNumber % CHECKPOINTNUM];
      if |slot.prepareMsgs| <= VoteBound(view.nodesNum) || |slot.commitMsgs| <= VoteBound(view.nodesNum) {
        return None;
      }
      CatchUp(msg.viewNumber);
      var reply := Reply(msg.digest);
      out := Some(reply);
    }

    // Routes the three types of the normal case. In the source the types 0 and 5 to 8 go to the
    // handlers of view changes, checkpoints and redone requests; here they change nothing, so
    // what is said of HandlePMsg is said of runs without such messages.
    method HandlePMsg(msg: PMsg) returns (out: Option<PMsg>)
      requires State().Valid()
      modifies this
      ensures (State(), out) == PbftSpec.HandlePMsg(signer, old(State()), msg)
    {
      if msg.viewNumber < view.viewNumber {
        return None;
      }
      out := None;
      if msg.mType == PREPREPARE { out := HandlePrePrepareMsg(msg); }
      else if msg.mType == PREPARE { out := HandlePrepareMsg(msg); }
      else if msg.mType == COMMIT { out := HandleCommitMsg(msg); }
      if out != None {
        if out.value.mType == REPLY {
          if consId == view.leader && curPhase != CHECKPOINT {
            curPhase := WAITING;
          }
        } else {
          out := Some(out.value.(sendNode := consId));
        }
      }
    }

    method HandleReq(height: int, cmds: seq<Bytes>, timeStamp: int) returns (prePrepareMsg: PMsg)
      requires State().Valid()
      modifies this
      ensures (State(), prePrepareMsg) == PbftSpec.HandleReq(signer, old(State()), height, cmds, timeStamp)
    {
      curProposal := Proposal(height, Some(cmds));
      curPhase := NEW_VIEW;
      blkStore := blkStore.GenNewBlock(signer.sum, view.viewNumber, cmds, timeStamp);
      prePrepareMsg := NO_PMSG.(mType := PREPREPARE, viewNumber := view.viewNumber, seqNum := sequenceNum, digest := blkStore.curBlkHash,
                                sendNode := consId, proposal := curProposal, block := blkStore.curProposalBlk);
      prePrepareMsg := prePrepareMsg.(signature := signer.sign(consId, prePrepareMsg.Header()));
      LogMsg(prePrepareMsg);
      curPhase := PREPREPARE;
    }

    // One message completes the quorum: the view advances, and the leader of that view
    // answers with V and O. Later messages are only kept.
    method HandleViewChangeMsg(msg: PMsg) returns (out: Option<PMsg>)
      requires msg.mType == VIEW_CHANGE && view.Valid()
      modifies this
      ensures var signed := msg.SignedOn(signer, msg.ViewChangeBytes(signer));
        var quorum := signed && |viewChangeMsgs| == VoteBound(old(view.nodesNum)) + 1;
        && State() == old(State()).(viewChangeMsgs := if signed then old(viewChangeMsgs) + [msg] else old(viewChangeMsgs),
                                    view := if quorum then AdvanceTo(old(view), msg.viewNumber) else old(view))
        && (out.Some? <==> quorum && view.leader == consId)
      ensures out.Some? ==>
        && out.value.mType == NEW_VIEW && out.value.viewNumber == view.viewNumber && out.value.vSet == viewChangeMsgs
        && out.value.signature == signer.sign(consId, out.value.NewViewBytes())
        && exists minS, maxS :: PbftViewChange.SeqBounds(viewChangeMsgs, minS, maxS)
             && PbftViewChange.IsOSet(signer, consId, view.viewNumber, viewChangeMsgs, VoteBound(view.nodesNum), minS, maxS, out.value.oSet)
    {
      if !msg.SignedOn(signer, msg.ViewChangeBytes(signer)) {
        return None;
      }
      viewChangeMsgs := viewChangeMsgs + [msg];
      if |viewChangeMsgs| != VoteBound(view.nodesNum) + 1 {
        return None;
      }
      CatchUp(msg.viewNumber);
      if view.leader != consId {
        return None;
      }
      var minS, maxS := PbftViewChange.GetSeq(viewChangeMsgs);
      var oSet := PbftViewChange.GenOSet(signer, consId, view.viewNumber, viewChangeMsgs, VoteBound(view.nodesNum), minS, maxS);
      var newViewMsg := NO_PMSG.(mType := NEW_VIEW, viewNumber := view.viewNumber, vSet := viewChangeMsgs, oSet := oSet);
      assert newViewMsg.(signature := signer.sign(consId, newViewMsg.NewViewBytes())).NewViewBytes() == newViewMsg.NewViewBytes();
      out := Some(newViewMsg.(signature := signer.sign(consId, newViewMsg.NewViewBytes())));
    }
  }
}
