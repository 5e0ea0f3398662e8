/** What each handler of the normal case of PBFT does to the state of one replica, as functions on values. */
module PbftSpec {
  import opened Common
  import opened Blockchain
  import opened PbftTypes

  // The fields of PBFT that the normal case and HandleViewChangeMsg use.
  datatype Replica = Replica(
    consId: nat, curPhase: StateType, view: View, sequenceNum: int, curProposal: Proposal, checkSeq: int,
    msgLog: seq<MsgsLog>, viewChangeMsgs: seq<PMsg>, replyMsgs: seq<PMsg>, blkStore: Store)
  {
    // The log has ten slots, and more after a view change.
    predicate Valid() {
      view.Valid() && |msgLog| >= CHECKPOINTNUM
    }

    predicate IsLeader() {
      consId == view.leader
    }

    function Slot(): MsgsLog
      requires Valid()
    {
      msgLog[view.viewNumber % CHECKPOINTNUM]
    }

    function WithSlot(slot: MsgsLog): Replica
      requires Valid()
    {
      this.(msgLog := msgLog[view.viewNumber % CHECKPOINTNUM := slot])
    }
  }

  function NewReplica(signer: Signer, consId: nat, nodesNum: nat): Replica {
    Replica(consId, NEW_VIEW, View(0, 0, nodesNum), 0, NO_PROPOSAL, 0, seq(CHECKPOINTNUM, _ => NO_LOG), [], [], NewStore(signer.sum))
  }

  function AdvanceTo(view: View, v: int): View
    requires view.nodesNum > 0
    decreases v - view.viewNumber
  {
    if view.viewNumber < v then AdvanceTo(view.NextView(), v) else view
  }

  lemma RotateOnce(view: View, k: int)
    requires view.Valid()
    ensures (view.NextView().leader + (k - 1)) % view.nodesNum == (view.leader + k) % view.nodesNum
    ensures view.NextView().Valid() && view.NextView().nodesNum == view.nodesNum && view.NextView().viewNumber == view.viewNumber + 1
  {
    ModAdd(view.leader + 1, k - 1, view.nodesNum);
  }

  // Catching up never goes back, and rotates the leader once a view.
  lemma {:induction false} AdvanceKeepsValid(view: View, v: int)
    requires view.Valid()
    ensures var to := AdvanceTo(view, v);
      && to.Valid() && to.nodesNum == view.nodesNum
      && to.viewNumber == (if view.viewNumber < v then v else view.viewNumber)
      && to.leader == (view.leader + (to.viewNumber - view.viewNumber)) % view.nodesNum
    decreases v - view.viewNumber
  {
    if view.viewNumber < v {
      AdvanceKeepsValid(view.NextView(), v);
      RotateOnce(view, v - view.viewNumber);
      hide View.NextView;
    } else {
      ModUnique(view.leader, 0, view.leader, view.nodesNum);
    }
  }

  // A message goes to the slot of the replica's view, whatever view it names.
  function LogMsg(r: Replica, m: PMsg): Replica
    requires r.Valid()
  {
    r.WithSlot(r.Slot().Add(m))
  }

  predicate Matches(m: PMsg, pp: PMsg) {
    m.viewNumber == pp.viewNumber && m.seqNum == pp.seqNum && m.digest == pp.digest
  }

  // A vote that comes before its pre-prepare is logged, but fails the check.
  function CheckMsg(signer: Signer, r: Replica, m: PMsg): (Replica, bool)
    requires r.Valid()
  {
    if m.viewNumber < r.view.viewNumber || m.seqNum > r.checkSeq + CHECKPOINTNUM then (r, false)
    else if !m.SignedOn(signer, m.VoteBytes(signer)) then (r, false)
    else if m.mType == PREPREPARE then (r, true)
    else
      var pp := r.msgLog[m.viewNumber % CHECKPOINTNUM].preprepareMsg;
      if pp.None? then (LogMsg(r, m), false) else (r, Matches(m, pp.value))
  }

  function Filter(msgs: seq<PMsg>, pp: PMsg): seq<PMsg> {
    if msgs == [] then []
    else
      var before, last := Filter(msgs[..|msgs| - 1], pp), msgs[|msgs| - 1];
      if Matches(last, pp) then before + [last] else before
  }

  // Replies, stores the block and starts the next round.
  function Reply(signer: Signer, r: Replica, digest: Bytes): (Replica, PMsg)
    requires r.Valid()
  {
    var blk := r.blkStore.curProposalBlk.WithValidation(signer.validation(r.Slot().commitMsgs));
    var reply := NO_PMSG.(mType := REPLY, viewNumber := r.view.viewNumber, seqNum := r.sequenceNum, digest := digest);
    (r.(curPhase := if (reply.seqNum + 1) % CHECKPOINTNUM == 0 then CHECKPOINT else NEW_VIEW,
        replyMsgs := r.replyMsgs + [reply], blkStore := r.blkStore.(curProposalBlk := blk).StoreBlock(blk),
        view := r.view.NextView(), curProposal := NO_PROPOSAL, sequenceNum := r.sequenceNum + 1),
     reply)
  }

  // Commits that arrived early may complete the round at once. The source has a second branch
  // for early prepares; it tests the same condition again and is never taken.
  function CheckPrepareAndCommit(signer: Signer, r: Replica, m: PMsg): (Replica, Option<PMsg>)
    requires r.Valid()
  {
    if r.Slot().prepareMsgs == [] then (r, None)
    else
      var r1 := r.WithSlot(r.Slot().(commitMsgs := Filter(r.Slot().commitMsgs, m)));
      if |r1.Slot().commitMsgs| <= VoteBound(r.view.nodesNum) then (r1, None)
      else
        AdvanceKeepsValid(r1.view, m.viewNumber);
        var (r2, reply) := Reply(signer, r1.(view := AdvanceTo(r1.view, m.viewNumber)), m.digest);
        (r2, Some(reply))
  }

  predicate CheckPrePrepareMsg(signer: Signer, r: Replica, m: PMsg) {
    m.viewNumber == r.view.viewNumber && r.sequenceNum <= m.seqNum && m.SignedOn(signer, m.Header())
  }

  // The part of HandlePrePrepareMsg that adopts the proposal; a leader only logs it.
  function Adopt(signer: Signer, r: Replica, m: PMsg): Replica
    requires r.Valid()
  {
    var r1 := LogMsg(r, m);
    if r.IsLeader() then r1
    else r1.(curPhase := PREPREPARE, curProposal := m.proposal, sequenceNum := m.seqNum,
             blkStore := r.blkStore.(curProposalBlk := m.block, curBlkHash := m.block.Hash(signer.sum)))
  }

  // A vote of r, signed.
  function Vote(signer: Signer, r: Replica, mType: StateType, seqNum: int, digest: Bytes): PMsg {
    var vote := NO_PMSG.(mType := mType, viewNumber := r.view.viewNumber, seqNum := seqNum, sendNode := r.consId, digest := digest);
    vote.(signature := signer.sign(r.consId, vote.VoteBytes(signer)))
  }

  function HandlePrePrepareMsg(signer: Signer, r: Replica, m: PMsg): (Replica, Option<PMsg>)
    requires r.Valid()
  {
    if r.msgLog[m.viewNumber % CHECKPOINTNUM].preprepareMsg.Some? || !CheckPrePrepareMsg(signer, r, m) then (r, None)
    else
      var (r1, waiting) := CheckPrepareAndCommit(signer, Adopt(signer, r, m), m);
      if waiting.Some? then (r1, waiting) else (r1, Some(Vote(signer, r1, PREPARE, m.seqNum, m.digest)))
  }

  function HandlePrepareMsg(signer: Signer, r: Replica, m: PMsg): (Replica, Option<PMsg>)
    requires r.Valid()
  {
    if r.curPhase == VIEW_CHANGE then (r, None)
    else
      var (r1, ok) := CheckMsg(signer, r, m);
      if !ok then (r1, None)
      else
        var r2 := LogMsg(r1, m);
        if r2.curPhase == PREPARE || |r2.Slot().prepareMsgs| <= VoteBound(r.view.nodesNum) then (r2, None)
        else
          var r3 := r2.(curPhase := PREPARE, view := AdvanceTo(r2.view, m.viewNumber));
          (r3, Some(Vote(signer, r3, COMMIT, r3.sequenceNum, m.digest)))
  }

  function HandleCommitMsg(signer: Signer, r: Replica, m: PMsg): (Replica, Option<PMsg>)
    requires r.Valid()
  {
    if r.curPhase == VIEW_CHANGE then (r, None)
    else
      var (r1, ok) := CheckMsg(signer, r, m);
      if !ok then (r1, None)
      else
        var r2 := LogMsg(r1, m);
        if r2.curPhase == COMMIT && m.viewNumber < r2.view.viewNumber then (r2, None)
        else if |r2.Slot().prepareMsgs| <= VoteBound(r.view.nodesNum) || |r2.Slot().commitMsgs| <= VoteBound(r.view.nodesNum) then (r2, None)
        else
          AdvanceKeepsValid(r2.view, m.viewNumber);
          var (r3, reply) := Reply(signer, r2.(view := AdvanceTo(r2.view, m.viewNumber)), m.digest);
          (r3, Some(reply))
  }

  function RoutePMsg(signer: Signer, r: Replica, m: PMsg): (Replica, Option<PMsg>)
    requires r.Valid()
  {
    if m.mType == PREPREPARE then HandlePrePrepareMsg(signer, r, m)
    else if m.mType == PREPARE then HandlePrepareMsg(signer, r, m)
    else if m.mType == COMMIT then HandleCommitMsg(signer, r, m)
    else (r, None)
  }

  // Handles one message of the normal case. After a reply the next leader waits for a request.
  function HandlePMsg(signer: Signer, r: Replica, m: PMsg): (Replica, Option<PMsg>)
    requires r.Valid()
  {
    if m.viewNumber < r.view.viewNumber then (r, None)
    else
      var (r1, out) := RoutePMsg(signer, r, m);
      if out.None? then (r1, None)
      else if out.value.mType == REPLY then
        (if r1.IsLeader() && r1.curPhase != CHECKPOINT then r1.(curPhase := WAITING) else r1, out)
      else (r1, Some(out.value.(sendNode := r.consId)))
  }

  // A request makes any node propose at once, in whatever phase it is.
  function HandleReq(signer: Signer, r: Replica, height: int, cmds: seq<Bytes>, timeStamp: int): (Replica, PMsg)
    requires r.Valid()
  {
    var proposal := Proposal(height, Some(cmds));
    var store := r.blkStore.GenNewBlock(signer.sum, r.view.viewNumber, cmds, timeStamp);
    var pp := NO_PMSG.(mType := PREPREPARE, viewNumber := r.view.viewNumber, seqNum := r.sequenceNum, digest := store.curBlkHash,
                       sendNode := r.consId, proposal := proposal, block := store.curProposalBlk);
    var signed := pp.(signature := signer.sign(r.consId, pp.Header()));
    (LogMsg(r.(curProposal := proposal, blkStore := store), signed).(curPhase := PREPREPARE), signed)
  }

  // A checkpoint became stable: the log starts afresh.
  function Checkpointed(r: Replica, seqNum: int): Replica {
    r.(checkSeq := seqNum, msgLog := seq(CHECKPOINTNUM, _ => NO_LOG), curPhase := if r.IsLeader() then WAITING else NEW_VIEW)
  }
}
