/** What each handler of basic HotStuff does to the state of one replica, as functions on values. */
module BasicHotstuffSpec {
  import opened Common
  import opened Blockchain
  import opened HotstuffTypes
  import Merkle

  // The fields of BCHotstuff.
  datatype Replica = Replica(
    consId: nat, curPhase: StateType, view: View,
    hsNode: HsNode, prepareQC: QC, lockedQC: QC,
    lastProposal: Proposal, curProposal: Proposal,
    viewChangeSendFlag: bool, ignoreCheckQC: bool,
    lastRoundMsg: seq<Msg>, curRoundMsg: seq<Msg>, newViewMsgs: seq<Msg>,
    prepareVotes: seq<Msg>, preCommitVotes: seq<Msg>, commitVotes: seq<Msg>,
    blkStore: Store)
  {
    predicate IsLeader() {
      consId == view.leader
    }

    // A leader waits for requests only with a new-view message at hand.
    predicate Valid() {
      view.Valid() && (curPhase == WAITING ==> newViewMsgs != [])
    }
  }

  type Outcome = (Replica, Option<Msg>)

  // The new-view message with which the leader of view 0 starts.
  const INIT_MSG := NO_MSG.(sendNode := Some(0))

  function NewReplica(c: Crypto, consId: nat, nodesNum: nat): Replica {
    var empty := Merkle.EmptyHash(c.sum);
    Replica(consId, NEW_VIEW, View(0, 0, nodesNum),
      HsNode(empty, empty), QC(COMMIT, -1, HsNode(empty, []), NoSign), QC(PREPARE, -1, HsNode(empty, []), NoSign),
      NO_PROPOSAL, NO_PROPOSAL, false, false,
      [NO_MSG.(viewNumber := -1)], [], [], [], [], [], NewStore(c.sum))
  }

  // InitLeader in view 0.
  function InitLeader(c: Crypto, r: Replica): Replica {
    r.(curPhase := WAITING, ignoreCheckQC := true,
       newViewMsgs := r.newViewMsgs + [INIT_MSG.(hsNode := HsNode(Merkle.EmptyHash(c.sum), Merkle.EmptyHash(c.sum)))])
  }

  /* Checks */

  predicate MatchingMsg(m: Msg, code: StateType, curView: int) {
    m.mType == code && m.viewNumber == curView
  }

  predicate MatchingQC(qc: QC, code: StateType, curView: int) {
    qc.qType == code && qc.viewNumber == curView
  }

  predicate CheckQC(c: Crypto, qc: QC, code: StateType, curView: int) {
    MatchingQC(qc, code, curView) && c.ThresholdSignVerify(qc.QC2SignMsgByte(), qc.sign)
  }

  predicate SafeNode(r: Replica, node: HsNode, qc: QC) {
    r.lockedQC.hsNode.curHash == node.parentHash || qc.viewNumber > r.lockedQC.viewNumber
  }

  predicate CheckNewHsNode(r: Replica, m: Msg) {
    && m.hsNode.parentHash != []
    && m.justify.hsNode.curHash != []
    && m.hsNode.parentHash == m.justify.hsNode.curHash
    && SafeNode(r, m.hsNode, m.justify)
  }

  // VerifyReqs only counts the requests.
  predicate VerifyReqs(reqs: seq<Bytes>) {
    reqs != []
  }

  function Shares(votes: seq<Msg>): seq<Signature> {
    seq(|votes|, i requires 0 <= i < |votes| => votes[i].partialSig)
  }

  function CombineSign(c: Crypto, r: Replica, votes: seq<Msg>): Signature {
    c.combineSig(SignedBytes(r.curPhase, r.view.viewNumber, r.hsNode), Shares(votes))
  }

  /* New view: the leader proposes */

  function JustifyViews(msgs: seq<Msg>): seq<int> {
    seq(|msgs|, i requires 0 <= i < |msgs| => msgs[i].justify.viewNumber)
  }

  // Index of the first message with the highest justify view.
  function GetHighQCIndex(msgs: seq<Msg>): nat
    requires msgs != []
  {
    FirstMaxUpTo(JustifyViews(msgs), |msgs|)
  }

  function CutOff(slice: seq<Bytes>, splitPoint: nat): seq<Bytes> {
    if splitPoint == 0 then []
    else seq(|slice|, i requires 0 <= i < |slice| => if |slice[i]| < splitPoint then slice[i] else slice[i][..splitPoint])
  }

  lemma CutOffCuts(cmds: seq<Bytes>)
    ensures CutFrom(CutOff(cmds, 128), cmds)
  {
  }

  // The block, the leaf and the prepare message of a proposal.
  function Propose(c: Crypto, r: Replica, commands: seq<Bytes>, timeStamp: int): (Replica, Msg)
    requires r.newViewMsgs != []
  {
    var store := r.blkStore.GenNewBlock(c.sum, r.view.viewNumber, commands, timeStamp);
    var high := r.newViewMsgs[GetHighQCIndex(r.newViewMsgs)].justify;
    var node := HsNode(store.curBlkHash, high.hsNode.curHash);
    (r.(blkStore := store, hsNode := node, curPhase := PREPARE),
     Msg(PREPARE, r.view.viewNumber, node, high, NoSign, r.curProposal, store.curProposalBlk, None, Broadcast))
  }

  function LastRoundView(r: Replica): int {
    if r.lastRoundMsg == [] then r.view.viewNumber - 1 else r.lastRoundMsg[|r.lastRoundMsg| - 1].viewNumber
  }

  function LogNewView(c: Crypto, r: Replica, m: Msg): Replica {
    if MatchingMsg(m, NEW_VIEW, r.view.viewNumber) && CheckQC(c, m.justify, PREPARE, LastRoundView(r))
    then r.(newViewMsgs := r.newViewMsgs + [m]) else r
  }

  function HandleNewView(c: Crypto, r: Replica, m: Msg, timeStamp: int): Outcome {
    if r.curPhase != NEW_VIEW && r.curPhase != WAITING then (r, None)
    else if !r.IsLeader() then (r, None)
    else
      var r1 := LogNewView(c, r, m);
      if |r1.newViewMsgs| <= VoteBound(r.view.nodesNum) then (r1, None)
      else if r1.curProposal.commands == [] then
        if r1.viewChangeSendFlag then (r1, None) else (r1.(curPhase := WAITING), None)
      else
        var (r2, prepare) := Propose(c, r1, r1.curProposal.commands, timeStamp);
        (r2, Some(prepare))
  }

  function GenProposal(c: Crypto, r: Replica, timeStamp: int): Outcome
    requires r.newViewMsgs != []
  {
    if |r.newViewMsgs| <= VoteBound(r.view.nodesNum) && !r.ignoreCheckQC then (r, None)
    else
      var (r1, prepare) := Propose(c, r, CutOff(r.curProposal.commands, 128), timeStamp);
      (r1.(ignoreCheckQC := false), Some(prepare.(sendNode := Some(r.consId))))
  }

  function HandleReq(c: Crypto, r: Replica, height: int, preHash: Bytes, cmds: seq<Bytes>, signs: seq<Bytes>, timeStamp: int): Outcome
    requires r.Valid()
  {
    var r1 := r.(curProposal := Proposal(height, preHash, Merkle.MerkleTreeHash(c.sum, cmds), cmds, signs));
    if r.curPhase == WAITING then
      var (r2, prepare) := GenProposal(c, r1, timeStamp);
      if prepare.Some? then (r2.(curRoundMsg := r2.curRoundMsg + [prepare.value]), prepare) else (r2, None)
    else (r1, None)
  }

  /* The three voting phases of a replica */

  function HandlePrepare(c: Crypto, r: Replica, m: Msg): Outcome {
    if r.curPhase != NEW_VIEW then (r, None)
    else if r.IsLeader() then (r, None)
    else
      var r1 := if r.curProposal.IsEmpty() then r.(curProposal := m.proposal) else r;
      if m.viewNumber != r.view.viewNumber then (r1, None)
      else if r.view.viewNumber != 0 && !CheckNewHsNode(r1, m) then (r1, None)
      else if !VerifyReqs(m.proposal.commands) then (r1, None)
      else
        var vote := NO_MSG.(mType := m.mType, viewNumber := m.viewNumber, hsNode := m.hsNode, reciNode := Node(r.view.leader));
        (r1.(curPhase := PREPARE,
             blkStore := r1.blkStore.(curProposalBlk := m.block, curBlkHash := m.block.Hash(c.sum))),
         Some(vote.(mType := PREPARE_VOTE, partialSig := c.ThresholdSign(r.consId, vote.Message2Byte()))))
  }

  function HandlePreCommit(c: Crypto, r: Replica, m: Msg): Outcome {
    if r.curPhase != PREPARE && r.curPhase != NEW_VIEW then (r, None)
    else if r.IsLeader() then (r, None)
    else if m.viewNumber != r.view.viewNumber then (r, None)
    else if !CheckQC(c, m.justify, PREPARE, r.view.viewNumber) then (r, None)
    else
      var vote := NO_MSG.(mType := m.mType, viewNumber := m.justify.viewNumber, hsNode := m.justify.hsNode, reciNode := Node(r.view.leader));
      (r.(hsNode := m.justify.hsNode, prepareQC := m.justify, curPhase := PRE_COMMIT),
       Some(vote.(mType := PRE_COMMIT_VOTE, partialSig := c.ThresholdSign(r.consId, vote.Message2Byte()))))
  }

  function HandleCommit(c: Crypto, r: Replica, m: Msg): Outcome {
    if r.curPhase != PRE_COMMIT then (r, None)
    else if r.IsLeader() then (r, None)
    else if m.viewNumber != r.view.viewNumber then (r, None)
    else if !CheckQC(c, m.justify, PRE_COMMIT, r.view.viewNumber) then (r, None)
    else
      var vote := NO_MSG.(mType := COMMIT, viewNumber := m.viewNumber, hsNode := m.justify.hsNode, reciNode := Node(r.view.leader));
      (r.(lockedQC := m.justify, curPhase := COMMIT),
       Some(vote.(mType := COMMIT_VOTE, partialSig := c.ThresholdSign(r.consId, vote.Message2Byte()))))
  }

  /* The three vote collections of a leader */

  function Certificate(qType: StateType, m: Msg, sign: Signature): QC {
    QC(qType, m.viewNumber, m.hsNode, sign)
  }

  function LeaderMsg(mType: StateType, viewNumber: int, qc: QC): Msg {
    NO_MSG.(mType := mType, viewNumber := viewNumber, justify := qc, reciNode := Broadcast)
  }

  function HandlePrepareVote(c: Crypto, r: Replica, m: Msg): Outcome {
    if r.curPhase != PREPARE || !r.IsLeader() then (r, None)
    else
      var r1 := if MatchingMsg(m, PREPARE_VOTE, r.view.viewNumber) then r.(prepareVotes := r.prepareVotes + [m]) else r;
      if |r1.prepareVotes| <= VoteBound(r.view.nodesNum) then (r1, None)
      else
        var sign := CombineSign(c, r1, r1.prepareVotes);
        if sign == NoSign then (r1, None)
        else
          var qc := Certificate(PREPARE, m, sign);
          (r1.(prepareQC := qc, curPhase := PRE_COMMIT), Some(LeaderMsg(PRE_COMMIT, r.view.viewNumber, qc)))
  }

  function HandlePreCommitVote(c: Crypto, r: Replica, m: Msg): Outcome {
    if r.curPhase != PRE_COMMIT || !r.IsLeader() then (r, None)
    else
      var r1 := if MatchingMsg(m, PRE_COMMIT_VOTE, r.view.viewNumber) then r.(preCommitVotes := r.preCommitVotes + [m]) else r;
      if |r1.preCommitVotes| <= VoteBound(r.view.nodesNum) then (r1, None)
      else
        var sign := CombineSign(c, r1, r1.preCommitVotes);
        if sign == NoSign then (r1, None)
        else
          var qc := Certificate(PRE_COMMIT, m, sign);
          (r1.(lockedQC := qc, curPhase := COMMIT), Some(LeaderMsg(COMMIT, r.view.viewNumber, qc)))
  }

  function HandleCommitVote(c: Crypto, r: Replica, m: Msg): Outcome {
    if r.curPhase != COMMIT || !r.IsLeader() then (r, None)
    else
      var r1 := if MatchingMsg(m, COMMIT_VOTE, r.view.viewNumber) then r.(commitVotes := r.commitVotes + [m]) else r;
      if |r1.commitVotes| <= VoteBound(r.view.nodesNum) then (r1, None)
      else
        var sign := CombineSign(c, r1, r1.commitVotes);
        if sign == NoSign then (r1, None)
        else (r1, Some(LeaderMsg(DECIDE, r.view.viewNumber, Certificate(COMMIT, m, sign))))
  }

  /* Decide, new round, timeout */

  function NewRound(r: Replica): Replica
    requires r.view.nodesNum > 0
  {
    r.(view := r.view.NextView(), lastRoundMsg := r.curRoundMsg, curRoundMsg := [],
       newViewMsgs := [], prepareVotes := [], preCommitVotes := [], commitVotes := [])
  }

  function HandleDecide(c: Crypto, r: Replica, m: Msg): Outcome
    requires r.view.nodesNum > 0
  {
    if r.curPhase != COMMIT then (r, None)
    else if m.viewNumber != r.view.viewNumber then (r, None)
    else if !CheckQC(c, m.justify, COMMIT, r.view.viewNumber) then (r, None)
    else
      var blk := r.blkStore.curProposalBlk.WithValidation(m.justify.sign);
      var store := r.blkStore.(curProposalBlk := blk).StoreBlock(blk);
      var r1 := NewRound(r.(curPhase := DECIDE, blkStore := store));
      (r1, Some(NO_MSG.(mType := NEW_VIEW, viewNumber := r1.view.viewNumber, sendNode := Some(r.consId),
                        justify := r.prepareQC, reciNode := Node(r1.view.leader))))
  }

  function RouteBMsg(c: Crypto, r: Replica, m: Msg, timeStamp: int): Outcome
    requires r.view.nodesNum > 0
  {
    if m.mType == NEW_VIEW then HandleNewView(c, r, m, timeStamp)
    else if m.mType == PREPARE then HandlePrepare(c, r, m)
    else if m.mType == PREPARE_VOTE then HandlePrepareVote(c, r, m)
    else if m.mType == PRE_COMMIT then HandlePreCommit(c, r, m)
    else if m.mType == PRE_COMMIT_VOTE then HandlePreCommitVote(c, r, m)
    else if m.mType == COMMIT then HandleCommit(c, r, m)
    else if m.mType == COMMIT_VOTE then HandleCommitVote(c, r, m)
    else if m.mType == DECIDE then HandleDecide(c, r, m)
    else (r, None)
  }

  // Bookkeeping of HandleBMsg after a handler returned a message.
  function AfterSend(r: Replica, out: Msg): Outcome {
    var sent := out.(sendNode := Some(r.consId));
    var r1 := r.(curRoundMsg := r.curRoundMsg + [sent]);
    if out.mType == NEW_VIEW && !r.curProposal.IsEmpty()
    then (r1.(curPhase := NEW_VIEW, lastProposal := r.curProposal, curProposal := NO_PROPOSAL), Some(sent))
    else (r1, Some(sent))
  }

  function HandleBMsg(c: Crypto, r: Replica, m: Msg, timeStamp: int): Outcome
    requires r.view.nodesNum > 0
  {
    var (r1, out) := RouteBMsg(c, r, m, timeStamp);
    if out.None? then (r1, None) else AfterSend(r1, out.value)
  }

  // The timeout. forwards and sends tell whether the replica has a channel to forward and one
  // to send on; only a sent message is recorded.
  function StartViewChange(c: Crypto, r: Replica, forwards: bool, sends: bool): (Replica, Msg)
    requires r.view.nodesNum > 0
  {
    var v := r.view.NextView();
    var m := NO_MSG.(mType := NEW_VIEW, justify := r.prepareQC, viewNumber := v.viewNumber,
                     sendNode := Some(r.consId), reciNode := Node(v.leader));
    var signed := m.(partialSig := c.ThresholdSign(r.consId, m.Message2Byte()));
    (r.(view := v, viewChangeSendFlag := r.viewChangeSendFlag || forwards,
        curRoundMsg := if sends then r.curRoundMsg + [signed] else r.curRoundMsg, curPhase := NEW_VIEW),
     signed)
  }
}
