/** The basic HotStuff core of one node: BCHotstuff and its handlers. */
module BasicHotstuff {
  import opened Common
  import opened Blockchain
  import opened HotstuffTypes
  import Spec = BasicHotstuffSpec
  import Merkle

  // Index of the first message with the highest justify view.
  method GetHighQCIndex(newViewMsgs: seq<Msg>) returns (maxIndex: nat)
    requires newViewMsgs != []
    ensures maxIndex < |newViewMsgs|
    ensures forall i :: 0 <= i < |newViewMsgs| ==> newViewMsgs[i].justify.viewNumber <= newViewMsgs[maxIndex].justify.viewNumber
    ensures forall i :: 0 <= i < maxIndex ==> newViewMsgs[i].justify.viewNumber < newViewMsgs[maxIndex].justify.viewNumber
    ensures maxIndex == Spec.GetHighQCIndex(newViewMsgs)
  {
    maxIndex := 0;
    var maxViewNumber := newViewMsgs[0].justify.viewNumber;
    var i := 0;
    while i < |newViewMsgs|
      invariant 0 <= i <= |newViewMsgs| && maxIndex < |newViewMsgs| && (i > 0 ==> maxIndex < i) && (i == 0 ==> maxIndex == 0)
      invariant maxViewNumber == newViewMsgs[maxIndex].justify.viewNumber
      invariant forall j :: 0 <= j < i ==> newViewMsgs[j].justify.viewNumber <= maxViewNumber
      invariant forall j :: 0 <= j < maxIndex ==> newViewMsgs[j].justify.viewNumber < maxViewNumber
      invariant i > 0 ==> maxIndex == FirstMaxUpTo(Spec.JustifyViews(newViewMsgs), i)
    {
      if newViewMsgs[i].justify.viewNumber > maxViewNumber {
        maxIndex := i;
        maxViewNumber := newViewMsgs[i].justify.viewNumber;
      }
      i := i + 1;
    }
  }

  class BCHotstuff {
    const crypto: Crypto
    const consId: nat
    const forwards: bool
    const sends: bool

    var curPhase: StateType
    var view: View
    var hsNode: HsNode
    var prepareQC: QC
    var lockedQC: QC
    var lastProposal: Proposal
    var curProposal: Proposal
    var viewChangeSendFlag: bool
    var ignoreCheckQC: bool
    var lastRoundMsg: seq<Msg>
    var curRoundMsg: seq<Msg>
    var newViewMsgs: seq<Msg>
    var prepareVotes: seq<Msg>
    var preCommitVotes: seq<Msg>
    var commitVotes: seq<Msg>
    var blkStore: Store

    function State(): Spec.Replica
      reads this
    {
      Spec.Replica(consId, curPhase, view, hsNode, prepareQC, lockedQC, lastProposal, curProposal,
        viewChangeSendFlag, ignoreCheckQC, lastRoundMsg, curRoundMsg, newViewMsgs,
        prepareVotes, preCommitVotes, commitVotes, blkStore)
    }

    ghost predicate Valid()
      reads this
    {
      State().Valid()
    }

    constructor (crypto: Crypto, consId: nat, nodesNum: nat, forwards: bool, sends: bool)
      ensures State() == Spec.NewReplica(crypto, consId, nodesNum)
      ensures this.crypto == crypto && this.forwards == forwards && this.sends == sends
    {
      this.crypto, this.consId, this.forwards, this.sends := crypto, consId, forwards, sends;
      var empty := Merkle.EmptyHash(crypto.sum);
      curPhase := NEW_VIEW;
      view := View(0, 0, nodesNum);
      hsNode := HsNode(empty, empty);
      lockedQC := QC(PREPARE, -1, HsNode(empty, []), NoSign);
      prepareQC := QC(COMMIT, -1, HsNode(empty, []), NoSign);
      lastProposal, curProposal := NO_PROPOSAL, NO_PROPOSAL;
      viewChangeSendFlag, ignoreCheckQC := false, false;
      lastRoundMsg := [NO_MSG.(viewNumber := -1)];
      curRoundMsg, newViewMsgs, prepareVotes, preCommitVotes, commitVotes := [], [], [], [], [];
      blkStore := NewStore(crypto.sum);
    }

    method InitLeader()
      requires view.viewNumber == 0
      modifies this
      ensures State() == Spec.InitLeader(crypto, old(State()))
    {
      curPhase := WAITING;
      ignoreCheckQC := true;
      var empty := Merkle.EmptyHash(crypto.sum);
      newViewMsgs := newViewMsgs + [Spec.INIT_MSG.(hsNode := HsNode(empty, empty))];
    }

    predicate IsLeader()
      reads this
    {
      consId == view.leader
    }

    // The message that was signed is recovered from phase, view and node.
    method CombineSign(voteMsgs: seq<Msg>) returns (sign: Signature)
      ensures sign == Spec.CombineSign(crypto, State(), voteMsgs)
    {
      var partSigs := [];
      for i := 0 to |voteMsgs|
        invariant partSigs == Spec.Shares(voteMsgs[..i])
      {
        partSigs := partSigs + [voteMsgs[i].partialSig];
      }
      assert voteMsgs[..|voteMsgs|] == voteMsgs;
      var msgSign := NO_MSG.(mType := curPhase, viewNumber := view.viewNumber, hsNode := hsNode);
      sign := crypto.combineSig(msgSign.Message2Byte(), partSigs);
    }

    method Propose(commands: seq<Bytes>, timeStamp: int) returns (prepare: Msg)
      requires newViewMsgs != []
      modifies this
      ensures (State(), prepare) == Spec.Propose(crypto, old(State()), commands, timeStamp)
    {
      blkStore := blkStore.GenNewBlock(crypto.sum, view.viewNumber, commands, timeStamp);
      var highQCNum := GetHighQCIndex(newViewMsgs);
      hsNode := HsNode(blkStore.curBlkHash, newViewMsgs[highQCNum].justify.hsNode.curHash);
      curPhase := PREPARE;
      prepare := Msg(PREPARE, view.viewNumber, hsNode, newViewMsgs[highQCNum].justify, NoSign,
        curProposal, blkStore.curProposalBlk, None, Broadcast);
    }

    method HandleNewView(msg: Msg, timeStamp: int) returns (out: Option<Msg>)
      modifies this
      ensures (State(), out) == Spec.HandleNewView(crypto, old(State()), msg, timeStamp)
    {
      if curPhase != NEW_VIEW && curPhase != WAITING {
        return None;
      }
      if !IsLeader() {
        return None;
      }
      if |lastRoundMsg| == 0 {
        if Spec.MatchingMsg(msg, NEW_VIEW, view.viewNumber) && Spec.CheckQC(crypto, msg.justify, PREPARE, view.viewNumber - 1) {
          newViewMsgs := newViewMsgs + [msg];
        }
      } else if Spec.MatchingMsg(msg, NEW_VIEW, view.viewNumber)
             && Spec.CheckQC(crypto, msg.justify, PREPARE, lastRoundMsg[|lastRoundMsg| - 1].viewNumber) {
        newViewMsgs := newViewMsgs + [msg];
      }
      if |newViewMsgs| <= VoteBound(view.nodesNum) {
        return None;
      }
      if |curProposal.commands| == 0 {
        if viewChangeSendFlag {
          return None;
        }
        curPhase := WAITING;
        return None;
      }
      var prepare := Propose(curProposal.commands, timeStamp);
      out := Some(prepare);
    }

    method GenProposal(timeStamp: int) returns (out: Option<Msg>)
      requires newViewMsgs != []
      modifies this
      ensures (State(), out) == Spec.GenProposal(crypto, old(State()), timeStamp)
    {
      if |newViewMsgs| <= VoteBound(view.nodesNum) && !ignoreCheckQC {
        return None;
      }
      var prepare := Propose(Spec.CutOff(curProposal.commands, 128), timeStamp);
      ignoreCheckQC := false;
      out := Some(prepare.(sendNode := Some(consId)));
    }

    method HandleReq(height: int, preHash: Bytes, cmds: seq<Bytes>, signs: seq<Bytes>, timeStamp: int) returns (out: Option<Msg>)
      requires Valid()
      modifies this
      ensures (State(), out) == Spec.HandleReq(crypto, old(State()), height, preHash, cmds, signs, timeStamp)
    {
      var root := Merkle.HashFromByteSlicesIterative(crypto.sum, cmds);
      curProposal := Proposal(height, preHash, root, cmds, signs);
      out := None;
      if curPhase == WAITING {
        out := GenProposal(timeStamp);
        if out.Some? {
          curRoundMsg := curRoundMsg + [out.value];
        }
      }
    }

    method HandlePrepare(msg: Msg) returns (out: Option<Msg>)
      modifies this
      ensures (State(), out) == Spec.HandlePrepare(crypto, old(State()), msg)
    {
      if curPhase != NEW_VIEW {
        return None;
      }
      if IsLeader() {
        return None;
      }
      if curProposal.IsEmpty() {
        curProposal := msg.proposal;
      }
      if msg.viewNumber != view.viewNumber {
        return None;
      }
      if view.viewNumber != 0 && !Spec.CheckNewHsNode(State(), msg) {
        return None;
      }
      if !Spec.VerifyReqs(msg.proposal.commands) {
        return None;
      }
      var vote := NO_MSG.(mType := msg.mType, viewNumber := msg.viewNumber, hsNode := msg.hsNode, reciNode := Node(view.leader));
      var partSig := crypto.ThresholdSign(consId, vote.Message2Byte());
      vote := vote.(mType := PREPARE_VOTE, partialSig := partSig);
      curPhase := PREPARE;
      blkStore := blkStore.(curProposalBlk := msg.block);
      blkStore := blkStore.(curBlkHash := blkStore.curProposalBlk.Hash(crypto.sum));
      out := Some(vote);
    }

    method HandlePrepareVote(msg: Msg) returns (out: Option<Msg>)
      modifies this
      ensures (State(), out) == Spec.HandlePrepareVote(crypto, old(State()), msg)
    {
      if curPhase != PREPARE || !IsLeader() {
        return None;
      }
      if Spec.MatchingMsg(msg, PREPARE_VOTE, view.viewNumber) {
        prepareVotes := prepareVotes + [msg];
      }
      if |prepareVotes| <= VoteBound(view.nodesNum) {
        return None;
      }
      var prepareSig := CombineSign(prepareVotes);
      if prepareSig == NoSign {
        return None;
      }
      prepareQC := QC(PREPARE, msg.viewNumber, msg.hsNode, prepareSig);
      curPhase := PRE_COMMIT;
      out := Some(Spec.LeaderMsg(PRE_COMMIT, view.viewNumber, prepareQC));
    }

    method HandlePreCommit(msg: Msg) returns (out: Option<Msg>)
      modifies this
      ensures (State(), out) == Spec.HandlePreCommit(crypto, old(State()), msg)
    {
      if curPhase != PREPARE && curPhase != NEW_VIEW {
        return None;
      }
      if IsLeader() {
        return None;
      }
      if msg.viewNumber != view.viewNumber {
        return None;
      }
      if !Spec.CheckQC(crypto, msg.justify, PREPARE, view.viewNumber) {
        return None;
      }
      hsNode := msg.justify.hsNode;
      prepareQC := msg.justify;
      var vote := NO_MSG.(mType := msg.mType, viewNumber := msg.justify.viewNumber, hsNode := msg.justify.hsNode, reciNode := Node(view.leader));
      var partSig := crypto.ThresholdSign(consId, vote.Message2Byte());
      vote := vote.(mType := PRE_COMMIT_VOTE, partialSig := partSig);
      curPhase := PRE_COMMIT;
      out := Some(vote);
    }

    method HandlePreCommitVote(msg: Msg) returns (out: Option<Msg>)
      modifies this
      ensures (State(), out) == Spec.HandlePreCommitVote(crypto, old(State()), msg)
    {
      if curPhase != PRE_COMMIT || !IsLeader() {
        return None;
      }
      if Spec.MatchingMsg(msg, PRE_COMMIT_VOTE, view.viewNumber) {
        preCommitVotes := preCommitVotes + [msg];
      }
      if |preCommitVotes| <= VoteBound(view.nodesNum) {
        return None;
      }
      var preCommitSig := CombineSign(preCommitVotes);
      if preCommitSig == NoSign {
        return None;
      }
      lockedQC := QC(PRE_COMMIT, msg.viewNumber, msg.hsNode, preCommitSig);
      curPhase := COMMIT;
      out := Some(Spec.LeaderMsg(COMMIT, view.viewNumber, lockedQC));
    }

    method HandleCommit(msg: Msg) returns (out: Option<Msg>)
      modifies this
      ensures (State(), out) == Spec.HandleCommit(crypto, old(State()), msg)
    {
      if curPhase != PRE_COMMIT {
        return None;
      }
      if IsLeader() {
        return None;
      }
      if msg.viewNumber != view.viewNumber {
        return None;
      }
      if !Spec.CheckQC(crypto, msg.justify, PRE_COMMIT, view.viewNumber) {
        return None;
      }
      lockedQC := msg.justify;
      var vote := NO_MSG.(mType := COMMIT, viewNumber := msg.viewNumber, hsNode := msg.justify.hsNode, reciNode := Node(view.leader));
      var partSig := crypto.ThresholdSign(consId, vote.Message2Byte());
      vote := vote.(partialSig := partSig, mType := COMMIT_VOTE);
      curPhase := COMMIT;
      out := Some(vote);
    }

    method HandleCommitVote(msg: Msg) returns (out: Option<Msg>)
      modifies this
      ensures (State(), out) == Spec.HandleCommitVote(crypto, old(State()), msg)
    {
      if curPhase != COMMIT || !IsLeader() {
        return None;
      }
      if Spec.MatchingMsg(msg, COMMIT_VOTE, view.viewNumber) {
        commitVotes := commitVotes + [msg];
      }
      if |commitVotes| <= VoteBound(view.nodesNum) {
        return None;
      }
      var commitSig := CombineSign(commitVotes);
      if commitSig == NoSign {
        return None;
      }
      out := Some(Spec.LeaderMsg(DECIDE, view.viewNumber, QC(COMMIT, msg.viewNumber, msg.hsNode, commitSig)));
    }

    method NewRound()
      requires view.nodesNum > 0
      modifies this
      ensures State() == Spec.NewRound(old(State()))
    {
      hide View.NextView;
      view := view.NextView();
      lastRoundMsg := curRoundMsg;
      curRoundMsg := [];
      DropMsgs();
    }

    method DropMsgs()
      modifies this
      ensures State() == old(State()).(newViewMsgs := [], prepareVotes := [], preCommitVotes := [], commitVotes := [])
    {
      newViewMsgs := [];
      prepareVotes := [];
      preCommitVotes := [];
      commitVotes := [];
    }

    method HandleDecide(msg: Msg) returns (out: Option<Msg>)
      requires view.nodesNum > 0
      modifies this
      ensures (State(), out) == Spec.HandleDecide(crypto, old(State()), msg)
    {
      if curPhase != COMMIT {
        return None;
      }
      if msg.viewNumber != view.viewNumber {
        return None;
      }
      if !Spec.CheckQC(crypto, msg.justify, COMMIT, view.viewNumber) {
        return None;
      }
      curPhase := DECIDE;
      blkStore := blkStore.(curProposalBlk := blkStore.curProposalBlk.WithValidation(msg.justify.sign));
      blkStore := blkStore.StoreBlock(blkStore.curProposalBlk);
      NewRound();
      out := Some(NO_MSG.(mType := NEW_VIEW, viewNumber := view.viewNumber, sendNode := Some(consId),
                          justify := prepareQC, reciNode := Node(view.leader)));
    }

    method RouteBMsg(msg: Msg, timeStamp: int) returns (out: Option<Msg>)
      requires view.nodesNum > 0
      modifies this
      ensures (State(), out) == Spec.RouteBMsg(crypto, old(State()), msg, timeStamp)
    {
      if msg.mType == 0 { out := HandleNewView(msg, timeStamp); }
      else if msg.mType == 1 { out := HandlePrepare(msg); }
      else if msg.mType == 2 { out := HandlePrepareVote(msg); }
      else if msg.mType == 3 { out := HandlePreCommit(msg); }
      else if msg.mType == 4 { out := HandlePreCommitVote(msg); }
      else if msg.mType == 5 { out := HandleCommit(msg); }
      else if msg.mType == 6 { out := HandleCommitVote(msg); }
      else if msg.mType == 7 { out := HandleDecide(msg); }
      else { out := None; }
    }

    method UpdateBasicHotstuff()
      modifies this
      ensures State() == old(State()).(curPhase := NEW_VIEW, lastProposal := old(curProposal), curProposal := NO_PROPOSAL)
    {
      curPhase := NEW_VIEW;
      lastProposal := curProposal;
      curProposal := NO_PROPOSAL;
    }

    method HandleBMsg(msg: Msg, timeStamp: int) returns (sent: Option<Msg>)
      requires view.nodesNum > 0
      modifies this
      ensures (State(), sent) == Spec.HandleBMsg(crypto, old(State()), msg, timeStamp)
    {
      var out := RouteBMsg(msg, timeStamp);
      if out.None? {
        return None;
      }
      var msgReturn := out.value.(sendNode := Some(consId));
      curRoundMsg := curRoundMsg + [msgReturn];
      if msgReturn.mType == NEW_VIEW && !curProposal.IsEmpty() {
        UpdateBasicHotstuff();
      }
      sent := Some(msgReturn);
    }

    method StartViewChange() returns (newViewMsg: Msg)
      requires view.nodesNum > 0
      modifies this
      ensures (State(), newViewMsg) == Spec.StartViewChange(crypto, old(State()), forwards, sends)
    {
      view := view.NextView();
      newViewMsg := NO_MSG.(mType := NEW_VIEW, justify := prepareQC, viewNumber := view.viewNumber,
                            sendNode := Some(consId), reciNode := Node(view.leader));
      var sign := crypto.ThresholdSign(consId, newViewMsg.Message2Byte());
      newViewMsg := newViewMsg.(partialSig := sign);
      if forwards {
        viewChangeSendFlag := true;
      }
      if sends {
        curRoundMsg := curRoundMsg + [newViewMsg];
      }
      curPhase := NEW_VIEW;
    }
  }
}
