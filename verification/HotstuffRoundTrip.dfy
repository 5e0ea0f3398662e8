/** Sign, combine, check: one view of basic HotStuff, from votes to certificates and on to the
    next phase, and what a leader makes of a vote that names another node. */
module HotstuffRoundTrip {
  import opened Common
  import opened Blockchain
  import opened HotstuffTypes
  import opened BasicHotstuffSpec
  import opened HotstuffGuards

  /* Voting */

  // The handler with which a replica answers the leader's message of phase t.
  function Answer(c: Crypto, t: StateType, r: Replica, m: Msg): Outcome {
    if t == PREPARE then HandlePrepare(c, r, m)
    else if t == PRE_COMMIT then HandlePreCommit(c, r, m)
    else HandleCommit(c, r, m)
  }

  // The node that a vote on m is for.
  function AskedNode(t: StateType, m: Msg): HsNode {
    if t == PREPARE then m.hsNode else m.justify.hsNode
  }

  lemma AnswerIsVote(c: Crypto, t: StateType, r: Replica, m: Msg)
    requires VoteType(t) && m.mType == t && Answer(c, t, r, m).1.Some?
    ensures var (r1, out) := Answer(c, t, r, m);
      && r1.consId == r.consId && r1.view == r.view && r1.curPhase == t && !r.IsLeader()
      && out.value.mType == t + 1 && out.value.viewNumber == r.view.viewNumber && out.value.hsNode == AskedNode(t, m)
      && out.value.partialSig == c.ThresholdSign(r.consId, SignedBytes(t, r.view.viewNumber, AskedNode(t, m)))
  {
  }

  // A certificate of type t for this view and node, that verifies.
  ghost predicate Names(c: Crypto, qc: QC, t: StateType, v: int, node: HsNode) {
    qc.qType == t && qc.viewNumber == v && qc.hsNode == node && c.ThresholdSignVerify(SignedBytes(t, v, node), qc.sign)
  }

  // What a vote leaves behind at the voter.
  ghost predicate VotedOn(c: Crypto, t: StateType, r: Replica, m: Msg, r1: Replica) {
    && r1.consId == r.consId && r1.view == r.view && r1.curPhase == t && r1.viewChangeSendFlag == r.viewChangeSendFlag
    && r1.curRoundMsg != [] && r1.curRoundMsg[|r1.curRoundMsg| - 1].viewNumber == r.view.viewNumber
    && (t == PREPARE ==> !r1.curProposal.IsEmpty() && r1.curProposal == (if r.curProposal.IsEmpty() then m.proposal else r.curProposal) && r1.blkStore == r.blkStore.(curProposalBlk := m.block, curBlkHash := m.block.Hash(c.sum)))
    && (t != PREPARE ==> r1.curProposal == r.curProposal && r1.blkStore == r.blkStore)
    && (if t == PRE_COMMIT then Names(c, r1.prepareQC, PREPARE, r.view.viewNumber, m.justify.hsNode) && r1.hsNode == m.justify.hsNode else r1.prepareQC == r.prepareQC)
    && (if t == COMMIT then Names(c, r1.lockedQC, PRE_COMMIT, r.view.viewNumber, m.justify.hsNode) else r1.lockedQC == r.lockedQC)
  }

  // What a replica does with a message of phase t that it votes on, and what it sends.
  lemma VoteIsSent(c: Crypto, t: StateType, r: Replica, m: Msg)
    requires r.view.nodesNum > 0 && VoteType(t) && m.mType == t && HandleBMsg(c, r, m, 0).1.Some?
    ensures var (r1, out) := HandleBMsg(c, r, m, 0);
      && VotedOn(c, t, r, m, r1) && !r.IsLeader()
      && MatchingMsg(out.value, t + 1, r.view.viewNumber) && out.value.hsNode == AskedNode(t, m)
      && out.value.partialSig == Share(r.consId, SignedBytes(t, r.view.viewNumber, AskedNode(t, m)))
      && out.value.sendNode == Some(r.consId) && out.value.reciNode == Node(r.view.leader)
  {
    assert Answer(c, t, r, m).1.Some?;
    AnswerIsVote(c, t, r, m);
    hide SignedBytes, Block.Hash, CheckNewHsNode;
  }

  // Different replicas in view v that all vote on m.
  ghost predicate AllVote(c: Crypto, t: StateType, v: int, m: Msg, voters: seq<Replica>) {
    && VoteType(t) && m.mType == t
    && (forall i, j :: 0 <= i < j < |voters| ==> voters[i].consId != voters[j].consId)
    && (forall i :: 0 <= i < |voters| ==>
          voters[i].view.viewNumber == v && voters[i].view.nodesNum > 0 && HandleBMsg(c, voters[i], m, 0).1.Some?)
  }

  ghost function VotesOn(c: Crypto, t: StateType, v: int, m: Msg, voters: seq<Replica>): seq<Msg>
    requires AllVote(c, t, v, m, voters)
  {
    seq(|voters|, i requires 0 <= i < |voters| => HandleBMsg(c, voters[i], m, 0).1.value)
  }

  ghost function AfterVoting(c: Crypto, t: StateType, v: int, m: Msg, voters: seq<Replica>): seq<Replica>
    requires AllVote(c, t, v, m, voters)
  {
    seq(|voters|, i requires 0 <= i < |voters| => HandleBMsg(c, voters[i], m, 0).0)
  }

  /* Collecting */

  // The handler that collects the votes of the leader's phase.
  function CollectVotes(c: Crypto, r: Replica, m: Msg): Outcome {
    if r.curPhase == PREPARE then HandlePrepareVote(c, r, m)
    else if r.curPhase == PRE_COMMIT then HandlePreCommitVote(c, r, m)
    else HandleCommitVote(c, r, m)
  }

  function VotesOf(r: Replica): seq<Msg> {
    if r.curPhase == PREPARE then r.prepareVotes else if r.curPhase == PRE_COMMIT then r.preCommitVotes else r.commitVotes
  }

  function WithVotes(r: Replica, votes: seq<Msg>): Replica {
    if r.curPhase == PREPARE then r.(prepareVotes := votes)
    else if r.curPhase == PRE_COMMIT then r.(preCommitVotes := votes)
    else r.(commitVotes := votes)
  }

  // The leader gets the votes one after another; what it says to the last one.
  function CollectAll(c: Crypto, r: Replica, votes: seq<Msg>): Outcome
    requires r.view.nodesNum > 0
    ensures CollectAll(c, r, votes).0.view.nodesNum == r.view.nodesNum
  {
    if votes == [] then (r, None)
    else
      var r1 := CollectAll(c, r, votes[..|votes| - 1]).0;
      HandlingKeepsNodesNum(c, r1, votes[|votes| - 1]);
      HandleBMsg(c, r1, votes[|votes| - 1], 0)
  }

  lemma HandlingKeepsNodesNum(c: Crypto, r: Replica, m: Msg)
    requires r.view.nodesNum > 0
    ensures HandleBMsg(c, r, m, 0).0.view.nodesNum == r.view.nodesNum
  {
    hide GetHighQCIndex, Store.GenNewBlock, CombineSign, CheckQC, CheckNewHsNode, Block.Hash;
  }

  lemma VoteIsCollected(c: Crypto, r: Replica, m: Msg)
    requires r.view.nodesNum > 0 && VoteType(r.curPhase) && m.mType == r.curPhase + 1
    ensures var (r1, out) := CollectVotes(c, r, m);
      HandleBMsg(c, r, m, 0) == (if out.None? then (r1, None) else AfterSend(r1, out.value))
  {
    hide HandleNewView, HandlePrepare, HandlePreCommit, HandleCommit, HandleDecide;
  }

  // A leader at the start of phase t.
  predicate Collects(t: StateType, r: Replica) {
    r.view.nodesNum > 0 && r.IsLeader() && r.curPhase == t && VoteType(t) && VotesOf(r) == []
  }

  lemma {:induction false} TooFewVotes(c: Crypto, r: Replica, votes: seq<Msg>)
    requires Collects(r.curPhase, r) && |votes| <= VoteBound(r.view.nodesNum)
    requires forall m <- votes :: MatchingMsg(m, r.curPhase + 1, r.view.viewNumber)
    ensures CollectAll(c, r, votes) == (WithVotes(r, votes), None)
  {
    if votes == [] {
      assert WithVotes(r, []) == r;
    } else {
      var before, last := votes[..|votes| - 1], votes[|votes| - 1];
      assert last in votes && before + [last] == votes && forall m <- before :: m in votes;
      TooFewVotes(c, r, before);
      VoteIsCollected(c, WithVotes(r, before), last);
      hide HandleBMsg;
    }
  }

  // What a leader makes of the last vote it needs.
  ghost predicate Made(c: Crypto, r: Replica, outcome: Outcome) {
    var (r1, out) := outcome;
    && out.Some? && out.value.mType == r.curPhase + 2 && out.value.viewNumber == r.view.viewNumber
    && Names(c, out.value.justify, r.curPhase, r.view.viewNumber, r.hsNode)
    && r1.view == r.view && r1.consId == r.consId && r1.hsNode == r.hsNode
    && (r.curPhase != COMMIT ==> r1.curPhase == r.curPhase + 2)
    && (r.curPhase == PREPARE ==> r1.preCommitVotes == r.preCommitVotes && r1.commitVotes == r.commitVotes)
    && (r.curPhase == PRE_COMMIT ==> r1.commitVotes == r.commitVotes)
  }

  lemma LastVoteMakes(c: Crypto, r: Replica, before: seq<Msg>, m: Msg)
    requires Collects(r.curPhase, r) && |before| == VoteBound(r.view.nodesNum)
    requires MatchingMsg(m, r.curPhase + 1, r.view.viewNumber) && m.hsNode == r.hsNode
    requires CombineSign(c, r, before + [m]) != NoSign
    requires c.ThresholdSignVerify(SignedBytes(r.curPhase, r.view.viewNumber, r.hsNode), CombineSign(c, r, before + [m]))
    ensures Made(c, r, HandleBMsg(c, WithVotes(r, before), m, 0))
  {
    VoteIsCollected(c, WithVotes(r, before), m);
    hide SignedBytes, Shares, HandleBMsg;
    assert Names(c, Certificate(r.curPhase, m, CombineSign(c, r, before + [m])), r.curPhase, r.view.viewNumber, r.hsNode);
    hide Names;
  }

  lemma SharesCombine(c: Crypto, r: Replica, votes: seq<Msg>)
    requires c.Sound() && c.Complete() && c.DistinctShares(SignedBytes(r.curPhase, r.view.viewNumber, r.hsNode), Shares(votes))
    ensures CombineSign(c, r, votes) != NoSign
    ensures c.ThresholdSignVerify(SignedBytes(r.curPhase, r.view.viewNumber, r.hsNode), CombineSign(c, r, votes))
  {
    hide SignedBytes, Shares;
    var content := SignedBytes(r.curPhase, r.view.viewNumber, r.hsNode);
    assert c.RecoversFrom(c.combineSig(content, Shares(votes)), content, Shares(votes));
  }

  // Valid shares of different signers, as many as a quorum needs, combine.
  lemma QuorumCombines(c: Crypto, r: Replica, votes: seq<Msg>)
    requires c.Sound() && c.Complete() && Collects(r.curPhase, r) && |votes| == VoteBound(r.view.nodesNum) + 1
    requires forall m <- votes :: MatchingMsg(m, r.curPhase + 1, r.view.viewNumber) && m.hsNode == r.hsNode
    requires c.DistinctShares(SignedBytes(r.curPhase, r.view.viewNumber, r.hsNode), Shares(votes))
    ensures Made(c, r, CollectAll(c, r, votes))
  {
    var n := |votes| - 1;
    SharesCombine(c, r, votes);
    assert votes[..n] + [votes[n]] == votes && votes[n] in votes;
    LastVoteMakes(c, r, votes[..n], votes[n]);
    hide Made, HandleBMsg, SignedBytes, Shares, Crypto.Sound, Crypto.Complete, Crypto.DistinctShares;
    forall m | m in votes[..n] ensures MatchingMsg(m, r.curPhase + 1, r.view.viewNumber) {
      assert m in votes;
    }
    TooFewVotes(c, r, votes[..n]);
  }

  /* The round trip */

  // What a replica must be like to act on the leader's next message.
  predicate ActsAfter(t: StateType, v: int, r: Replica) {
    && r.view.viewNumber == v && r.view.nodesNum > 0
    && (t == PREPARE ==> !r.IsLeader() && (r.curPhase == PREPARE || r.curPhase == NEW_VIEW))
    && (t == PRE_COMMIT ==> !r.IsLeader() && r.curPhase == PRE_COMMIT)
    && (t == COMMIT ==> r.curPhase == COMMIT)
  }

  lemma QuorumShares(c: Crypto, t: StateType, v: int, m: Msg, voters: seq<Replica>)
    requires AllVote(c, t, v, m, voters) && |voters| == c.threshold
    ensures var votes := VotesOn(c, t, v, m, voters);
      && (forall vote <- votes :: MatchingMsg(vote, t + 1, v) && vote.hsNode == AskedNode(t, m))
      && c.DistinctShares(SignedBytes(t, v, AskedNode(t, m)), Shares(votes))
  {
    hide HandleBMsg, SignedBytes;
    var votes := VotesOn(c, t, v, m, voters);
    forall i | 0 <= i < |votes|
      ensures MatchingMsg(votes[i], t + 1, v) && votes[i].hsNode == AskedNode(t, m)
      ensures Shares(votes)[i] == Share(voters[i].consId, SignedBytes(t, v, AskedNode(t, m)))
    {
      VoteIsSent(c, t, voters[i], m);
    }
  }

  // A replica acts on the leader's next message.
  lemma NextIsActedOn(c: Crypto, t: StateType, v: int, node: HsNode, r: Replica, next: Msg)
    requires VoteType(t) && ActsAfter(t, v, r) && next.mType == t + 2 && next.viewNumber == v && Names(c, next.justify, t, v, node)
    ensures HandleBMsg(c, r, next, 0).1.Some?
  {
    hide SignedBytes, Block.Hash;
  }

  // In each voting phase: 2f+1 different replicas answer the leader's message, the leader gets
  // their votes in any order, and its next message is acted on by every replica that is in the
  // view and the right phase.
  lemma VotesMakeValidCertificate(c: Crypto, t: StateType, leader: Replica, m: Msg, voters: seq<Replica>)
    requires c.Sound() && c.Complete() && |voters| == c.threshold == VoteBound(leader.view.nodesNum) + 1
    requires Collects(t, leader) && AllVote(c, t, leader.view.viewNumber, m, voters) && AskedNode(t, m) == leader.hsNode
    ensures var out := CollectAll(c, leader, VotesOn(c, t, leader.view.viewNumber, m, voters)).1;
      && out.Some? && Names(c, out.value.justify, t, leader.view.viewNumber, leader.hsNode)
      && forall r :: ActsAfter(t, leader.view.viewNumber, r) ==> HandleBMsg(c, r, out.value, 0).1.Some?
  {
    var v := leader.view.viewNumber;
    QuorumShares(c, t, v, m, voters);
    QuorumCombines(c, leader, VotesOn(c, t, v, m, voters));
    hide CollectAll, VotesOn, AllVote, HandleBMsg, Names, ActsAfter;
    var next := CollectAll(c, leader, VotesOn(c, t, v, m, voters)).1.value;
    forall r | ActsAfter(t, v, r) ensures HandleBMsg(c, r, next, 0).1.Some? {
      NextIsActedOn(c, t, v, leader.hsNode, r, next);
    }
  }

  // The voters of one phase vote in the next one.
  lemma VotersVoteNext(c: Crypto, t: StateType, v: int, m: Msg, voters: seq<Replica>, next: Msg)
    requires AllVote(c, t, v, m, voters) && (t == PREPARE || t == PRE_COMMIT) && next.mType == t + 2 && next.viewNumber == v
    requires Names(c, next.justify, t, v, AskedNode(t, m))
    ensures AllVote(c, t + 2, v, next, AfterVoting(c, t, v, m, voters))
    ensures forall i :: 0 <= i < |voters| ==> VotedOn(c, t, voters[i], m, AfterVoting(c, t, v, m, voters)[i])
  {
    var after := AfterVoting(c, t, v, m, voters);
    hide HandleBMsg, Names;
    forall i | 0 <= i < |voters|
      ensures VotedOn(c, t, voters[i], m, after[i]) && after[i].consId == voters[i].consId && after[i].view == voters[i].view
      ensures HandleBMsg(c, after[i], next, 0).1.Some?
    {
      VoteIsSent(c, t, voters[i], m);
      NextIsActedOn(c, t, v, AskedNode(t, m), after[i], next);
    }
  }

  // A replica that went through the three phases of view v for the node of proposal.
  ghost predicate WentThrough(c: Crypto, v: int, proposal: Msg, voter: Replica, r: Replica) {
    && r.consId == voter.consId && r.view == voter.view && r.curPhase == COMMIT && r.viewChangeSendFlag == voter.viewChangeSendFlag
    && r.curRoundMsg != [] && r.curRoundMsg[|r.curRoundMsg| - 1].viewNumber == v && !r.curProposal.IsEmpty()
    && r.curProposal == (if voter.curProposal.IsEmpty() then proposal.proposal else voter.curProposal)
    && r.blkStore == voter.blkStore.(curProposalBlk := proposal.block, curBlkHash := proposal.block.Hash(c.sum))
    && Names(c, r.prepareQC, PREPARE, v, proposal.hsNode) && Names(c, r.lockedQC, PRE_COMMIT, v, proposal.hsNode)
  }

  // A replica that decided: it stored the block under the certificate, is locked on the node, and
  // reports it, with its prepare certificate, to the leader of the next view.
  ghost predicate Decided(c: Crypto, v: int, proposal: Msg, voter: Replica, outcome: Outcome)
    requires voter.view.nodesNum > 0
  {
    var (r1, out) := outcome;
    && r1.consId == voter.consId && r1.view == voter.view.NextView() && r1.curPhase == NEW_VIEW && r1.viewChangeSendFlag == voter.viewChangeSendFlag
    && r1.curProposal == NO_PROPOSAL && r1.lastProposal == (if voter.curProposal.IsEmpty() then proposal.proposal else voter.curProposal)
    && r1.newViewMsgs == r1.prepareVotes == r1.preCommitVotes == r1.commitVotes == []
    && r1.lastRoundMsg != [] && LastRoundView(r1) == v
    && Names(c, r1.prepareQC, PREPARE, v, proposal.hsNode) && Names(c, r1.lockedQC, PRE_COMMIT, v, proposal.hsNode)
    && r1.blkStore.height == voter.blkStore.height + 1 && r1.blkStore.preBlkHash == proposal.block.Hash(c.sum)
    && (exists sign :: r1.blkStore.written == voter.blkStore.written + [proposal.block.WithValidation(sign)]
          && c.ThresholdSignVerify(SignedBytes(COMMIT, v, proposal.hsNode), sign))
    && out.Some? && ReportsNode(c, v + 1, v, proposal.hsNode, out.value) && out.value.sendNode == Some(voter.consId)
    && out.value.reciNode == Node(voter.view.NextView().leader)
  }

  // A new-view message for view w with the prepare certificate of node in view v.
  ghost predicate ReportsNode(c: Crypto, w: int, v: int, node: HsNode, m: Msg) {
    m.mType == NEW_VIEW && m.viewNumber == w && Names(c, m.justify, PREPARE, v, node)
  }

  lemma DecideMoves(c: Crypto, v: int, proposal: Msg, voter: Replica, r: Replica, decide: Msg)
    requires voter.view.nodesNum > 0 && voter.view.viewNumber == v && WentThrough(c, v, proposal, voter, r)
    requires decide.mType == DECIDE && decide.viewNumber == v && Names(c, decide.justify, COMMIT, v, proposal.hsNode)
    ensures Decided(c, v, proposal, voter, HandleBMsg(c, r, decide, 0))
  {
    hide SignedBytes, Block.Hash;
    var r1 := HandleBMsg(c, r, decide, 0).0;
    assert r1.blkStore.written == voter.blkStore.written + [proposal.block.WithValidation(decide.justify.sign)];
  }

  // One view decides: if 2f+1 different replicas vote on the leader's proposal, then all of
  // them go through the three phases on the leader's messages and decide.
  lemma ViewDecides(c: Crypto, leader: Replica, proposal: Msg, voters: seq<Replica>) returns (preCommit: Msg, commit: Msg, decide: Msg, last: seq<Replica>)
    requires c.Sound() && c.Complete() && |voters| == c.threshold == VoteBound(leader.view.nodesNum) + 1
    requires Collects(PREPARE, leader) && leader.preCommitVotes == leader.commitVotes == []
    requires AllVote(c, PREPARE, leader.view.viewNumber, proposal, voters) && proposal.hsNode == leader.hsNode
    ensures var v := leader.view.viewNumber;
      && AllVote(c, PRE_COMMIT, v, preCommit, AfterVoting(c, PREPARE, v, proposal, voters))
      && var second := AfterVoting(c, PREPARE, v, proposal, voters);
      && AllVote(c, COMMIT, v, commit, AfterVoting(c, PRE_COMMIT, v, preCommit, second))
      && last == AfterVoting(c, COMMIT, v, commit, AfterVoting(c, PRE_COMMIT, v, preCommit, second))
    ensures decide.justify.hsNode == proposal.hsNode && |last| == |voters|
    ensures forall i :: 0 <= i < |last| ==>
      voters[i].view.nodesNum > 0 && last[i].view.nodesNum > 0 && Decided(c, leader.view.viewNumber, proposal, voters[i], HandleBMsg(c, last[i], decide, 0))
  {
    hide HandleBMsg, Names, VotedOn;
    var v := leader.view.viewNumber;
    var l1, s1 := Phase(c, PREPARE, leader, proposal, voters);
    preCommit := s1;
    VotersVoteNext(c, PREPARE, v, proposal, voters, preCommit);
    var second := AfterVoting(c, PREPARE, v, proposal, voters);
    var l2, s2 := Phase(c, PRE_COMMIT, l1, preCommit, second);
    commit := s2;
    VotersVoteNext(c, PRE_COMMIT, v, preCommit, second, commit);
    var third := AfterVoting(c, PRE_COMMIT, v, preCommit, second);
    var _, s3 := Phase(c, COMMIT, l2, commit, third);
    decide := s3;
    last := AfterVoting(c, COMMIT, v, commit, third);
    hide Decided, WentThrough;
    forall i | 0 <= i < |last|
      ensures last[i].view.nodesNum > 0 && Decided(c, v, proposal, voters[i], HandleBMsg(c, last[i], decide, 0))
    {
      VoteIsSent(c, COMMIT, third[i], commit);
      ThreeVotesCast(c, v, proposal, voters[i], second[i], preCommit, third[i], commit, last[i]);
      DecideMoves(c, v, proposal, voters[i], last[i], decide);
    }
  }

  lemma ThreeVotesCast(c: Crypto, v: int, proposal: Msg, r: Replica, r1: Replica, preCommit: Msg, r2: Replica, commit: Msg, r3: Replica)
    requires r.view.viewNumber == v && preCommit.justify.hsNode == commit.justify.hsNode == proposal.hsNode
    requires VotedOn(c, PREPARE, r, proposal, r1) && VotedOn(c, PRE_COMMIT, r1, preCommit, r2) && VotedOn(c, COMMIT, r2, commit, r3)
    ensures WentThrough(c, v, proposal, r, r3) && r3.view == r.view
  {
    hide Names, Block.Hash;
  }

  // One phase of the leader: its state after the votes, and its next message.
  lemma Phase(c: Crypto, t: StateType, leader: Replica, m: Msg, voters: seq<Replica>) returns (l1: Replica, next: Msg)
    requires c.Sound() && c.Complete() && |voters| == c.threshold == VoteBound(leader.view.nodesNum) + 1
    requires Collects(t, leader) && AllVote(c, t, leader.view.viewNumber, m, voters) && AskedNode(t, m) == leader.hsNode
    ensures CollectAll(c, leader, VotesOn(c, t, leader.view.viewNumber, m, voters)) == (l1, Some(next))
    ensures next.mType == t + 2 && next.viewNumber == leader.view.viewNumber && l1.view == leader.view && l1.hsNode == leader.hsNode
    ensures next.justify.hsNode == leader.hsNode && Names(c, next.justify, t, leader.view.viewNumber, leader.hsNode)
    ensures t == PREPARE && leader.preCommitVotes == leader.commitVotes == [] ==> Collects(PRE_COMMIT, l1) && l1.commitVotes == []
    ensures t == PRE_COMMIT && leader.commitVotes == [] ==> Collects(COMMIT, l1)
  {
    var v := leader.view.viewNumber;
    QuorumShares(c, t, v, m, voters);
    var votes := VotesOn(c, t, v, m, voters);
    QuorumCombines(c, leader, votes);
    hide CollectAll, VotesOn, AllVote;
    l1, next := CollectAll(c, leader, votes).0, CollectAll(c, leader, votes).1.value;
  }

  /* A vote that names another node */

  // A certificate that a leader forms verifies exactly when the vote that completed it names
  // the leader's view and node; the leader does not check this.
  lemma CertificateVerifiesIffVoteMatches(c: Crypto, r: Replica, m: Msg)
    requires c.Sound() && VoteType(r.curPhase) && CollectVotes(c, r, m).1.Some?
    requires OneByteView(r.view.viewNumber) && OneByteView(m.viewNumber) && DigestNode(r.hsNode) && DigestNode(m.hsNode)
    ensures var qc := CollectVotes(c, r, m).1.value.justify;
      c.ThresholdSignVerify(qc.QC2SignMsgByte(), qc.sign) <==> NamesOwnNode(r, m)
  {
    var votes := if MatchingMsg(m, r.curPhase + 1, r.view.viewNumber) then VotesOf(r) + [m] else VotesOf(r);
    var content := SignedBytes(r.curPhase, r.view.viewNumber, r.hsNode);
    assert c.RecoversFrom(c.combineSig(content, Shares(votes)), content, Shares(votes));
    SignedBytesAgree(r.curPhase, m.viewNumber, m.hsNode, r.curPhase, r.view.viewNumber, r.hsNode);
    if SignedBytes(r.curPhase, m.viewNumber, m.hsNode) == content {
      SignedBytesDetermine(r.curPhase, m.viewNumber, m.hsNode, r.curPhase, r.view.viewNumber, r.hsNode);
    }
  }

  // A leader's lock can end up on a node nobody signed for, when the completing vote names
  // another node: the certificate fails verification but is stored all the same.
  lemma LockOnForeignNode(c: Crypto, r: Replica, m: Msg)
    requires c.Sound() && r.curPhase == PRE_COMMIT && HandlePreCommitVote(c, r, m).1.Some?
    requires OneByteView(r.view.viewNumber) && OneByteView(m.viewNumber) && DigestNode(r.hsNode) && DigestNode(m.hsNode)
    requires m.hsNode != r.hsNode
    ensures var r1 := HandlePreCommitVote(c, r, m).0;
      && r1.lockedQC.hsNode == m.hsNode
      && !c.ThresholdSignVerify(r1.lockedQC.QC2SignMsgByte(), r1.lockedQC.sign)
  {
    CertificateVerifiesIffVoteMatches(c, r, m);
  }
}
