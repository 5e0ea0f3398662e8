/** The second run: a leader's lock moves to the node that a vote names, and agreement fails. */
module HotstuffForeignVote {
  import opened Common
  import opened Blockchain
  import opened HotstuffTypes
  import opened BasicHotstuffSpec
  import opened HotstuffLog
  import opened HotstuffSystem
  import opened HotstuffGuards
  import opened HotstuffRoundTrip
  import opened HotstuffTheorems
  import opened HotstuffUnguarded
  import Merkle

  // All but the guard on pre-commit votes.
  const WITHOUT_OWN_NODE := ALL_GUARDS.(preCommitVote := false)

  /* The steps of a leader */

  function Next(c: Crypto, r: Replica, m: Msg): Replica
    requires r.view.nodesNum > 0
  {
    HandleBMsg(c, r, m, 0).0
  }

  // A leader of the view to come, at its start.
  predicate Opens(r: Replica, v: int) {
    && r.view.viewNumber == v && r.view.nodesNum == 4 && r.IsLeader() && r.curPhase == NEW_VIEW && LastRoundView(r) == v - 1
    && r.newViewMsgs == r.prepareVotes == r.preCommitVotes == [] && r.curProposal == NO_PROPOSAL && !r.viewChangeSendFlag
  }

  lemma Decides(c: Crypto, r: Replica, v: int, qc: QC)
    requires r.view == View(v, LeaderAt(v, 4), 4) && r.curPhase == COMMIT && !r.curProposal.IsEmpty() && !r.viewChangeSendFlag
    requires CheckQC(c, qc, COMMIT, v) && r.consId == LeaderAt(v + 1, 4)
    requires r.curRoundMsg != [] && r.curRoundMsg[|r.curRoundMsg| - 1].viewNumber == v
    ensures var r1 := Next(c, r, LeaderMsg(DECIDE, v, qc));
      && Opens(r1, v + 1) && r1.consId == r.consId
      && r1.blkStore.height == r.blkStore.height + 1 && r1.blkStore.preBlkHash == r.blkStore.curBlkHash
  {
    ModSucc(v, 4);
    hide Block.Hash;
  }

  lemma Gathers(c: Crypto, r: Replica, v: int, m: Msg)
    requires Opens(r, v) && MatchingMsg(m, NEW_VIEW, v) && CheckQC(c, m.justify, PREPARE, v - 1)
    ensures var r1 := Next(c, r, m);
      r1 == r.(newViewMsgs := [m])
      && Next(c, r1, m) == r.(newViewMsgs := [m, m])
      && Next(c, Next(c, r1, m), m) == r.(newViewMsgs := [m, m, m], curPhase := WAITING)
  {
    hide Propose;
    var r1 := r.(newViewMsgs := [m]);
    assert Next(c, r, m) == r1;
    var r2 := r.(newViewMsgs := [m, m]);
    assert Next(c, r1, m) == r2;
    assert Next(c, r2, m) == r.(newViewMsgs := [m, m, m], curPhase := WAITING);
  }

  // The node a leader proposes with this store.
  function ProposedNode(c: Crypto, v: int, height: int, preBlkHash: Bytes, cmd: Bytes, parent: Bytes): HsNode {
    HsNode(NewBlock(c.sum, height, v, 0, preBlkHash, CutOff([cmd], 128)).Hash(c.sum), parent)
  }

  lemma ProposesOnRequest(c: Crypto, r: Replica, v: int, m: Msg, cmd: Bytes)
    requires r.view.viewNumber == v && r.view.Valid() && r.view.nodesNum == 4 && r.curPhase == WAITING && r.newViewMsgs == [m, m, m]
    ensures var r1 := HandleReq(c, r, 0, [], [cmd], [], 0).0;
      && r1.curPhase == PREPARE && r1.view == r.view && r1.consId == r.consId
      && r1.hsNode == ProposedNode(c, v, r.blkStore.height, r.blkStore.preBlkHash, cmd, m.justify.hsNode.curHash)
      && r1.prepareVotes == r.prepareVotes && r1.preCommitVotes == r.preCommitVotes && r1.lockedQC == r.lockedQC
  {
    assert r.newViewMsgs[GetHighQCIndex(r.newViewMsgs)] == m;
    hide GetHighQCIndex, Merkle.MerkleTreeHash, CutOff;
  }

  // A vote with a share of its own for one node, naming another perhaps.
  function VoteMsg(t: StateType, v: int, who: nat, node: HsNode, named: HsNode): Msg
    requires VoteType(t)
  {
    NO_MSG.(mType := t + 1, viewNumber := v, hsNode := named, partialSig := Share(who, SignedBytes(t, v, node)))
  }

  // A leader about to collect the votes of phase t.
  predicate AboutToCollect(r: Replica, t: StateType, v: int, node: HsNode) {
    && r.view.viewNumber == v && r.view.nodesNum == 4 && r.IsLeader() && r.curPhase == t && r.hsNode == node
    && (t == PREPARE ==> r.prepareVotes == r.preCommitVotes == []) && (t == PRE_COMMIT ==> r.preCommitVotes == [])
  }

  lemma FewVotesKept(c: Crypto, r: Replica, t: StateType, v: int, node: HsNode, votes: seq<Msg>, m: Msg)
    requires (t == PREPARE || t == PRE_COMMIT) && AboutToCollect(r, t, v, node) && |votes| < 2 && MatchingMsg(m, t + 1, v)
    ensures Next(c, WithVotes(r, votes), m) == WithVotes(r, votes + [m])
    ensures WithVotes(r, votes).view == r.view && WithVotes(r, votes).hsNode == node
  {
  }

  // The third vote makes the certificate, with the node that it names.
  lemma ThirdVote(c: Crypto, r: Replica, t: StateType, v: int, node: HsNode, i: nat, j: nat, named: HsNode)
    requires c.Complete() && c.threshold == 3 && i < j < 3 && (t == PREPARE || t == PRE_COMMIT) && AboutToCollect(r, t, v, node)
    ensures var r1 := Next(c, WithVotes(r, [VoteMsg(t, v, i, node, node), VoteMsg(t, v, j, node, node)]), VoteMsg(t, v, 3, node, named));
      && r1.view == r.view && r1.consId == r.consId && r1.hsNode == node && r1.curPhase == t + 2
      && (t == PREPARE ==> r1.preCommitVotes == [] && r1.lockedQC == r.lockedQC)
      && (t == PRE_COMMIT ==> r1.lockedQC.viewNumber == v && r1.lockedQC.hsNode == named)
  {
    var votes := [VoteMsg(t, v, i, node, node), VoteMsg(t, v, j, node, node)] + [VoteMsg(t, v, 3, node, named)];
    var content, shares := SignedBytes(t, v, node), Shares(votes);
    assert shares == [Share(i, content), Share(j, content), Share(3, content)];
    hide SignedBytes;
    assert c.DistinctShares(content, shares);
    assert c.combineSig(content, shares) != NoSign;
    hide Crypto.Complete, Crypto.DistinctShares, Shares, VoteMsg;
    assert MatchingMsg(VoteMsg(t, v, 3, node, named), t + 1, v) && VoteMsg(t, v, 3, node, named).hsNode == named by { VoteMsgFields(t, v, 3, node, named); }
    LastVoteHandled(c, WithVotes(r, votes[..2]), t, v, votes[..2], votes[2]);
    assert votes[..2] == [VoteMsg(t, v, i, node, node), VoteMsg(t, v, j, node, node)] && votes[..2] + [votes[2]] == votes;
  }

  lemma VoteMsgFields(t: StateType, v: int, who: nat, node: HsNode, named: HsNode)
    requires VoteType(t)
    ensures MatchingMsg(VoteMsg(t, v, who, node, named), t + 1, v) && VoteMsg(t, v, who, node, named).hsNode == named
  {
  }

  lemma LastVoteHandled(c: Crypto, r: Replica, t: StateType, v: int, votes: seq<Msg>, m: Msg)
    requires (t == PREPARE || t == PRE_COMMIT) && r.curPhase == t && r.IsLeader() && r.view.viewNumber == v && r.view.nodesNum == 4
    requires VotesOf(r) == votes && |votes| == 2 && MatchingMsg(m, t + 1, v)
    requires c.combineSig(SignedBytes(t, v, r.hsNode), Shares(votes + [m])) != NoSign
    ensures var r1 := Next(c, r, m);
      && r1.view == r.view && r1.consId == r.consId && r1.hsNode == r.hsNode && r1.curPhase == t + 2
      && (t == PREPARE ==> r1.preCommitVotes == r.preCommitVotes && r1.lockedQC == r.lockedQC)
      && (t == PRE_COMMIT ==> r1.lockedQC.viewNumber == v && r1.lockedQC.hsNode == m.hsNode)
  {
    hide SignedBytes, Shares;
  }

  /* The same, in a run */

  function Report(qa: QC): Msg {
    NO_MSG.(mType := NEW_VIEW, viewNumber := 2, justify := qa)
  }

  // Replica 2, the leader of view 2, hears new-view messages and waits.
  lemma LeaderHears(cfg: Config, h: History, qa: QC) returns (h': History)
    requires Valid(cfg, h, WITHOUT_OWN_NODE) && Opens(h.Now().replicas[2], 2) && h.Now().replicas[2].consId == 2
    requires Passes(cfg, h.Now(), PREPARE, qa) && qa.viewNumber == 1 && DigestNode(qa.hsNode)
    ensures Valid(cfg, h', WITHOUT_OWN_NODE) && Extends(h, h') && h'.Now().log == h.Now().log
    ensures var (s, s', m) := (h.Now(), h'.Now(), Report(qa));
      s'.replicas == s.replicas[2 := s.replicas[2].(newViewMsgs := [m, m, m], curPhase := WAITING)]
  {
    var r, m := h.Now().replicas[2], Report(qa);
    Gathers(cfg.crypto, r, 2, m);
    assert r.IsLeader() && r.view.nodesNum == 4;
    assert MsgDerivable(h.Now().log, m);
    hide HandleBMsg, GuardedRun, MsgDerivable, Passes;
    var h1 := Tell(cfg, h, WITHOUT_OWN_NODE, 2, m);
    var h2 := Tell(cfg, h1, WITHOUT_OWN_NODE, 2, m);
    h' := Tell(cfg, h2, WITHOUT_OWN_NODE, 2, m);
  }

  // On the request it proposes.
  lemma LeaderStarts(cfg: Config, h: History, a: HsNode, qa: QC, cmd: Bytes, known: map<HsNode, int>) returns (h': History)
    requires Valid(cfg, h, WITHOUT_OWN_NODE) && SignedFor(h.Now().log, known)
    requires Opens(h.Now().replicas[2], 2) && h.Now().replicas[2].consId == 2
    requires Passes(cfg, h.Now(), PREPARE, qa) && qa.viewNumber == 1 && DigestNode(qa.hsNode) && qa.hsNode == a
    ensures Valid(cfg, h', WITHOUT_OWN_NODE) && Extends(h, h') && h'.Now().log == h.Now().log
    ensures var (s, s') := (h.Now(), h'.Now());
      && |s'.replicas| == 4 && s'.replicas[0] == s.replicas[0] && s'.replicas[1] == s.replicas[1]
      && s'.replicas[2].consId == 2 && s'.replicas[2].view == s.replicas[2].view
      && AboutToCollect(s'.replicas[2], PREPARE, 2,
           ProposedNode(cfg.crypto, 2, s.replicas[2].blkStore.height, s.replicas[2].blkStore.preBlkHash, cmd, a.curHash))
  {
    assert h.run != [];
    hide HandleReq, GuardedRun, Passes, SignedFor;
    var h1 := LeaderHears(cfg, h, qa);
    ProposesOnRequest(cfg.crypto, h1.Now().replicas[2], 2, Report(qa), cmd);
    NoShare(h.Now().log);
    hide ProposedNode;
    h' := Extend(cfg, h1, WITHOUT_OWN_NODE, Request(2, 0, [], [cmd], [], 0));
  }

  // What three votes do to the leader.
  lemma ThreeVotes(c: Crypto, r: Replica, t: StateType, v: int, node: HsNode, named: HsNode)
    requires c.Complete() && c.threshold == 3 && (t == PREPARE || t == PRE_COMMIT) && AboutToCollect(r, t, v, node)
    ensures var r1 := Next(c, r, VoteMsg(t, v, 0, node, node));
      && r1.view == r.view && r1.hsNode == node
      && var r2 := Next(c, r1, VoteMsg(t, v, 1, node, node));
      && r2.view == r.view && r2.hsNode == node
      && var r3 := Next(c, r2, VoteMsg(t, v, 3, node, named));
      && r3.view == r.view && r3.consId == r.consId
      && (t == PREPARE ==> AboutToCollect(r3, PRE_COMMIT, v, node))
      && (t == PRE_COMMIT ==> r3.lockedQC.viewNumber == v && r3.lockedQC.hsNode == named)
  {
    var m0, m1 := VoteMsg(t, v, 0, node, node), VoteMsg(t, v, 1, node, node);
    assert WithVotes(r, []) == r && [] + [m0] == [m0] && [m0] + [m1] == [m0, m1];
    hide HandleBMsg, SignedBytes, Crypto.Complete, WithVotes;
    FewVotesKept(c, r, t, v, node, [], m0);
    FewVotesKept(c, r, t, v, node, [m0], m1);
    TwoVotesKept(r, t, v, node, [m0, m1]);
    ThirdVote(c, r, t, v, node, 0, 1, named);
  }

  lemma TwoVotesKept(r: Replica, t: StateType, v: int, node: HsNode, votes: seq<Msg>)
    requires (t == PREPARE || t == PRE_COMMIT) && AboutToCollect(r, t, v, node)
    ensures WithVotes(r, votes).view == r.view && WithVotes(r, votes).hsNode == node
  {
  }

  // Replica 2 collects three votes for its node; the third may name another.
  lemma LeaderCollects(cfg: Config, h: History, t: StateType, node: HsNode, named: HsNode) returns (h': History)
    requires Valid(cfg, h, WITHOUT_OWN_NODE) && cfg.crypto.Complete() && (t == PREPARE || t == PRE_COMMIT) && (t == PREPARE ==> named == node)
    requires AboutToCollect(h.Now().replicas[2], t, 2, node) && h.Now().replicas[2].consId == 2
    requires {0, 1, 3} <= Signers(h.Now().log, SignedBytes(t, 2, node))
    ensures Valid(cfg, h', WITHOUT_OWN_NODE) && Extends(h, h') && h'.Now().log == h.Now().log
    ensures var (s, s') := (h.Now(), h'.Now());
      && |s'.replicas| == 4 && s'.replicas[0] == s.replicas[0] && s'.replicas[1] == s.replicas[1]
      && s'.replicas[2].consId == 2 && s'.replicas[2].view == s.replicas[2].view
      && (t == PREPARE ==> AboutToCollect(s'.replicas[2], PRE_COMMIT, 2, node))
      && (t == PRE_COMMIT ==> s'.replicas[2].lockedQC.viewNumber == 2 && s'.replicas[2].lockedQC.hsNode == named)
  {
    var g, m0, m1, m2 := WITHOUT_OWN_NODE, VoteMsg(t, 2, 0, node, node), VoteMsg(t, 2, 1, node, node), VoteMsg(t, 2, 3, node, named);
    ThreeVotes(cfg.crypto, h.Now().replicas[2], t, 2, node, named);
    assert 0 in {0, 1, 3} && 1 in {0, 1, 3} && 3 in {0, 1, 3};
    hide HandleBMsg, SignedBytes, GuardedRun, Completes, Signers, AboutToCollect, Crypto.Complete;
    var h1 := Tell(cfg, h, g, 2, m0);
    var h2 := Tell(cfg, h1, g, 2, m1);
    h' := Tell(cfg, h2, g, 2, m2);
  }

  /* The run */

  // A replica in view 0 or 1 that never led nor locked.
  predicate Fresh(r: Replica, i: nat, v: int) {
    && Waits(r, i, v) && r.lockedQC.viewNumber == -1 && !r.viewChangeSendFlag && r.blkStore.height == 0
    && (i == 2 ==> r.newViewMsgs == r.prepareVotes == r.preCommitVotes == [])
  }

  // All replicas are in view 1, and x has a prepare certificate of view 0.
  ghost predicate AtViewOne(cfg: Config, s: System, x: HsNode, known: map<HsNode, int>) {
    && SignedFor(s.log, known) && Passes(cfg, s, PREPARE, Cert(PREPARE, 0, x, 1, 2))
    && |s.replicas| == 4 && Fresh(s.replicas[0], 0, 1) && Fresh(s.replicas[1], 1, 1) && Fresh(s.replicas[2], 2, 1)
  }

  // All replicas are in view 2, and a was committed in view 1; only replica 1 is not locked on it.
  ghost predicate AtViewTwo(cfg: Config, s: System, a: HsNode, known: map<HsNode, int>) {
    && SignedFor(s.log, known) && |s.replicas| == 4
    && Passes(cfg, s, PREPARE, Cert(PREPARE, 1, a, 0, 2)) && Passes(cfg, s, COMMIT, Cert(COMMIT, 1, a, 0, 2))
    && Waits(s.replicas[0], 0, 2) && s.replicas[0].lockedQC.viewNumber == 1 && s.replicas[0].lockedQC.hsNode == a
    && Waits(s.replicas[1], 1, 2) && s.replicas[1].lockedQC.viewNumber == -1
    && s.replicas[2].consId == 2 && s.replicas[2].view == View(2, 2, 4) && Opens(s.replicas[2], 2)
    && s.replicas[2].blkStore.height == 1 && s.replicas[2].blkStore.preBlkHash == EMPTY_BLOCK.Hash(cfg.crypto.sum)
  }

  // Replicas 1 and 2 are in view 3; replica 1 has no lock, and that of replica 2 is on x.
  ghost predicate AtViewThree(s: System, x: HsNode, known: map<HsNode, int>) {
    && SignedFor(s.log, known) && |s.replicas| == 4
    && Waits(s.replicas[1], 1, 3) && s.replicas[1].lockedQC.viewNumber == -1
    && Waits(s.replicas[2], 2, 3) && s.replicas[2].lockedQC.hsNode == x
  }

  lemma AllTimeOut(cfg: Config, h: History, known: map<HsNode, int>) returns (h': History)
    requires Valid(cfg, h, WITHOUT_OWN_NODE) && SignedFor(h.Now().log, known)
    requires forall i :: 0 <= i < 3 ==> var r := h.Now().replicas[i];
      && r.consId == i && r.view == View(0, 0, 4) && r.lockedQC.viewNumber == -1 && !r.viewChangeSendFlag && r.blkStore.height == 0
      && (i == 2 ==> r.newViewMsgs == r.prepareVotes == r.preCommitVotes == [])
    ensures Valid(cfg, h', WITHOUT_OWN_NODE) && SignedFor(h'.Now().log, known) && h.Now().log <= h'.Now().log
    ensures |h'.Now().replicas| == 4 && forall i :: 0 <= i < 3 ==> Fresh(h'.Now().replicas[i], i, 1)
  {
    var g, s := WITHOUT_OWN_NODE, h.Now();
    TimedOut(cfg.crypto, s.replicas[0], 0, 0);
    TimedOut(cfg.crypto, s.replicas[1], 1, 0);
    TimedOut(cfg.crypto, s.replicas[2], 2, 0);
    hide StartViewChange, SignedFor, GuardedRun;
    var h1 := TimeOut(cfg, h, g, 0, known);
    var h2 := TimeOut(cfg, h1, g, 1, known);
    h' := TimeOut(cfg, h2, g, 2, known);
  }

  // View 0: node x gets a prepare certificate, and all go on to view 1.
  lemma ViewZero(cfg: Config, x: HsNode, cmd: Bytes, known: map<HsNode, int>) returns (h: History)
    requires cfg.Valid() && cfg.f == 1 && cfg.faulty == {3} && DigestNode(x) && x in known && known[x] == 0
    ensures Valid(cfg, h, WITHOUT_OWN_NODE) && AtViewOne(cfg, h.Now(), x, known)
  {
    var g, m, qx := WITHOUT_OWN_NODE, Ask1(0, x, NO_QC, cmd), Cert(PREPARE, 0, x, 1, 2);
    h := Start(cfg, g);
    var r0 := h.Now().replicas[0];
    hide Passes, Valid, WillAnswer, Signers, SignedBytes;
    AnswersProposal(cfg, h.Now(), g, 0, 1, m);
    AnswersProposal(cfg, h.Now(), g, 0, 2, m);
    assert AskedNode(PREPARE, m) == x;
    var h1 := Round(cfg, h, g, PREPARE, 0, m, 1, 2, known);
    var s1 := h1.Now();
    assert s1.replicas[0] == r0;
    hide Answered, SignedFor;
    h := AllTimeOut(cfg, h1, known);
    StaysVerified(cfg, s1.log, h.Now(), PREPARE, qx, s1);
  }

  // Replicas 0 and 2 voted for all of a in view 1, and replica 2 has not decided yet.
  ghost predicate Committed(cfg: Config, s: System, a: HsNode, known: map<HsNode, int>) {
    && SignedFor(s.log, known) && |s.replicas| == 4
    && Passes(cfg, s, PREPARE, Cert(PREPARE, 1, a, 0, 2)) && Passes(cfg, s, COMMIT, Cert(COMMIT, 1, a, 0, 2))
    && s.replicas[0].consId == 0 && s.replicas[0].view == View(1, 1, 4) && s.replicas[0].lockedQC.viewNumber == 1 && s.replicas[0].lockedQC.hsNode == a
    && Waits(s.replicas[1], 1, 1) && s.replicas[1].lockedQC.viewNumber == -1
    && var r := s.replicas[2];
      && r.consId == 2 && r.view == View(1, 1, 4) && r.curPhase == COMMIT && !r.curProposal.IsEmpty() && !r.viewChangeSendFlag
      && r.curRoundMsg != [] && r.curRoundMsg[|r.curRoundMsg| - 1].viewNumber == 1
      && r.blkStore.height == 0 && r.blkStore.curBlkHash == EMPTY_BLOCK.Hash(cfg.crypto.sum)
  }

  // Replica 2 decides and opens view 2, the others get there by timeouts.
  lemma OpenViewTwo(cfg: Config, h: History, a: HsNode, known: map<HsNode, int>) returns (h': History)
    requires Valid(cfg, h, WITHOUT_OWN_NODE) && Committed(cfg, h.Now(), a, known)
    ensures Valid(cfg, h', WITHOUT_OWN_NODE) && h.Now().log <= h'.Now().log && AtViewTwo(cfg, h'.Now(), a, known)
  {
    var g, s1, c, qa, qd := WITHOUT_OWN_NODE, h.Now(), cfg.crypto, Cert(PREPARE, 1, a, 0, 2), Cert(COMMIT, 1, a, 0, 2);
    hide Valid, SignedBytes, Block.Hash, HandleBMsg;
    Decides(c, s1.replicas[2], 1, qd);
    assert MsgDerivable(s1.log, LeaderMsg(DECIDE, 1, qd));
    var h2 := Tell(cfg, h, g, 2, LeaderMsg(DECIDE, 1, qd));
    var s2 := h2.Now();
    TimedOut(c, s2.replicas[0], 0, 1);
    TimedOut(c, s2.replicas[1], 1, 1);
    hide StartViewChange, SignedFor, Passes, Derivable;
    var h3 := TimeOut(cfg, h2, g, 0, known);
    h' := TimeOut(cfg, h3, g, 1, known);
    StaysVerified(cfg, s1.log, h'.Now(), PREPARE, qa, s1);
    StaysVerified(cfg, s1.log, h'.Now(), COMMIT, qd, s1);
  }

  // View 1: replicas 0 and 2 commit a, a child of x.
  lemma ViewOne(cfg: Config, h: History, x: HsNode, a: HsNode, cmd: Bytes, known: map<HsNode, int>) returns (h': History)
    requires Valid(cfg, h, WITHOUT_OWN_NODE) && AtViewOne(cfg, h.Now(), x, known)
    requires DigestNode(x) && DigestNode(a) && a in known && known[a] == 1 && a.parentHash == x.curHash
    ensures Valid(cfg, h', WITHOUT_OWN_NODE) && h.Now().log <= h'.Now().log && AtViewTwo(cfg, h'.Now(), a, known)
  {
    var g, m, s, c := WITHOUT_OWN_NODE, Ask1(1, a, Cert(PREPARE, 0, x, 1, 2), cmd), h.Now(), cfg.crypto;
    assert Derivable(s.log, m.justify.sign) && GenuineJustify(c, m);
    hide Valid, WillAnswer, Signers, SignedBytes, Block.Hash;
    AnswersProposal(cfg, s, g, 1, 0, m);
    AnswersProposal(cfg, s, g, 1, 2, m);
    hide HandleBMsg, HandlePrepare;
    var h1 := ThreePhases(cfg, h, g, 1, m, 0, 2, known);
    h' := OpenViewTwo(cfg, h1, a, known);
  }

  // View 2: its leader proposes a child of a, forms both certificates, and the last of the
  // pre-commit votes names x: the leader's lock moves to x.
  lemma ViewTwo(cfg: Config, h: History, x: HsNode, a: HsNode, cmd: Bytes, node: HsNode, known: map<HsNode, int>) returns (h': History)
    requires Valid(cfg, h, WITHOUT_OWN_NODE) && cfg.crypto.Complete() && AtViewTwo(cfg, h.Now(), a, known)
    requires DigestNode(a) && node in known && known[node] == 2
    requires node == ProposedNode(cfg.crypto, 2, 1, EMPTY_BLOCK.Hash(cfg.crypto.sum), cmd, a.curHash)
    ensures Valid(cfg, h', WITHOUT_OWN_NODE) && h.Now().log <= h'.Now().log && AtViewThree(h'.Now(), x, known)
  {
    assert cfg.crypto.Sound() && DigestNode(node);
    hide Valid, SignedBytes, AtViewTwo, ProposedNode, Crypto.Complete, Crypto.Sound, AtViewThree, Waits;
    var h1 := ViewTwoPrepared(cfg, h, a, cmd, node, known);
    hide Preparing;
    h' := ViewTwoLocked(cfg, h1, x, node, known);
  }

  // Replicas 0 and 1 voted prepare in view 2, and its leader sent the certificate.
  ghost predicate Preparing(cfg: Config, s: System, node: HsNode, known: map<HsNode, int>) {
    && SignedFor(s.log, known) && |s.replicas| == 4
    && WillAnswer(cfg, s, WITHOUT_OWN_NODE, PRE_COMMIT, 2, 0, LeaderMsg(PRE_COMMIT, 2, Cert(PREPARE, 2, node, 0, 1)))
    && WillAnswer(cfg, s, WITHOUT_OWN_NODE, PRE_COMMIT, 2, 1, LeaderMsg(PRE_COMMIT, 2, Cert(PREPARE, 2, node, 0, 1)))
    && AboutToCollect(s.replicas[2], PRE_COMMIT, 2, node)
    && s.replicas[1].consId == 1 && s.replicas[1].view == View(2, 2, 4) && s.replicas[1].lockedQC.viewNumber == -1
    && s.replicas[2].consId == 2 && s.replicas[2].view == View(2, 2, 4)
  }

  lemma ViewTwoPrepared(cfg: Config, h: History, a: HsNode, cmd: Bytes, node: HsNode, known: map<HsNode, int>) returns (h': History)
    requires Valid(cfg, h, WITHOUT_OWN_NODE) && cfg.crypto.Complete() && AtViewTwo(cfg, h.Now(), a, known)
    requires DigestNode(a) && DigestNode(node) && node in known && known[node] == 2
    requires node == ProposedNode(cfg.crypto, 2, 1, EMPTY_BLOCK.Hash(cfg.crypto.sum), cmd, a.curHash)
    ensures Valid(cfg, h', WITHOUT_OWN_NODE) && h.Now().log <= h'.Now().log && Preparing(cfg, h'.Now(), node, known)
  {
    var g, c, qa := WITHOUT_OWN_NODE, cfg.crypto, Cert(PREPARE, 1, a, 0, 2);
    var m := Ask1(2, node, qa, cmd);
    hide Valid, WillAnswer, Signers, SignedBytes, Block.Hash, HandleBMsg, Crypto.Complete, Crypto.Sound;
    var h1 := LeaderStarts(cfg, h, a, qa, cmd, known);
    assert Derivable(h1.Now().log, qa.sign) && GenuineJustify(c, m) && node.parentHash == a.curHash;
    hide HandlePrepare, ProposedNode, Derivable, GenuineJustify, SignedFor, Passes, AboutToCollect, Opens;
    AnswersProposal(cfg, h1.Now(), g, 2, 0, m);
    AnswersProposal(cfg, h1.Now(), g, 2, 1, m);
    assert AskedNode(PREPARE, m) == node;
    var h2 := Round(cfg, h1, g, PREPARE, 2, m, 0, 1, known);
    h' := LeaderCollects(cfg, h2, PREPARE, node, node);
    LockInTwo(cfg, h1.Now(), h2.Now(), h'.Now(), m, node);
  }

  lemma ViewTwoLocked(cfg: Config, h: History, x: HsNode, node: HsNode, known: map<HsNode, int>) returns (h': History)
    requires Valid(cfg, h, WITHOUT_OWN_NODE) && cfg.crypto.Complete() && Preparing(cfg, h.Now(), node, known)
    requires DigestNode(node) && node in known && known[node] == 2
    ensures Valid(cfg, h', WITHOUT_OWN_NODE) && h.Now().log <= h'.Now().log && AtViewThree(h'.Now(), x, known)
  {
    var g := WITHOUT_OWN_NODE;
    assert AskedNode(PRE_COMMIT, LeaderMsg(PRE_COMMIT, 2, Cert(PREPARE, 2, node, 0, 1))) == node;
    hide Valid, WillAnswer, Signers, SignedBytes, Passes, SignedFor, AboutToCollect, Crypto.Complete, Crypto.Sound;
    var h1 := Round(cfg, h, g, PRE_COMMIT, 2, LeaderMsg(PRE_COMMIT, 2, Cert(PREPARE, 2, node, 0, 1)), 0, 1, known);
    var h2 := LeaderCollects(cfg, h1, PRE_COMMIT, node, x);
    TimedOut(cfg.crypto, h2.Now().replicas[1], 1, 2);
    TimedOut(cfg.crypto, h2.Now().replicas[2], 2, 2);
    hide StartViewChange, Answered;
    var h3 := TimeOut(cfg, h2, g, 1, known);
    h' := TimeOut(cfg, h3, g, 2, known);
  }

  // Replicas 0 and 1 answer the prepare certificate of view 2.
  lemma LockInTwo(cfg: Config, s1: System, s2: System, s3: System, m: Msg, node: HsNode)
    requires |s1.replicas| == |s2.replicas| == |s3.replicas| == 4 && s3.log == s2.log && DigestNode(node)
    requires Waits(s1.replicas[0], 0, 2) && Waits(s1.replicas[1], 1, 2)
    requires s3.replicas[0] == s2.replicas[0] && s3.replicas[1] == s2.replicas[1]
    requires Answered(cfg.crypto, PREPARE, s1.replicas[0], s2.replicas[0], m) && Answered(cfg.crypto, PREPARE, s1.replicas[1], s2.replicas[1], m)
    requires Passes(cfg, s2, PREPARE, Cert(PREPARE, 2, node, 0, 1))
    ensures var m2 := LeaderMsg(PRE_COMMIT, 2, Cert(PREPARE, 2, node, 0, 1));
      && WillAnswer(cfg, s3, WITHOUT_OWN_NODE, PRE_COMMIT, 2, 0, m2) && WillAnswer(cfg, s3, WITHOUT_OWN_NODE, PRE_COMMIT, 2, 1, m2)
      && AskedNode(PRE_COMMIT, m2) == node
  {
    StaysVerified(cfg, s2.log, s3, PREPARE, Cert(PREPARE, 2, node, 0, 1), s2);
    hide Passes, WillAnswer, SignedBytes;
    AnswersNext(cfg, s3, WITHOUT_OWN_NODE, PRE_COMMIT, 2, 0, Cert(PREPARE, 2, node, 0, 1));
    AnswersNext(cfg, s3, WITHOUT_OWN_NODE, PRE_COMMIT, 2, 1, Cert(PREPARE, 2, node, 0, 1));
  }

  // Replicas 0 and 2 commit a in view 1. In view 2 replica 2 leads, and a vote that names x moves
  // its lock to x, the parent of a. In view 3 replicas 1 and 2 commit b, another child of x, on
  // the genuine certificate for x. All guards but that on pre-commit votes are kept, both commit
  // certificates verify in the end, and no branch joins their nodes.
  lemma AgreementNeedsOwnNode(cfg: Config, x: HsNode, a: HsNode, b: HsNode, cmd: Bytes) returns (h: History)
    requires cfg.Valid() && cfg.f == 1 && cfg.faulty == {3} && cfg.crypto.Complete()
    requires DigestNode(x) && DigestNode(a) && DigestNode(b) && a != b && a.parentHash == b.parentHash == x.curHash
    requires x.curHash != a.curHash && x.curHash != b.curHash
    requires x.curHash != ProposedNode(cfg.crypto, 2, 1, EMPTY_BLOCK.Hash(cfg.crypto.sum), cmd, a.curHash).curHash
    ensures GuardedRun(cfg, WITHOUT_OWN_NODE, h.run, h.acts)
    ensures var (s, qa, qb) := (h.Now(), Cert(COMMIT, 1, a, 0, 2), Cert(COMMIT, 3, b, 1, 2));
      Verifies(cfg, s, COMMIT, qa) && Verifies(cfg, s, COMMIT, qb) && forall path :: !Branch(cfg, s.log, path, Link(3, b), Link(1, a))
  {
    var g, qx := WITHOUT_OWN_NODE, Cert(PREPARE, 0, x, 1, 2);
    var node := ProposedNode(cfg.crypto, 2, 1, EMPTY_BLOCK.Hash(cfg.crypto.sum), cmd, a.curHash);
    var known := map[x := 0, a := 1, node := 2, b := 3];
    KnownNodes(cfg.crypto, x, a, b, node, known);
    assert x in known && known[x] == 0 && a in known && known[a] == 1 && node in known && known[node] == 2 && b in known && known[b] == 3;
    hide ProposedNode, GuardedRun, Valid, Passes, WillAnswer, SignedFor, Branch, AtViewOne, AtViewTwo;
    var h0 := ViewZero(cfg, x, cmd, known);
    var h1 := ViewOne(cfg, h0, x, a, cmd, known);
    var h2 := ViewTwo(cfg, h1, x, a, cmd, node, known);
    assert Passes(cfg, h0.Now(), PREPARE, qx) by { CertOfViewZero(cfg, h0.Now(), x, known); }
    assert Passes(cfg, h1.Now(), COMMIT, Cert(COMMIT, 1, a, 0, 2)) by { CertOfViewOne(cfg, h1.Now(), a, known); }
    StaysVerified(cfg, h0.Now().log, h2.Now(), PREPARE, qx, h0.Now());
    BothAccept(cfg, h2.Now(), x, b, cmd, known);
    h := ThreePhases(cfg, h2, g, 3, Ask1(3, b, qx, cmd), 1, 2, known);
    hide AtViewThree;
    StaysVerified(cfg, h1.Now().log, h.Now(), COMMIT, Cert(COMMIT, 1, a, 0, 2), h1.Now());
    NoBranches(cfg, h.Now().log, known, 1, a, 3, b);
    ValidMeans(cfg, h, g);
  }

  lemma CertOfViewZero(cfg: Config, s: System, x: HsNode, known: map<HsNode, int>)
    requires AtViewOne(cfg, s, x, known)
    ensures Passes(cfg, s, PREPARE, Cert(PREPARE, 0, x, 1, 2))
  {
  }

  lemma CertOfViewOne(cfg: Config, s: System, a: HsNode, known: map<HsNode, int>)
    requires AtViewTwo(cfg, s, a, known)
    ensures Passes(cfg, s, COMMIT, Cert(COMMIT, 1, a, 0, 2))
  {
  }

  // The four nodes differ, and only x has the hash of b's parent.
  lemma KnownNodes(c: Crypto, x: HsNode, a: HsNode, b: HsNode, node: HsNode, known: map<HsNode, int>)
    requires c.Sound() && DigestNode(x) && DigestNode(a) && DigestNode(b) && DigestNode(node)
    requires a != b && a.parentHash == b.parentHash == x.curHash && node.parentHash == a.curHash
    requires x.curHash != a.curHash && x.curHash != b.curHash && x.curHash != node.curHash
    requires known == map[x := 0, a := 1, node := 2, b := 3]
    ensures known[x] == 0 && known[a] == 1 && known[node] == 2 && known[b] == 3
    ensures forall k <- known :: DigestNode(k) && OneByteView(known[k])
    ensures forall k <- known :: k.curHash == b.parentHash ==> k != a && known[k] <= 1
  {
  }

  // Replica 1 never locked, and the lock of replica 2 names b's parent.
  lemma BothAccept(cfg: Config, s: System, x: HsNode, b: HsNode, cmd: Bytes, known: map<HsNode, int>)
    requires AtViewThree(s, x, known) && DigestNode(x) && DigestNode(b) && b.parentHash == x.curHash
    requires Passes(cfg, s, PREPARE, Cert(PREPARE, 0, x, 1, 2))
    ensures var m := Ask1(3, b, Cert(PREPARE, 0, x, 1, 2), cmd);
      WillAnswer(cfg, s, WITHOUT_OWN_NODE, PREPARE, 3, 1, m) && WillAnswer(cfg, s, WITHOUT_OWN_NODE, PREPARE, 3, 2, m)
  {
    var m := Ask1(3, b, Cert(PREPARE, 0, x, 1, 2), cmd);
    assert GenuineJustify(cfg.crypto, m) && Derivable(s.log, m.justify.sign);
    hide Passes, WillAnswer, SignedBytes, HandlePrepare, SignedFor;
    AnswersProposal(cfg, s, WITHOUT_OWN_NODE, 3, 1, m);
    AnswersProposal(cfg, s, WITHOUT_OWN_NODE, 3, 2, m);
  }
}
