/** Guards: what the handlers take on trust, each a condition on a message and the replica that
    is to handle it; and what a run keeps that keeps some of them. */
module HotstuffGuards {
  import opened Common
  import opened Blockchain
  import opened HotstuffTypes
  import opened BasicHotstuffSpec
  import Merkle
  import opened HotstuffLog
  import opened HotstuffSystem

  /* The guards */

  // Which of them a run keeps.
  datatype Guards = Guards(bounds: bool, justify: bool, prepareVote: bool, preCommitVote: bool, newView: bool)

  const ALL_GUARDS := Guards(true, true, true, true, true)

  predicate InRange(qc: QC) {
    OneByteView(qc.viewNumber) && DigestNode(qc.hsNode)
  }

  // A vote signs the view as one byte and joins the two hashes of its node, so it means what
  // it says only within these bounds.
  predicate InBounds(c: Crypto, r: Replica, m: Msg) {
    var v := r.view.viewNumber;
    && (MatchingMsg(m, PREPARE, v) ==> OneByteView(v) && DigestNode(m.hsNode))
    && (m.mType == PRE_COMMIT && CheckQC(c, m.justify, PREPARE, v) ==> InRange(m.justify))
    && (m.mType == COMMIT && CheckQC(c, m.justify, PRE_COMMIT, v) ==> InRange(m.justify))
    && (m.mType == PREPARE_VOTE || m.mType == PRE_COMMIT_VOTE ==> OneByteView(v))
  }

  predicate GenuineJustify(c: Crypto, m: Msg) {
    VoteType(m.justify.qType) && InRange(m.justify) && c.ThresholdSignVerify(m.justify.QC2SignMsgByte(), m.justify.sign)
  }

  // A replica that is to vote on m may do so only because the certificate that m extends
  // claims a view above the lock; HandlePrepare does not verify that certificate.
  predicate LeavesLock(r: Replica, m: Msg) {
    && r.view.viewNumber > 0 && r.curPhase == NEW_VIEW && !r.IsLeader()
    && MatchingMsg(m, PREPARE, r.view.viewNumber) && VerifyReqs(m.proposal.commands)
    && CheckNewHsNode(r, m) && m.hsNode.parentHash != r.lockedQC.hsNode.curHash
  }

  // m completes the votes a leader collects in phase t: enough of them, and they combine.
  predicate Completes(c: Crypto, r: Replica, m: Msg, t: StateType, votes: seq<Msg>)
    requires t == PREPARE || t == PRE_COMMIT
  {
    m.mType == t + 1 && r.curPhase == t && r.IsLeader() &&
    var all := if MatchingMsg(m, t + 1, r.view.viewNumber) then votes + [m] else votes;
    |all| > VoteBound(r.view.nodesNum) && CombineSign(c, r, all) != NoSign
  }

  // A leader takes view and node of a new certificate from the vote that completes it.
  predicate NamesOwnNode(r: Replica, m: Msg) {
    m.viewNumber == r.view.viewNumber && m.hsNode == r.hsNode
  }

  // m is a new-view message of r's view with a certificate that verifies.
  predicate Reports(c: Crypto, r: Replica, m: Msg) {
    MatchingMsg(m, NEW_VIEW, r.view.viewNumber) && CheckQC(c, m.justify, PREPARE, LastRoundView(r))
  }

  predicate Kept(g: Guards, c: Crypto, r: Replica, m: Msg) {
    && (g.bounds ==> InBounds(c, r, m))
    && (g.justify && LeavesLock(r, m) ==> GenuineJustify(c, m))
    && (g.prepareVote && Completes(c, r, m, PREPARE, r.prepareVotes) ==> NamesOwnNode(r, m))
    && (g.preCommitVote && Completes(c, r, m, PRE_COMMIT, r.preCommitVotes) ==> NamesOwnNode(r, m))
    && (g.newView && Reports(c, r, m) ==> InRange(m.justify))
  }

  predicate Guarded(cfg: Config, g: Guards, s: System, a: Action) {
    a.Deliver? && a.i < |s.replicas| ==> Kept(g, cfg.crypto, s.replicas[a.i], a.m)
  }

  ghost predicate GuardedRun(cfg: Config, g: Guards, run: seq<System>, acts: seq<Action>) {
    Run(cfg, run, acts) && forall k :: 0 <= k < |acts| ==> Guarded(cfg, g, run[k], acts[k])
  }

  /* What each guard is good for */

  ghost predicate Backed(g: Guards, cfg: Config, log: Log, t: StateType, qc: QC) {
    qc.viewNumber == -1 || (Certified(cfg, log, t, qc.viewNumber, qc.hsNode) && (g.bounds ==> InRange(qc)))
  }

  // The lock is no older than any commit vote.
  ghost predicate LockCovers(log: Log, i: nat, r: Replica) {
    forall k :: 0 <= k < |log| && log[k].who == i && log[k].kind == COMMIT ==> log[k].view <= r.lockedQC.viewNumber
  }

  ghost predicate LockOk(g: Guards, cfg: Config, log: Log, i: nat, r: Replica) {
    -1 <= r.lockedQC.viewNumber <= r.view.viewNumber && Backed(g, cfg, log, PRE_COMMIT, r.lockedQC) && LockCovers(log, i, r)
  }

  ghost predicate PrepareOk(g: Guards, cfg: Config, log: Log, r: Replica) {
    -1 <= r.prepareQC.viewNumber <= r.view.viewNumber && Backed(g, cfg, log, PREPARE, r.prepareQC)
  }

  predicate OrderOk(r: Replica) {
    && r.lockedQC.viewNumber <= r.prepareQC.viewNumber
    && (r.prepareQC.viewNumber == r.view.viewNumber <==> r.curPhase == PRE_COMMIT || r.curPhase == COMMIT)
    && (r.curPhase == COMMIT ==> r.lockedQC.viewNumber == r.view.viewNumber)
  }

  predicate SharesDerivable(log: Log, votes: seq<Msg>) {
    forall m <- votes :: Derivable(log, m.partialSig)
  }

  // A leader keeps new-view messages only with a genuine certificate, beside the one it starts with.
  ghost predicate NewViewOk(cfg: Config, log: Log, m: Msg) {
    m.justify == NO_QC || (m.justify.qType == PREPARE && GenuineJustify(cfg.crypto, m) && GoodQC(cfg, log, PREPARE, m.justify))
  }

  ghost predicate NewViewsOk(cfg: Config, log: Log, r: Replica) {
    forall m <- r.newViewMsgs :: NewViewOk(cfg, log, m)
  }

  // Without any guard.
  predicate LeadsOk(log: Log, r: Replica) {
    && SharesDerivable(log, r.prepareVotes) && SharesDerivable(log, r.preCommitVotes)
    && (InVote(r) && r.IsLeader() ==> DigestNode(r.hsNode))
  }

  ghost predicate SafeOk(g: Guards, cfg: Config, log: Log, i: nat, r: Replica) {
    && LeadsOk(log, r)
    && (g.preCommitVote ==> LockOk(g, cfg, log, i, r))
    && (g.prepareVote ==> PrepareOk(g, cfg, log, r))
    && (g.prepareVote && g.preCommitVote ==> OrderOk(r))
    && (g.newView ==> NewViewsOk(cfg, log, r))
  }

  // The rule for prepare votes that agreement rests on.
  predicate Justifies(g: Guards) {
    g.bounds && g.justify && g.preCommitVote
  }

  ghost predicate SafeSystem(g: Guards, cfg: Config, s: System) {
    && SystemOk(cfg, s) && (g.bounds ==> LogInBounds(cfg, s.log)) && (Justifies(g) ==> PreparesJustified(cfg, s.log))
    && forall i :: 0 <= i < cfg.N() && cfg.Correct(i) ==> SafeOk(g, cfg, s.log, i, s.replicas[i])
  }

  /* The log only grows */

  lemma BackedGrows(g: Guards, cfg: Config, log: Log, longer: Log, t: StateType, qc: QC)
    requires log <= longer && Backed(g, cfg, log, t, qc)
    ensures Backed(g, cfg, longer, t, qc)
  {
    if qc.viewNumber != -1 { CertifiedGrows(cfg, log, longer, t, qc.viewNumber, qc.hsNode); }
  }

  lemma ListsGrow(cfg: Config, log: Log, longer: Log, r: Replica)
    requires log <= longer
    ensures LeadsOk(log, r) ==> LeadsOk(longer, r)
    ensures NewViewsOk(cfg, log, r) ==> NewViewsOk(cfg, longer, r)
  {
    if LeadsOk(log, r) {
      forall m | m in r.prepareVotes || m in r.preCommitVotes ensures Derivable(longer, m.partialSig) {
        DerivableGrows(log, longer, m.partialSig);
      }
    }
    if NewViewsOk(cfg, log, r) {
      forall m | m in r.newViewMsgs ensures NewViewOk(cfg, longer, m) {
        if m.justify != NO_QC { CertifiedGrows(cfg, log, longer, PREPARE, m.justify.viewNumber, m.justify.hsNode); }
      }
    }
  }

  // A share that is no commit vote of this replica leaves it as safe as it was.
  lemma ShareIsSafe(g: Guards, cfg: Config, log: Log, e: Entry, i: nat, r: Replica)
    requires SafeOk(g, cfg, log, i, r)
    requires g.preCommitVote && e.who == i && e.kind == COMMIT ==> e.view <= r.lockedQC.viewNumber
    ensures SafeOk(g, cfg, log + [e], i, r)
  {
    if g.preCommitVote { BackedGrows(g, cfg, log, log + [e], PRE_COMMIT, r.lockedQC); }
    if g.prepareVote { BackedGrows(g, cfg, log, log + [e], PREPARE, r.prepareQC); }
    ListsGrow(cfg, log, log + [e], r);
    hide Backed, LeadsOk, NewViewsOk;
  }

  // A signature recovered from shares in the log verifies and is covered by the log.
  lemma CombinedIsCertified(cfg: Config, log: Log, r: Replica, votes: seq<Msg>)
    requires cfg.Valid() && SharesDerivable(log, votes) && CombineSign(cfg.crypto, r, votes) != NoSign
    ensures Certified(cfg, log, r.curPhase, r.view.viewNumber, r.hsNode)
  {
    var content := SignedBytes(r.curPhase, r.view.viewNumber, r.hsNode);
    var sign := CombineSign(cfg.crypto, r, votes);
    assert cfg.crypto.RecoversFrom(sign, content, Shares(votes));
    forall who | who in sign.signers ensures who in Signers(log, content) {
      var k :| 0 <= k < |votes| && Shares(votes)[k] == Share(who, content);
      assert votes[k] in votes;
    }
    VerifiedIsCertified(cfg, log, content, sign);
  }

  /* The voting handlers */

  ghost predicate SafeReady(g: Guards, cfg: Config, log: Log, i: nat, r: Replica, m: Msg) {
    Ready(cfg, log, i, r, m) && SafeOk(g, cfg, log, i, r) && Kept(g, cfg.crypto, r, m)
  }

  // What the guards give for a new entry of a correct replica.
  ghost predicate SafeEntry(g: Guards, cfg: Config, log: Log, e: Entry) {
    && (g.bounds && e.kind != NEW_VIEW ==> OneByteView(e.view) && DigestNode(e.node))
    && (Justifies(g) && e.kind == PREPARE && e.view > 0 ==> PrepareRule(cfg, log, e))
  }

  ghost predicate KeepsSafe(g: Guards, cfg: Config, log: Log, i: nat, r: Replica, m: Msg, outcome: Outcome) {
    var shares := NewShares(cfg.crypto, r, m, outcome.1);
    && (forall e <- shares :: e.who == i && SafeEntry(g, cfg, log, e))
    && SafeOk(g, cfg, log + shares, i, outcome.0)
  }

  // The certificate that lets a vote leave the lock is backed by the log.
  lemma JustifyIsBacked(cfg: Config, log: Log, m: Msg)
    requires cfg.Valid() && LogOk(cfg, log) && MsgDerivable(log, m) && GenuineJustify(cfg.crypto, m)
    ensures GoodQC(cfg, log, PREPARE, m.justify)
  {
    VerifiedIsCertified(cfg, log, m.justify.QC2SignMsgByte(), m.justify.sign);
    PrepareUnderlies(cfg, log, m.justify.qType, m.justify.viewNumber, m.justify.hsNode);
  }

  lemma PrepareStateIsSafe(g: Guards, cfg: Config, log: Log, i: nat, r: Replica, m: Msg)
    requires SafeReady(g, cfg, log, i, r, m)
    ensures SafeOk(g, cfg, log, i, HandlePrepare(cfg.crypto, r, m).0)
  {
    hide Block.Hash, Ready, Kept, Backed, NewViewOk, SharesDerivable, CheckNewHsNode;
  }

  lemma PrepareEntryIsSafe(g: Guards, cfg: Config, log: Log, i: nat, r: Replica, m: Msg)
    requires SafeReady(g, cfg, log, i, r, m) && m.mType == PREPARE && HandlePrepare(cfg.crypto, r, m).1.Some?
    ensures SafeEntry(g, cfg, log, VoteEntry(cfg.crypto, r, m, HandlePrepare(cfg.crypto, r, m).1.value))
  {
    assert r.view.viewNumber > 0 && r.lockedQC.hsNode.curHash != m.hsNode.parentHash ==> LeavesLock(r, m);
    assert g.bounds ==> OneByteView(r.view.viewNumber) && DigestNode(m.hsNode);
    if g.justify && LeavesLock(r, m) { JustifyIsBacked(cfg, log, m); }
    BackedInBounds(g, cfg, log, PRE_COMMIT, r.lockedQC);
    assert g.preCommitVote ==> LockOk(g, cfg, log, i, r);
    hide Block.Hash, Ready, Kept, SafeOk, Backed, GenuineJustify, GoodQC, OneByteView, DigestNode;
  }

  lemma PrepareIsSafe(g: Guards, cfg: Config, log: Log, i: nat, r: Replica, m: Msg)
    requires SafeReady(g, cfg, log, i, r, m) && m.mType == PREPARE
    ensures KeepsSafe(g, cfg, log, i, r, m, HandlePrepare(cfg.crypto, r, m))
  {
    NoShare(log);
    var (r1, out) := HandlePrepare(cfg.crypto, r, m);
    PrepareStateIsSafe(g, cfg, log, i, r, m);
    if out.Some? {
      var e := VoteEntry(cfg.crypto, r, m, out.value);
      assert NewShares(cfg.crypto, r, m, out) == [e] && e.who == i && e.kind == PREPARE;
      PrepareEntryIsSafe(g, cfg, log, i, r, m);
      hide HandlePrepare, SafeReady, SafeOk, SafeEntry;
      ShareIsSafe(g, cfg, log, e, i, r1);
    }
  }

  lemma BackedInBounds(g: Guards, cfg: Config, log: Log, t: StateType, qc: QC)
    ensures g.bounds && Backed(g, cfg, log, t, qc) ==> qc.viewNumber == -1 || GoodQC(cfg, log, t, qc)
  {
  }

  lemma PreCommitIsSafe(g: Guards, cfg: Config, log: Log, i: nat, r: Replica, m: Msg)
    requires SafeReady(g, cfg, log, i, r, m) && m.mType == PRE_COMMIT
    ensures KeepsSafe(g, cfg, log, i, r, m, HandlePreCommit(cfg.crypto, r, m))
  {
    NoShare(log);
    var (r1, out) := HandlePreCommit(cfg.crypto, r, m);
    hide Block.Hash, RanksOk, BlockOk, LogOk;
    if out.Some? {
      var e := VoteEntry(cfg.crypto, r, m, out.value);
      VerifiedIsCertified(cfg, log, m.justify.QC2SignMsgByte(), m.justify.sign);
      assert NewShares(cfg.crypto, r, m, out) == [e];
      assert SafeOk(g, cfg, log, i, r1);
      ShareIsSafe(g, cfg, log, e, i, r1);
    }
  }

  lemma CommitIsSafe(g: Guards, cfg: Config, log: Log, i: nat, r: Replica, m: Msg)
    requires SafeReady(g, cfg, log, i, r, m) && m.mType == COMMIT
    ensures KeepsSafe(g, cfg, log, i, r, m, HandleCommit(cfg.crypto, r, m))
  {
    NoShare(log);
    var (r1, out) := HandleCommit(cfg.crypto, r, m);
    hide Block.Hash, RanksOk, BlockOk, LogOk;
    if out.Some? {
      var e := VoteEntry(cfg.crypto, r, m, out.value);
      VerifiedIsCertified(cfg, log, m.justify.QC2SignMsgByte(), m.justify.sign);
      assert NewShares(cfg.crypto, r, m, out) == [e];
      assert SafeOk(g, cfg, log, i, r1);
      ShareIsSafe(g, cfg, log, e, i, r1);
    }
  }

  /* The other handlers */

  lemma ProposeIsSafe(g: Guards, cfg: Config, log: Log, i: nat, r: Replica, commands: seq<Bytes>, timeStamp: int)
    requires cfg.Valid() && SafeOk(g, cfg, log, i, r) && r.newViewMsgs != [] && MayPropose(r)
    ensures SafeOk(g, cfg, log, i, Propose(cfg.crypto, r, commands, timeStamp).0)
  {
    hide GetHighQCIndex, Merkle.HashFromByteSlices;
  }

  lemma LogNewViewIsSafe(g: Guards, cfg: Config, log: Log, i: nat, r: Replica, m: Msg)
    requires SafeOk(g, cfg, log, i, r) && MsgDerivable(log, m) && (g.newView && Reports(cfg.crypto, r, m) ==> InRange(m.justify))
    ensures SafeOk(g, cfg, log, i, LogNewView(cfg.crypto, r, m))
  {
    if LogNewView(cfg.crypto, r, m) != r {
      VerifiedIsCertified(cfg, log, m.justify.QC2SignMsgByte(), m.justify.sign);
      assert g.newView ==> NewViewOk(cfg, log, m);
    }
  }

  lemma NewViewIsSafe(g: Guards, cfg: Config, log: Log, i: nat, r: Replica, m: Msg, timeStamp: int)
    requires SafeReady(g, cfg, log, i, r, m) && m.mType == NEW_VIEW
    ensures SafeOk(g, cfg, log, i, HandleNewView(cfg.crypto, r, m, timeStamp).0)
  {
    LogNewViewIsSafe(g, cfg, log, i, r, m);
    var r1 := LogNewView(cfg.crypto, r, m);
    hide LogNewView, NewViewsOk, LeadsOk, LockCovers, Backed, Propose;
    assert MayPropose(r) ==> MayPropose(r1) by { assert r1.curPhase == r.curPhase by { LogNewViewKeepsPhase(cfg.crypto, r, m); } }
    if MayPropose(r) && r1.newViewMsgs != [] {
      ProposeIsSafe(g, cfg, log, i, r1, r1.curProposal.commands, timeStamp);
      WaitingIsSafe(g, cfg, log, i, r1);
    }
  }

  lemma LogNewViewKeepsPhase(c: Crypto, r: Replica, m: Msg)
    ensures LogNewView(c, r, m).curPhase == r.curPhase
  {
  }

  lemma WaitingIsSafe(g: Guards, cfg: Config, log: Log, i: nat, r: Replica)
    requires SafeOk(g, cfg, log, i, r) && MayPropose(r)
    ensures SafeOk(g, cfg, log, i, r.(curPhase := WAITING))
  {
  }

  lemma PrepareVoteIsSafe(g: Guards, cfg: Config, log: Log, i: nat, r: Replica, m: Msg)
    requires SafeReady(g, cfg, log, i, r, m) && m.mType == PREPARE_VOTE
    ensures SafeOk(g, cfg, log, i, HandlePrepareVote(cfg.crypto, r, m).0)
  {
    var votes := if MatchingMsg(m, PREPARE_VOTE, r.view.viewNumber) then r.prepareVotes + [m] else r.prepareVotes;
    assert SharesDerivable(log, votes);
    hide RanksOk, BlockOk, LogOk;
    if HandlePrepareVote(cfg.crypto, r, m).1.Some? {
      CombinedIsCertified(cfg, log, r, votes);
    }
  }

  lemma PreCommitVoteIsSafe(g: Guards, cfg: Config, log: Log, i: nat, r: Replica, m: Msg)
    requires SafeReady(g, cfg, log, i, r, m) && m.mType == PRE_COMMIT_VOTE
    ensures SafeOk(g, cfg, log, i, HandlePreCommitVote(cfg.crypto, r, m).0)
  {
    var votes := if MatchingMsg(m, PRE_COMMIT_VOTE, r.view.viewNumber) then r.preCommitVotes + [m] else r.preCommitVotes;
    assert SharesDerivable(log, votes);
    hide RanksOk, BlockOk, LogOk;
    if HandlePreCommitVote(cfg.crypto, r, m).1.Some? {
      CombinedIsCertified(cfg, log, r, votes);
    }
  }

  lemma DecideIsSafe(g: Guards, cfg: Config, log: Log, i: nat, r: Replica, m: Msg)
    requires SafeReady(g, cfg, log, i, r, m) && (m.mType == COMMIT_VOTE || m.mType == DECIDE)
    ensures SafeOk(g, cfg, log, i, if m.mType == DECIDE then HandleDecide(cfg.crypto, r, m).0 else HandleCommitVote(cfg.crypto, r, m).0)
  {
  }

  lemma RouteIsSafe(g: Guards, cfg: Config, log: Log, i: nat, r: Replica, m: Msg, timeStamp: int)
    requires SafeReady(g, cfg, log, i, r, m)
    ensures KeepsSafe(g, cfg, log, i, r, m, RouteBMsg(cfg.crypto, r, m, timeStamp))
  {
    if MakesNoShare(m) {
      NoShare(log);
      LeaderMakesNoShare(cfg.crypto, r, m, timeStamp);
    }
    hide SafeOk, Ready, Kept;
    if m.mType == PREPARE { PrepareIsSafe(g, cfg, log, i, r, m); }
    else if m.mType == PRE_COMMIT { PreCommitIsSafe(g, cfg, log, i, r, m); }
    else if m.mType == COMMIT { CommitIsSafe(g, cfg, log, i, r, m); }
    else if m.mType == NEW_VIEW { NewViewIsSafe(g, cfg, log, i, r, m, timeStamp); }
    else if m.mType == PREPARE_VOTE { PrepareVoteIsSafe(g, cfg, log, i, r, m); }
    else if m.mType == PRE_COMMIT_VOTE { PreCommitVoteIsSafe(g, cfg, log, i, r, m); }
    else if m.mType == COMMIT_VOTE || m.mType == DECIDE { DecideIsSafe(g, cfg, log, i, r, m); }
  }

  lemma AfterSendIsSafe(g: Guards, cfg: Config, log: Log, i: nat, r: Replica, out: Msg)
    requires SafeOk(g, cfg, log, i, r)
    requires out.mType == NEW_VIEW ==> r.curPhase == DECIDE
    ensures SafeOk(g, cfg, log, i, AfterSend(r, out).0)
  {
  }

  lemma DeliverIsSafe(g: Guards, cfg: Config, log: Log, i: nat, r: Replica, m: Msg, timeStamp: int)
    requires SafeReady(g, cfg, log, i, r, m)
    ensures KeepsSafe(g, cfg, log, i, r, m, HandleBMsg(cfg.crypto, r, m, timeStamp))
  {
    RouteIsSafe(g, cfg, log, i, r, m, timeStamp);
    OnlyDecideReturnsNewView(cfg.crypto, r, m, timeStamp);
    hide RouteBMsg, SafeOk, SafeEntry;
    var (r1, out) := RouteBMsg(cfg.crypto, r, m, timeStamp);
    if out.Some? {
      var shares := NewShares(cfg.crypto, r, m, out);
      AfterSendIsSafe(g, cfg, log + shares, i, r1, out.value);
      assert NewShares(cfg.crypto, r, m, AfterSend(r1, out.value).1) == shares;
    }
  }

  lemma TimeoutIsSafe(g: Guards, cfg: Config, log: Log, i: nat, r: Replica, forwards: bool, sends: bool)
    requires r.view.nodesNum > 0 && SafeOk(g, cfg, log, i, r)
    ensures SafeOk(g, cfg, log, i, StartViewChange(cfg.crypto, r, forwards, sends).0)
  {
  }

  lemma RequestIsSafe(g: Guards, cfg: Config, log: Log, i: nat, r: Replica, height: int, preHash: Bytes, cmds: seq<Bytes>, signs: seq<Bytes>, timeStamp: int)
    requires cfg.Valid() && r.Valid() && SafeOk(g, cfg, log, i, r)
    ensures SafeOk(g, cfg, log, i, HandleReq(cfg.crypto, r, height, preHash, cmds, signs, timeStamp).0)
  {
    var r1 := r.(curProposal := Proposal(height, preHash, Merkle.MerkleTreeHash(cfg.crypto.sum, cmds), cmds, signs));
    assert SafeOk(g, cfg, log, i, r1);
    if r.curPhase == WAITING {
      ProposeIsSafe(g, cfg, log, i, r1, CutOff(cmds, 128), timeStamp);
    }
    hide Propose;
  }

  /* Steps and runs */

  // The acting replica stays safe, and so does the log.
  ghost predicate EffectSafe(g: Guards, cfg: Config, s: System, i: nat, r: Replica, shares: Log) {
    && i < |s.replicas| && |shares| <= 1
    && (forall e <- shares :: e.who == i && (cfg.Correct(i) ==> SafeEntry(g, cfg, s.log, e)))
    && (cfg.Correct(i) ==> SafeOk(g, cfg, s.log + shares, i, r))
    && (!cfg.Correct(i) ==> r == s.replicas[i])
  }

  lemma EffectIsSafe(g: Guards, cfg: Config, s: System, a: Action)
    requires cfg.Valid() && SafeSystem(g, cfg, s) && Enabled(cfg, s, a) && Guarded(cfg, g, s, a)
    ensures var (r, shares, _) := Effect(cfg, s, a); EffectSafe(g, cfg, s, a.i, r, shares)
  {
    var r := s.replicas[a.i];
    assert cfg.Correct(a.i) ==> ReplicaOk(cfg, s.log, a.i, r) && SafeOk(g, cfg, s.log, a.i, r);
    hide SystemOk, ReplicaOk, SafeOk, Kept, HandleBMsg, HandleReq, PreparesJustified, LogOk;
    match a
    case Deliver(i, m, timeStamp) =>
      assert LogOk(cfg, s.log) by { SystemHasLog(cfg, s); }
      DeliverIsSafe(g, cfg, s.log, i, r, m, timeStamp);
    case Timeout(i, forwards, sends) =>
      TimeoutIsSafe(g, cfg, s.log, i, r, forwards, sends);
      var (r1, out) := StartViewChange(cfg.crypto, r, forwards, sends);
      ShareIsSafe(g, cfg, s.log, PlainEntry(i, out.partialSig.content, out.viewNumber), i, r1);
    case Request(i, height, preHash, cmds, signs, timeStamp) =>
      RequestIsSafe(g, cfg, s.log, i, r, height, preHash, cmds, signs, timeStamp);
      NoShare(s.log);
    case Corrupt(_, _) =>
  }

  lemma SystemHasLog(cfg: Config, s: System)
    requires SystemOk(cfg, s)
    ensures LogOk(cfg, s.log)
  {
  }

  lemma SafeLogGrows(g: Guards, cfg: Config, log: Log, e: Entry)
    requires cfg.Correct(e.who) ==> SafeEntry(g, cfg, log, e)
    ensures g.bounds && LogInBounds(cfg, log) ==> LogInBounds(cfg, log + [e])
    ensures Justifies(g) && PreparesJustified(cfg, log) ==> PreparesJustified(cfg, log + [e])
  {
    var longer := log + [e];
    hide PrepareRule;
    if Justifies(g) && PreparesJustified(cfg, log) {
      forall k | 0 <= k < |longer| && cfg.Correct(longer[k].who) && longer[k].kind == PREPARE && longer[k].view > 0
        ensures PrepareRule(cfg, longer[..k], longer[k])
      {
        assert longer[..k] == log[..k];
        assert k == |log| ==> log[..k] == log;
      }
    }
  }

  lemma OthersStaySafe(g: Guards, cfg: Config, s: System, i: nat, r: Replica, shares: Log)
    requires SafeSystem(g, cfg, s) && EffectSafe(g, cfg, s, i, r, shares)
    ensures g.bounds ==> LogInBounds(cfg, s.log + shares)
    ensures Justifies(g) ==> PreparesJustified(cfg, s.log + shares)
    ensures forall j :: 0 <= j < cfg.N() && cfg.Correct(j) ==> SafeOk(g, cfg, s.log + shares, j, s.replicas[i := r][j])
  {
    hide SafeOk, SafeEntry, PreparesJustified, LogInBounds, PrepareRule, SystemOk;
    assert |s.replicas| == cfg.N() by { SystemHasReplicas(cfg, s); }
    if shares == [] {
      NoShare(s.log);
    } else {
      assert shares == [shares[0]];
      SafeLogGrows(g, cfg, s.log, shares[0]);
      forall j | 0 <= j < cfg.N() && cfg.Correct(j) && j != i ensures SafeOk(g, cfg, s.log + shares, j, s.replicas[j]) {
        ShareIsSafe(g, cfg, s.log, shares[0], j, s.replicas[j]);
      }
    }
  }

  lemma SystemHasReplicas(cfg: Config, s: System)
    requires SystemOk(cfg, s)
    ensures |s.replicas| == cfg.N()
  {
  }

  lemma StepIsSafe(g: Guards, cfg: Config, s: System, a: Action)
    requires cfg.Valid() && SafeSystem(g, cfg, s) && Enabled(cfg, s, a) && Guarded(cfg, g, s, a)
    ensures SafeSystem(g, cfg, Apply(cfg, s, a))
  {
    StepKeeps(cfg, s, a);
    EffectIsSafe(g, cfg, s, a);
    var (r, shares, _) := Effect(cfg, s, a);
    hide Effect, SafeOk, PreparesJustified, LogInBounds, SystemOk;
    OthersStaySafe(g, cfg, s, a.i, r, shares);
  }

  lemma InitIsSafe(g: Guards, cfg: Config)
    requires cfg.Valid()
    ensures SafeSystem(g, cfg, Init(cfg))
  {
    InitOk(cfg);
    hide SystemOk;
  }

  // Every run, whichever guards it keeps.
  lemma {:induction false} GuardedRunKeeps(cfg: Config, g: Guards, run: seq<System>, acts: seq<Action>, k: nat)
    requires cfg.Valid() && GuardedRun(cfg, g, run, acts) && k < |run|
    ensures SafeSystem(g, cfg, run[k])
  {
    hide SafeSystem, Enabled, Apply, Guarded;
    if k == 0 {
      InitIsSafe(g, cfg);
    } else {
      GuardedRunKeeps(cfg, g, run, acts, k - 1);
      assert Step(cfg, run[k - 1], acts[k - 1], run[k - 1 + 1]) && Guarded(cfg, g, run[k - 1], acts[k - 1]);
      StepIsSafe(g, cfg, run[k - 1], acts[k - 1]);
    }
  }
}
