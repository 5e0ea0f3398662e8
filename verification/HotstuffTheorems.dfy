/** The results about basic HotStuff, stated over every run that keeps the guards they use:
    every run at all, or one that keeps the flags of g that are named. */
module HotstuffTheorems {
  import opened Common
  import opened Blockchain
  import opened HotstuffTypes
  import opened BasicHotstuffSpec
  import opened HotstuffLog
  import opened HotstuffSystem
  import opened HotstuffGuards
  import Merkle

  // A certificate of type t that passes signature verification, made of shares in the log.
  predicate Passes(cfg: Config, s: System, t: StateType, qc: QC) {
    qc.qType == t && Derivable(s.log, qc.sign) && cfg.crypto.ThresholdSignVerify(qc.QC2SignMsgByte(), qc.sign)
  }

  // The same, with a view and a node within bounds.
  predicate Verifies(cfg: Config, s: System, t: StateType, qc: QC) {
    Passes(cfg, s, t, qc) && InRange(qc)
  }

  lemma VerifiesIsCertified(cfg: Config, s: System, t: StateType, qc: QC)
    requires Passes(cfg, s, t, qc)
    ensures Certified(cfg, s.log, t, qc.viewNumber, qc.hsNode)
  {
    VerifiedIsCertified(cfg, s.log, qc.QC2SignMsgByte(), qc.sign);
  }

  lemma {:induction false} LogsGrow(cfg: Config, run: seq<System>, acts: seq<Action>, j: nat, k: nat)
    requires Run(cfg, run, acts) && j <= k < |run|
    ensures run[j].log <= run[k].log && run[j].sent <= run[k].sent
  {
    if j < k {
      LogsGrow(cfg, run, acts, j, k - 1);
      assert Step(cfg, run[k - 1], acts[k - 1], run[k - 1 + 1]);
      hide Effect, Enabled;
    }
  }

  function Later(j: nat, k: nat): nat {
    if j <= k then k else j
  }

  // A certificate that verifies in one state of a run still does in all later ones.
  lemma StillVerifies(cfg: Config, run: seq<System>, acts: seq<Action>, j: nat, k: nat, t: StateType, qc: QC)
    requires Run(cfg, run, acts) && j <= k < |run| && Verifies(cfg, run[j], t, qc)
    ensures Verifies(cfg, run[k], t, qc)
  {
    hide Run;
    LogsGrow(cfg, run, acts, j, k);
    DerivableGrows(run[j].log, run[k].log, qc.sign);
  }

  /* Agreement */

  // Any two commit certificates, each verifying in some state of a run that keeps the guards on
  // bounds, on justifies and on pre-commit votes, are for nodes on one branch.
  lemma Agreement(cfg: Config, g: Guards, run: seq<System>, acts: seq<Action>, j: nat, k: nat, qc: QC, later: QC) returns (path: seq<Link>)
    requires cfg.Valid() && GuardedRun(cfg, g, run, acts) && g.bounds && g.justify && g.preCommitVote && j < |run| && k < |run|
    requires Verifies(cfg, run[j], COMMIT, qc) && Verifies(cfg, run[k], COMMIT, later)
    requires qc.viewNumber <= later.viewNumber
    ensures Branch(cfg, run[Later(j, k)].log, path, Link(later.viewNumber, later.hsNode), Link(qc.viewNumber, qc.hsNode))
  {
    var s := run[Later(j, k)];
    StillVerifies(cfg, run, acts, j, Later(j, k), COMMIT, qc);
    StillVerifies(cfg, run, acts, k, Later(j, k), COMMIT, later);
    GuardedRunKeeps(cfg, g, run, acts, Later(j, k));
    hide GuardedRun;
    VerifiesIsCertified(cfg, s, COMMIT, qc);
    VerifiesIsCertified(cfg, s, COMMIT, later);
    path := CommittedNodesOnOneBranch(cfg, s.log, qc.viewNumber, qc.hsNode, later.viewNumber, later.hsNode);
  }

  // Once a commit certificate verifies, no prepare certificate of a later view leaves its branch.
  lemma CommittedStays(cfg: Config, g: Guards, run: seq<System>, acts: seq<Action>, j: nat, k: nat, qc: QC, later: QC) returns (path: seq<Link>)
    requires cfg.Valid() && GuardedRun(cfg, g, run, acts) && g.bounds && g.justify && g.preCommitVote && j < |run| && k < |run|
    requires Verifies(cfg, run[j], COMMIT, qc) && Verifies(cfg, run[k], PREPARE, later)
    requires qc.viewNumber < later.viewNumber
    ensures Branch(cfg, run[Later(j, k)].log, path, Link(later.viewNumber, later.hsNode), Link(qc.viewNumber, qc.hsNode))
  {
    var s := run[Later(j, k)];
    StillVerifies(cfg, run, acts, j, Later(j, k), COMMIT, qc);
    StillVerifies(cfg, run, acts, k, Later(j, k), PREPARE, later);
    GuardedRunKeeps(cfg, g, run, acts, Later(j, k));
    hide GuardedRun;
    VerifiesIsCertified(cfg, s, COMMIT, qc);
    VerifiesIsCertified(cfg, s, PREPARE, later);
    assert s.log[..|s.log|] == s.log;
    path := LaterNodesExtendCommitted(cfg, s.log, |s.log|, qc.viewNumber, qc.hsNode, later.viewNumber, later.hsNode);
  }

  /* Certificates of one view */

  // All certificates of one view, of whatever type and whenever they verify, are for one node.
  lemma OneNodePerView(cfg: Config, g: Guards, run: seq<System>, acts: seq<Action>, j: nat, k: nat, t: StateType, qc: QC, t': StateType, qc': QC)
    requires cfg.Valid() && GuardedRun(cfg, g, run, acts) && g.bounds && j < |run| && k < |run| && VoteType(t) && VoteType(t')
    requires Verifies(cfg, run[j], t, qc) && Verifies(cfg, run[k], t', qc') && qc.viewNumber == qc'.viewNumber
    ensures qc.hsNode == qc'.hsNode
  {
    var s, v := run[Later(j, k)], qc.viewNumber;
    StillVerifies(cfg, run, acts, j, Later(j, k), t, qc);
    StillVerifies(cfg, run, acts, k, Later(j, k), t', qc');
    GuardedRunKeeps(cfg, g, run, acts, Later(j, k));
    hide GuardedRun;
    VerifiesIsCertified(cfg, s, t, qc);
    VerifiesIsCertified(cfg, s, t', qc');
    PrepareUnderlies(cfg, s.log, t, v, qc.hsNode);
    PrepareUnderlies(cfg, s.log, t', v, qc'.hsNode);
    CertificateUnique(cfg, s.log, PREPARE, v, qc.hsNode, qc'.hsNode);
  }

  // The log of every earlier moment was the log of some earlier state.
  lemma {:induction false} LogHistory(cfg: Config, run: seq<System>, acts: seq<Action>, m: nat, n: nat) returns (k: nat)
    requires Run(cfg, run, acts) && m < |run| && n <= |run[m].log|
    ensures k <= m && run[k].log == run[m].log[..n]
  {
    if n == |run[m].log| {
      assert run[m].log[..n] == run[m].log;
      k := m;
    } else {
      assert m > 0;
      assert Step(cfg, run[m - 1], acts[m - 1], run[m - 1 + 1]);
      var before := run[m - 1].log;
      assert run[m].log[..|before|] == before && |run[m].log| <= |before| + 1;
      k := LogHistory(cfg, run, acts, m - 1, n);
      assert before[..n] == run[m].log[..n];
    }
  }

  // In every run the certificates of a view appear in the order of the phases: in some
  // earlier state the one before it verified already and it did not.
  lemma CertificatesInOrder(cfg: Config, run: seq<System>, acts: seq<Action>, m: nat, t: StateType, qc: QC) returns (k: nat)
    requires cfg.Valid() && Run(cfg, run, acts) && m < |run| && (t == COMMIT || t == PRE_COMMIT)
    requires Passes(cfg, run[m], t, qc)
    ensures k < m
    ensures Certified(cfg, run[k].log, Earlier(t), qc.viewNumber, qc.hsNode)
    ensures !Certified(cfg, run[k].log, t, qc.viewNumber, qc.hsNode)
  {
    RunKeeps(cfg, run, acts, m);
    VerifiesIsCertified(cfg, run[m], t, qc);
    var n := CertificateCausality(cfg, run[m].log, t, qc.viewNumber, qc.hsNode);
    k := LogHistory(cfg, run, acts, m, n);
    hide Run, SystemOk;
    assert |run[k].log| < |run[m].log|;
  }

  /* One replica over a run */

  predicate NoneDecreases(g: Guards, r: Replica, r': Replica) {
    && r.view.viewNumber <= r'.view.viewNumber
    && (g.preCommitVote ==> r.lockedQC.viewNumber <= r'.lockedQC.viewNumber)
    && (g.prepareVote ==> r.prepareQC.viewNumber <= r'.prepareQC.viewNumber)
  }

  predicate NoneAhead(g: Guards, r: Replica) {
    && (g.preCommitVote ==> r.lockedQC.viewNumber <= r.view.viewNumber)
    && (g.prepareVote ==> r.prepareQC.viewNumber <= r.view.viewNumber)
  }

  lemma LeaderRaises(g: Guards, c: Crypto, r: Replica, m: Msg, timeStamp: int)
    requires r.view.nodesNum > 0 && NoneAhead(g, r) && Kept(g, c, r, m) && MakesNoShare(m)
    ensures NoneDecreases(g, r, RouteBMsg(c, r, m, timeStamp).0)
  {
    hide GetHighQCIndex, Store.GenNewBlock, InBounds, LeavesLock, Reports;
  }

  lemma VoterRaises(g: Guards, c: Crypto, r: Replica, m: Msg, timeStamp: int)
    requires r.view.nodesNum > 0 && NoneAhead(g, r) && !MakesNoShare(m)
    ensures NoneDecreases(g, r, RouteBMsg(c, r, m, timeStamp).0)
  {
  }

  lemma DeliverRaises(g: Guards, c: Crypto, r: Replica, m: Msg, timeStamp: int)
    requires r.view.nodesNum > 0 && NoneAhead(g, r) && Kept(g, c, r, m)
    ensures NoneDecreases(g, r, HandleBMsg(c, r, m, timeStamp).0)
  {
    if MakesNoShare(m) {
      LeaderRaises(g, c, r, m, timeStamp);
    } else {
      VoterRaises(g, c, r, m, timeStamp);
    }
    hide RouteBMsg;
  }

  lemma StepRaises(g: Guards, cfg: Config, s: System, a: Action, i: nat)
    requires cfg.Valid() && SafeSystem(g, cfg, s) && Enabled(cfg, s, a) && Guarded(cfg, g, s, a) && cfg.Correct(i)
    ensures NoneDecreases(g, s.replicas[i], Apply(cfg, s, a).replicas[i])
  {
    assert NoneAhead(g, s.replicas[i]) by {
      assert SafeOk(g, cfg, s.log, i, s.replicas[i]);
    }
    hide HandleBMsg, NoneAhead, Kept, SafeSystem;
    if a.Deliver? && a.i == i {
      DeliverRaises(g, cfg.crypto, s.replicas[i], a.m, a.timeStamp);
    }
  }

  // In every state of every run, at every correct replica: the view number gives the leader;
  // with the guard on pre-commit votes the lock is no newer than the view and backed by a quorum
  // of shares; with that on prepare votes so is the prepare certificate; with both the lock is
  // no newer than the prepare certificate.
  lemma ReplicaInvariant(cfg: Config, g: Guards, run: seq<System>, acts: seq<Action>, k: nat, i: nat)
    requires cfg.Valid() && GuardedRun(cfg, g, run, acts) && k < |run| && cfg.Correct(i)
    ensures |run[k].replicas| == cfg.N()
    ensures var r, log := run[k].replicas[i], run[k].log;
      && r.view.nodesNum == cfg.N() && r.view.leader == r.view.viewNumber % cfg.N() && r.view.viewNumber >= 0
      && (g.preCommitVote ==>
            && -1 <= r.lockedQC.viewNumber <= r.view.viewNumber
            && (r.lockedQC.viewNumber >= 0 ==> Certified(cfg, log, PRE_COMMIT, r.lockedQC.viewNumber, r.lockedQC.hsNode)))
      && (g.prepareVote ==>
            && -1 <= r.prepareQC.viewNumber <= r.view.viewNumber
            && (r.prepareQC.viewNumber >= 0 ==> Certified(cfg, log, PREPARE, r.prepareQC.viewNumber, r.prepareQC.hsNode)))
      && (g.preCommitVote && g.prepareVote ==> r.lockedQC.viewNumber <= r.prepareQC.viewNumber)
  {
    GuardedRunKeeps(cfg, g, run, acts, k);
    hide GuardedRun;
    assert ReplicaOk(cfg, run[k].log, i, run[k].replicas[i]) && SafeOk(g, cfg, run[k].log, i, run[k].replicas[i]);
  }

  lemma RunLength(cfg: Config, g: Guards, run: seq<System>, acts: seq<Action>)
    requires GuardedRun(cfg, g, run, acts)
    ensures |run| == |acts| + 1
  {
  }

  lemma RunStepRaises(cfg: Config, g: Guards, run: seq<System>, acts: seq<Action>, k: nat, i: nat)
    requires cfg.Valid() && GuardedRun(cfg, g, run, acts) && k < |acts| && cfg.Correct(i)
    ensures k + 1 < |run| && |run[k].replicas| == |run[k + 1].replicas| == cfg.N()
    ensures NoneDecreases(g, run[k].replicas[i], run[k + 1].replicas[i])
  {
    hide Enabled, Apply, Guarded, SafeSystem, NoneDecreases;
    ReplicaInvariant(cfg, g, run, acts, k, i);
    ReplicaInvariant(cfg, g, run, acts, k + 1, i);
    GuardedRunKeeps(cfg, g, run, acts, k);
    assert Step(cfg, run[k], acts[k], run[k + 1]) && Guarded(cfg, g, run[k], acts[k]);
    StepRaises(g, cfg, run[k], acts[k], i);
  }

  // The view never falls in any run; the lock's view does not if the guard on pre-commit votes
  // is kept, and the prepare certificate's does not if that on prepare votes is.
  lemma {:induction false} ViewsNeverFall(cfg: Config, g: Guards, run: seq<System>, acts: seq<Action>, j: nat, k: nat, i: nat)
    requires cfg.Valid() && GuardedRun(cfg, g, run, acts) && j <= k < |run| && cfg.Correct(i)
    ensures |run[j].replicas| == |run[k].replicas| == cfg.N()
    ensures NoneDecreases(g, run[j].replicas[i], run[k].replicas[i])
    decreases k - j
  {
    hide GuardedRun, Run;
    RunLength(cfg, g, run, acts);
    if j < k {
      RunStepRaises(cfg, g, run, acts, k - 1, i);
      ViewsNeverFall(cfg, g, run, acts, j, k - 1, i);
    } else {
      ReplicaInvariant(cfg, g, run, acts, k, i);
    }
  }

  // In every run the votes of a correct replica rise strictly in (view, phase), so it votes at
  // most once in each phase of a view, and it votes only in views it does not lead.
  lemma VotesRiseInRun(cfg: Config, run: seq<System>, acts: seq<Action>, m: nat, j: nat, k: nat)
    requires cfg.Valid() && Run(cfg, run, acts) && m < |run| && j < k < |run[m].log|
    requires var log := run[m].log;
      log[j].who == log[k].who && cfg.Correct(log[k].who) && log[j].kind != NEW_VIEW && log[k].kind != NEW_VIEW
    ensures var log := run[m].log;
      && (log[j].view < log[k].view || (log[j].view == log[k].view && log[j].kind < log[k].kind))
      && log[j].view % cfg.N() != log[j].who && log[k].view % cfg.N() != log[k].who
  {
    RunKeeps(cfg, run, acts, m);
    hide Run;
    var log := run[m].log;
    assert EntryOk(cfg, log[..j], log[j]) && EntryOk(cfg, log[..k], log[k]);
    VotesRise(cfg, log, j, k);
  }

  /* Proposals */

  // A correct leader proposes at most once in a view, and its node carries the hash of its block.
  lemma OneProposalPerView(cfg: Config, run: seq<System>, acts: seq<Action>, k: nat, p: Msg, q: Msg)
    requires cfg.Valid() && Run(cfg, run, acts) && k < |run| && p in run[k].sent && q in run[k].sent
    ensures p.viewNumber == q.viewNumber ==> p == q
    ensures p.hsNode.curHash == p.block.Hash(cfg.crypto.sum) && cfg.Correct(p.viewNumber % cfg.N())
  {
    RunKeeps(cfg, run, acts, k);
    hide Run, LogOk, ReplicaOk;
    var sent := run[k].sent;
    var i :| 0 <= i < |sent| && sent[i] == p;
    var j :| 0 <= j < |sent| && sent[j] == q;
    assert ProposalOk(cfg, run[k].replicas, p);
  }

  // A correct replica accepts a proposal that extends its genuine certificate whenever its
  // lock is no newer than that certificate.
  lemma GenuineProposalAccepted(cfg: Config, g: Guards, run: seq<System>, acts: seq<Action>, k: nat, i: nat, m: Msg)
    requires cfg.Valid() && GuardedRun(cfg, g, run, acts) && g.bounds && g.preCommitVote
    requires k < |run| && cfg.Correct(i) && |run[k].replicas| == cfg.N()
    requires Verifies(cfg, run[k], PREPARE, m.justify) && m.hsNode.parentHash == m.justify.hsNode.curHash
    requires run[k].replicas[i].lockedQC.viewNumber <= m.justify.viewNumber
    ensures CheckNewHsNode(run[k].replicas[i], m)
  {
    GuardedRunKeeps(cfg, g, run, acts, k);
    hide GuardedRun;
    var r, log, v := run[k].replicas[i], run[k].log, m.justify.viewNumber;
    assert SafeOk(g, cfg, log, i, r) && LogOk(cfg, log) && LogInBounds(cfg, log);
    assert r.lockedQC.viewNumber == -1 || GoodQC(cfg, log, PRE_COMMIT, r.lockedQC);
    hide SafeSystem, SafeOk, LogOk, LogInBounds;
    VerifiesIsCertified(cfg, run[k], PREPARE, m.justify);
    if r.lockedQC.viewNumber == v {
      PrepareUnderlies(cfg, log, PRE_COMMIT, v, r.lockedQC.hsNode);
      CertificateUnique(cfg, log, PREPARE, v, r.lockedQC.hsNode, m.justify.hsNode);
    }
  }

  // The node carries the hash of the block sent along and extends the certificate with the
  // highest view among msgs. That certificate is genuine, unless it is the empty one the first
  // leader starts with; replicas reject a proposal on the empty one after view 0.
  ghost predicate ProperProposal(cfg: Config, log: Log, r: Replica, msgs: seq<Msg>, out: Msg) {
    && out.mType == PREPARE && out.viewNumber == r.view.viewNumber
    && out.hsNode.parentHash == out.justify.hsNode.curHash
    && out.hsNode.curHash == out.block.Hash(cfg.crypto.sum) && IsMade(cfg.crypto.sum, out.block)
    && out.block.blkHdr.height == r.blkStore.height && out.block.blkHdr.preBlkHash == r.blkStore.preBlkHash
    && out.block.blkHdr.viewNumber == r.view.viewNumber
    && (forall q <- msgs :: q.justify.viewNumber <= out.justify.viewNumber)
    && (exists q <- msgs :: q.justify == out.justify)
    && (out.justify == NO_QC || (out.justify.qType == PREPARE && GenuineJustify(cfg.crypto, out) && GoodQC(cfg, log, PREPARE, out.justify)))
    && (out.justify == NO_QC ==> forall voter :: !CheckNewHsNode(voter, out))
  }

  lemma ProposeIsProper(cfg: Config, log: Log, r: Replica, commands: seq<Bytes>, timeStamp: int)
    requires NewViewsOk(cfg, log, r) && r.newViewMsgs != []
    ensures var out := Propose(cfg.crypto, r, commands, timeStamp).1;
      ProperProposal(cfg, log, r, r.newViewMsgs, out) && out.block.blkData.trans == commands && out.proposal == r.curProposal
  {
    var msgs := r.newViewMsgs;
    FirstMaxIsMax(JustifyViews(msgs), |msgs|);
    var high := msgs[GetHighQCIndex(msgs)];
    assert high in msgs;
    forall q | q in msgs ensures q.justify.viewNumber <= high.justify.viewNumber {
      var i :| 0 <= i < |msgs| && msgs[i] == q;
      assert JustifyViews(msgs)[i] == q.justify.viewNumber;
    }
    hide FirstMaxUpTo, Merkle.HashFromByteSlices;
  }

  // Whatever a correct leader proposes on a new-view message is proper.
  lemma LeaderProposesOnNewView(cfg: Config, g: Guards, run: seq<System>, acts: seq<Action>, k: nat, i: nat, m: Msg, timeStamp: int)
    requires cfg.Valid() && GuardedRun(cfg, g, run, acts) && g.newView && k < |run| && m.mType == NEW_VIEW
    requires var a := Deliver(i, m, timeStamp); Enabled(cfg, run[k], a) && Guarded(cfg, g, run[k], a)
    requires HandleNewView(cfg.crypto, run[k].replicas[i], m, timeStamp).1.Some?
    ensures ProperProposal(cfg, run[k].log, run[k].replicas[i], LogNewView(cfg.crypto, run[k].replicas[i], m).newViewMsgs,
      HandleNewView(cfg.crypto, run[k].replicas[i], m, timeStamp).1.value)
    ensures HandleNewView(cfg.crypto, run[k].replicas[i], m, timeStamp).1.value.block.blkData.trans == run[k].replicas[i].curProposal.commands
  {
    GuardedRunKeeps(cfg, g, run, acts, k);
    hide GuardedRun;
    var r := run[k].replicas[i];
    assert SafeOk(g, cfg, run[k].log, i, r);
    LogNewViewIsSafe(g, cfg, run[k].log, i, r, m);
    var r1 := LogNewView(cfg.crypto, r, m);
    assert r1.view == r.view && r1.blkStore == r.blkStore && r1.curProposal == r.curProposal;
    hide SafeSystem, LogNewView, Propose, ProperProposal;
    ProposeIsProper(cfg, run[k].log, r1, r1.curProposal.commands, timeStamp);
    ProperInView(cfg, run[k].log, r1, r, r1.newViewMsgs, Propose(cfg.crypto, r1, r1.curProposal.commands, timeStamp).1);
  }

  lemma ProperInView(cfg: Config, log: Log, r: Replica, r': Replica, msgs: seq<Msg>, out: Msg)
    requires ProperProposal(cfg, log, r, msgs, out) && r.view == r'.view && r.blkStore == r'.blkStore
    ensures ProperProposal(cfg, log, r', msgs, out)
    ensures ProperProposal(cfg, log, r', msgs, out.(sendNode := Some(r.consId)))
  {
    forall voter: Replica ensures CheckNewHsNode(voter, out.(sendNode := Some(r.consId))) == CheckNewHsNode(voter, out) {
    }
  }

  // And so is what it proposes on a request; a request finds new-view messages at hand.
  lemma LeaderProposesOnRequest(cfg: Config, g: Guards, run: seq<System>, acts: seq<Action>, k: nat, i: nat, height: int, preHash: Bytes, cmds: seq<Bytes>, signs: seq<Bytes>, timeStamp: int)
    requires cfg.Valid() && GuardedRun(cfg, g, run, acts) && g.newView && k < |run| && cfg.Correct(i)
    ensures |run[k].replicas| == cfg.N() && run[k].replicas[i].Valid()
    ensures var (r, out) := HandleReq(cfg.crypto, run[k].replicas[i], height, preHash, cmds, signs, timeStamp);
      out.Some? ==>
        && ProperProposal(cfg, run[k].log, run[k].replicas[i], run[k].replicas[i].newViewMsgs, out.value)
        && out.value.proposal.commands == cmds && CutFrom(out.value.block.blkData.trans, cmds)
  {
    GuardedRunKeeps(cfg, g, run, acts, k);
    hide GuardedRun;
    var r := run[k].replicas[i];
    assert SafeOk(g, cfg, run[k].log, i, r) && ReplicaOk(cfg, run[k].log, i, r);
    assert r.Valid() && |run[k].replicas| == cfg.N();
    var r1 := r.(curProposal := Proposal(height, preHash, Merkle.MerkleTreeHash(cfg.crypto.sum, cmds), cmds, signs));
    assert NewViewsOk(cfg, run[k].log, r1);
    CutOffCuts(cmds);
    hide SafeSystem, ReplicaOk, SafeOk, Propose, ProperProposal, CutOff, CutFrom;
    if r.curPhase == WAITING {
      ProposeIsProper(cfg, run[k].log, r1, CutOff(cmds, 128), timeStamp);
      ProperInView(cfg, run[k].log, r1, r, r.newViewMsgs, Propose(cfg.crypto, r1, CutOff(cmds, 128), timeStamp).1);
    }
  }

  /* Decisions */

  // The proposals delivered in view v are the leader's own; sent holds those of correct leaders only.
  ghost predicate LeaderSpeaks(run: seq<System>, acts: seq<Action>, v: int)
    requires |run| == |acts| + 1
  {
    forall k :: 0 <= k < |acts| && acts[k].Deliver? && acts[k].m.mType == PREPARE && acts[k].m.viewNumber == v ==> acts[k].m in run[k].sent
  }

  // e is a vote for proposal p.
  predicate VotedFor(c: Crypto, e: Entry, p: Msg) {
    p.viewNumber == e.view && p.hsNode == e.node && p.block.Hash(c.sum) == e.blockHash
  }

  ghost predicate VotesAreForSent(cfg: Config, s: System, v: int) {
    forall k :: 0 <= k < |s.log| && cfg.Correct(s.log[k].who) && s.log[k].kind == PREPARE && s.log[k].view == v ==>
      exists p <- s.sent :: VotedFor(cfg.crypto, s.log[k], p)
  }

  // What a new prepare vote is for.
  lemma NewVoteIsForDelivered(cfg: Config, s: System, a: Action, e: Entry)
    requires cfg.Valid() && SystemOk(cfg, s) && Enabled(cfg, s, a) && e in Effect(cfg, s, a).1 && e.kind == PREPARE
    ensures a.Deliver? && a.m.mType == PREPARE && VotedFor(cfg.crypto, e, a.m)
  {
    if a.Deliver? {
      VoteIsForMessage(cfg.crypto, s.replicas[a.i], a.m, a.timeStamp, e);
    }
    hide HandleBMsg, SystemOk;
  }

  lemma VoteIsForMessage(c: Crypto, r: Replica, m: Msg, timeStamp: int, e: Entry)
    requires r.view.nodesNum > 0 && e in NewShares(c, r, m, HandleBMsg(c, r, m, timeStamp).1) && e.kind == PREPARE
    ensures m.mType == PREPARE && VotedFor(c, e, m)
  {
    hide Block.Hash, HandleNewView;
  }

  lemma StepFollowsLeader(cfg: Config, s: System, a: Action, v: int)
    requires cfg.Valid() && SystemOk(cfg, s) && Enabled(cfg, s, a) && VotesAreForSent(cfg, s, v)
    requires a.Deliver? && a.m.mType == PREPARE && a.m.viewNumber == v ==> a.m in s.sent
    ensures VotesAreForSent(cfg, Apply(cfg, s, a), v)
  {
    var s' := Apply(cfg, s, a);
    hide SystemOk, Effect, Enabled, VotedFor;
    forall j | 0 <= j < |s'.log| && cfg.Correct(s'.log[j].who) && s'.log[j].kind == PREPARE && s'.log[j].view == v
      ensures exists p <- s'.sent :: VotedFor(cfg.crypto, s'.log[j], p)
    {
      if j < |s.log| {
        var p :| p in s.sent && VotedFor(cfg.crypto, s.log[j], p);
        assert p in s'.sent;
      } else {
        NewVoteIsForDelivered(cfg, s, a, s'.log[j]);
        ViewOfVote(cfg.crypto, s'.log[j], a.m);
        assert a.m in s'.sent;
      }
    }
  }

  lemma {:induction false} VotesFollowLeader(cfg: Config, run: seq<System>, acts: seq<Action>, v: int, k: nat)
    requires cfg.Valid() && Run(cfg, run, acts) && LeaderSpeaks(run, acts, v) && k < |run|
    ensures VotesAreForSent(cfg, run[k], v)
  {
    if k > 0 {
      VotesFollowLeader(cfg, run, acts, v, k - 1);
      RunKeeps(cfg, run, acts, k - 1);
      assert Step(cfg, run[k - 1], acts[k - 1], run[k - 1 + 1]);
      hide VotesAreForSent, SystemOk, Apply, Enabled;
      StepFollowsLeader(cfg, run[k - 1], acts[k - 1], v);
    }
  }

  lemma ViewOfVote(c: Crypto, e: Entry, p: Msg)
    requires VotedFor(c, e, p)
    ensures p.viewNumber == e.view
  {
  }

  // If the votes of a view are for proposals of its correct leader, all of them are for one
  // node, which carries the hash of the block that each voter got.
  lemma VotesAgree(cfg: Config, run: seq<System>, acts: seq<Action>, k: nat, i: nat, j: nat)
    requires cfg.Valid() && Run(cfg, run, acts) && k < |run| && i < |run[k].log| && j < |run[k].log|
    requires var d, e := run[k].log[i], run[k].log[j];
      cfg.Correct(d.who) && cfg.Correct(e.who) && d.kind == e.kind == PREPARE && d.view == e.view && LeaderSpeaks(run, acts, d.view)
    ensures var d, e := run[k].log[i], run[k].log[j];
      d.node == e.node && d.blockHash == e.blockHash == d.node.curHash
  {
    var s, d, e := run[k], run[k].log[i], run[k].log[j];
    VotesFollowLeader(cfg, run, acts, d.view, k);
    var p :| p in s.sent && VotedFor(cfg.crypto, d, p);
    var q :| q in s.sent && VotedFor(cfg.crypto, e, q);
    OneProposalPerView(cfg, run, acts, k, p, q);
  }

  lemma HeldBlockHash(cfg: Config, log: Log, i: nat, r: Replica, e: nat)
    requires ReplicaOk(cfg, log, i, r) && InVote(r) && !r.IsLeader() && e < |log|
    requires log[e].who == i && log[e].kind == PREPARE && log[e].view == r.view.viewNumber
    ensures r.blkStore.curProposalBlk.Hash(cfg.crypto.sum) == log[e].blockHash
  {
  }

  lemma DecideStores(c: Crypto, r: Replica, m: Msg)
    requires r.view.nodesNum > 0 && HandleDecide(c, r, m).1.Some?
    ensures r.curPhase == COMMIT && m.justify.viewNumber == r.view.viewNumber && CheckQC(c, m.justify, COMMIT, r.view.viewNumber)
    ensures HandleDecide(c, r, m).0.blkStore.written
      == r.blkStore.written + [r.blkStore.curProposalBlk.WithValidation(m.justify.sign)]
  {
  }

  // A replica that voted prepare in a view and decides in it stores the block it voted for,
  // validation filled in; and if the leader of the view is correct and speaks for itself, the
  // stored block is, within bounds, the one whose hash the commit certificate names.
  lemma DecidedBlockIsCertified(cfg: Config, g: Guards, run: seq<System>, acts: seq<Action>, k: nat, i: nat, m: Msg, timeStamp: int, e: nat)
    requires cfg.Valid() && GuardedRun(cfg, g, run, acts) && k < |run| && Enabled(cfg, run[k], Deliver(i, m, timeStamp)) && m.mType == DECIDE
    requires HandleDecide(cfg.crypto, run[k].replicas[i], m).1.Some?
    requires e < |run[k].log| && run[k].log[e].who == i && run[k].log[e].kind == PREPARE
    requires run[k].log[e].view == run[k].replicas[i].view.viewNumber
    ensures var written := HandleDecide(cfg.crypto, run[k].replicas[i], m).0.blkStore.written;
      && |written| == |run[k].replicas[i].blkStore.written| + 1
      && written[|written| - 1].blkHdr.validation == m.justify.sign
      && written[|written| - 1].Hash(cfg.crypto.sum) == run[k].log[e].blockHash
      && (LeaderSpeaks(run, acts, m.justify.viewNumber) && g.bounds && DigestNode(m.justify.hsNode) ==>
            written[|written| - 1].Hash(cfg.crypto.sum) == m.justify.hsNode.curHash)
  {
    GuardedRunKeeps(cfg, g, run, acts, k);
    var r, log, v := run[k].replicas[i], run[k].log, m.justify.viewNumber;
    assert ReplicaOk(cfg, log, i, r) && EntryOk(cfg, log[..e], log[e]);
    assert !r.IsLeader();
    DecideStores(cfg.crypto, r, m);
    HeldBlockHash(cfg, log, i, r, e);
    ValidationNotHashed(r.blkStore.curProposalBlk, m.justify.sign);
    hide HandleDecide, ReplicaOk, EntryOk, SafeOk, PreparesJustified;
    if LeaderSpeaks(run, acts, v) && g.bounds && DigestNode(m.justify.hsNode) {
      hide GuardedRun, LogOk;
      VerifiedIsCertified(cfg, log, m.justify.QC2SignMsgByte(), m.justify.sign);
      PrepareUnderlies(cfg, log, COMMIT, v, m.justify.hsNode);
      assert log[..|log|] == log;
      var j := SomeCorrectVote(cfg, log, |log|, SignedBytes(PREPARE, v, m.justify.hsNode));
      EntryDetermined(cfg, log, j, PREPARE, v, m.justify.hsNode);
      VotesAgree(cfg, run, acts, k, e, j);
    }
  }
}
