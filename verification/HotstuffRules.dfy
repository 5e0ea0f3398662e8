/** What makes a replica of basic HotStuff vote, certify, decide and propose, each with its exact
    condition; and what stands behind every proposal of a run. */
module HotstuffRules {
  import opened Common
  import opened Blockchain
  import opened HotstuffTypes
  import opened BasicHotstuffSpec
  import opened HotstuffLog
  import opened HotstuffSystem
  import Merkle

  // A certificate of type t and view v that verifies.
  predicate Valid(c: Crypto, qc: QC, t: StateType, v: int) {
    qc.qType == t && qc.viewNumber == v && c.ThresholdSignVerify(SignedBytes(t, v, qc.hsNode), qc.sign)
  }

  // After view 0 a proposal must extend the node of its certificate, and either the locked node
  // is its parent or the certificate claims a view above the lock.
  lemma PrepareAnsweredIff(c: Crypto, r: Replica, m: Msg)
    requires r.view.nodesNum > 0 && m.mType == PREPARE
    ensures HandleBMsg(c, r, m, 0).1.Some? <==>
      && r.curPhase == NEW_VIEW && !r.IsLeader() && m.viewNumber == r.view.viewNumber && m.proposal.commands != []
      && (r.view.viewNumber != 0 ==>
            && m.hsNode.parentHash == m.justify.hsNode.curHash != []
            && (r.lockedQC.hsNode.curHash == m.hsNode.parentHash || m.justify.viewNumber > r.lockedQC.viewNumber))
  {
    hide Block.Hash, SignedBytes;
  }

  lemma PreCommitAnsweredIff(c: Crypto, r: Replica, m: Msg)
    requires r.view.nodesNum > 0 && m.mType == PRE_COMMIT
    ensures HandleBMsg(c, r, m, 0).1.Some? <==>
      (r.curPhase == NEW_VIEW || r.curPhase == PREPARE) && !r.IsLeader() && m.viewNumber == r.view.viewNumber
      && Valid(c, m.justify, PREPARE, r.view.viewNumber)
  {
    hide SignedBytes;
  }

  lemma CommitAnsweredIff(c: Crypto, r: Replica, m: Msg)
    requires r.view.nodesNum > 0 && m.mType == COMMIT
    ensures HandleBMsg(c, r, m, 0).1.Some? <==>
      r.curPhase == PRE_COMMIT && !r.IsLeader() && m.viewNumber == r.view.viewNumber && Valid(c, m.justify, PRE_COMMIT, r.view.viewNumber)
  {
    hide SignedBytes;
  }

  // A leader decides like the others.
  lemma DecideAnsweredIff(c: Crypto, r: Replica, m: Msg)
    requires r.view.nodesNum > 0 && m.mType == DECIDE
    ensures HandleBMsg(c, r, m, 0).1.Some? <==>
      r.curPhase == COMMIT && m.viewNumber == r.view.viewNumber && Valid(c, m.justify, COMMIT, r.view.viewNumber)
  {
    hide SignedBytes, Block.Hash;
  }

  // The votes that a leader has in phase t when m comes in.
  function VotesWith(r: Replica, t: StateType, m: Msg): seq<Msg> {
    var votes := if t == PREPARE then r.prepareVotes else if t == PRE_COMMIT then r.preCommitVotes else r.commitVotes;
    if m.viewNumber == r.view.viewNumber then votes + [m] else votes
  }

  // A vote makes a leader certify exactly when it collects such votes, has more than (n-1)/3*2 of
  // them with this one, and their shares combine over its own node. It broadcasts the certificate.
  lemma VoteCertifiesIff(c: Crypto, r: Replica, t: StateType, m: Msg)
    requires r.view.nodesNum > 0 && VoteType(t) && m.mType == t + 1
    ensures var out := HandleBMsg(c, r, m, 0).1;
      && (out.Some? <==>
            && r.curPhase == t && r.IsLeader() && |VotesWith(r, t, m)| > (r.view.nodesNum - 1) / 3 * 2
            && c.combineSig(SignedBytes(t, r.view.viewNumber, r.hsNode), Shares(VotesWith(r, t, m))) != NoSign)
      && (out.Some? ==> out.value.mType == t + 2 && out.value.reciNode == Broadcast)
  {
    hide SignedBytes, Shares, HandleNewView, HandlePrepare, HandlePreCommit, HandleCommit, HandleDecide;
  }

  // A request is proposed exactly when the leader waits and has more than (n-1)/3*2 new-view
  // messages; the first leader needs none for its first proposal.
  lemma RequestProposesIff(c: Crypto, r: Replica, height: int, preHash: Bytes, cmds: seq<Bytes>, signs: seq<Bytes>, timeStamp: int)
    requires r.Valid()
    ensures var (r1, out) := HandleReq(c, r, height, preHash, cmds, signs, timeStamp);
      && (out.Some? <==> r.curPhase == WAITING && (|r.newViewMsgs| > (r.view.nodesNum - 1) / 3 * 2 || r.ignoreCheckQC))
      && r1.ignoreCheckQC == (r.ignoreCheckQC && out.None?)
      && r1.curRoundMsg == (if out.Some? then r.curRoundMsg + [out.value] else r.curRoundMsg)
      && r1.curProposal.commands == cmds && r1.curProposal.rootHash == Merkle.MerkleTreeHash(c.sum, cmds)
      && (out.Some? ==> out.value.mType == PREPARE && out.value.proposal == r1.curProposal && out.value.reciNode == Broadcast)
  {
    hide GetHighQCIndex, Store.GenNewBlock, CutOff, Merkle.MerkleTreeHash;
  }

  // A new-view message counts if it is of the view and carries a prepare certificate of the last
  // round's view. It makes the leader propose what it holds exactly when it has more than
  // (n-1)/3*2 of them then.
  lemma ReportProposesIff(c: Crypto, r: Replica, m: Msg, timeStamp: int)
    requires r.view.nodesNum > 0 && m.mType == NEW_VIEW
    ensures var counts := m.viewNumber == r.view.viewNumber && Valid(c, m.justify, PREPARE, LastRoundView(r));
      var (r1, out) := HandleBMsg(c, r, m, timeStamp);
      && (out.Some? <==>
            && (r.curPhase == NEW_VIEW || r.curPhase == WAITING) && r.IsLeader() && r.curProposal.commands != []
            && |r.newViewMsgs| + (if counts then 1 else 0) > (r.view.nodesNum - 1) / 3 * 2)
      && (out.Some? ==> out.value.mType == PREPARE && out.value.proposal == r.curProposal && out.value.reciNode == Broadcast)
      && r1.ignoreCheckQC == r.ignoreCheckQC
      && (r1.curPhase == WAITING && r.curPhase != WAITING ==> |r1.newViewMsgs| > (r.view.nodesNum - 1) / 3 * 2)
  {
    hide SignedBytes, GetHighQCIndex, Store.GenNewBlock, HandlePrepare, HandlePreCommit, HandleCommit, HandleDecide,
      HandlePrepareVote, HandlePreCommitVote, HandleCommitVote;
  }

  // The first leader starts waiting, with one message and no quorum, and proposes the first request.
  lemma FirstRequestIsProposed(c: Crypto, n: nat, height: int, preHash: Bytes, cmds: seq<Bytes>, signs: seq<Bytes>, timeStamp: int)
    requires n > 0
    ensures var r := InitLeader(c, NewReplica(c, 0, n));
      && r.Valid() && |r.newViewMsgs| == 1
      && var (r1, out) := HandleReq(c, r, height, preHash, cmds, signs, timeStamp);
      && out.Some? && out.value.viewNumber == 0 && out.value.proposal.commands == cmds
      && !HandleReq(c, r1, height, preHash, cmds, signs, timeStamp).1.Some?
  {
    var r := InitLeader(c, NewReplica(c, 0, n));
    RequestProposesIff(c, r, height, preHash, cmds, signs, timeStamp);
    hide GetHighQCIndex, Store.GenNewBlock, CutOff, Merkle.MerkleTreeHash;
  }

  /* Behind every proposal of a run is a quorum of new-view messages */

  // A waiting leader has a quorum of them, or is in view 0.
  ghost predicate QuorumOk(cfg: Config, r: Replica) {
    r.curPhase == WAITING ==> |r.newViewMsgs| > (cfg.N() - 1) / 3 * 2 || r.view.viewNumber == 0
  }

  lemma DeliverWaits(c: Crypto, r: Replica, m: Msg, timeStamp: int)
    requires r.view.nodesNum > 0
    ensures var r1 := HandleBMsg(c, r, m, timeStamp).0;
      r1.curPhase == WAITING ==>
        || |r1.newViewMsgs| > (r.view.nodesNum - 1) / 3 * 2
        || (r.curPhase == WAITING && r1.view == r.view && |r1.newViewMsgs| >= |r.newViewMsgs|)
  {
    hide GetHighQCIndex, Store.GenNewBlock, CombineSign, CheckQC, Block.Hash, CheckNewHsNode;
  }

  // One action of a replica whose view has n nodes keeps this.
  lemma ActionWaits(cfg: Config, s: System, a: Action)
    requires Enabled(cfg, s, a) && QuorumOk(cfg, s.replicas[a.i]) && s.replicas[a.i].view.nodesNum == cfg.N()
    ensures QuorumOk(cfg, Effect(cfg, s, a).0)
  {
    var r := s.replicas[a.i];
    hide HandleBMsg, HandleReq;
    match a
    case Deliver(_, m, timeStamp) => DeliverWaits(cfg.crypto, r, m, timeStamp);
    case Timeout(_, _, _) =>
    case Request(_, height, preHash, cmds, signs, timeStamp) => RequestWaits(cfg.crypto, r, height, preHash, cmds, signs, timeStamp);
    case Corrupt(_, _) =>
  }

  lemma StepWaits(cfg: Config, s: System, a: Action, i: nat)
    requires cfg.Valid() && SystemOk(cfg, s) && Enabled(cfg, s, a) && cfg.Correct(i) && QuorumOk(cfg, s.replicas[i])
    ensures QuorumOk(cfg, Apply(cfg, s, a).replicas[i])
  {
    assert ReplicaOk(cfg, s.log, i, s.replicas[i]);
    NodesOf(cfg, s.log, i, s.replicas[i]);
    hide SystemOk, ReplicaOk, Effect, QuorumOk, Enabled;
    if a.i == i { ActionWaits(cfg, s, a); }
  }

  lemma NodesOf(cfg: Config, log: Log, i: nat, r: Replica)
    requires ReplicaOk(cfg, log, i, r)
    ensures r.view.nodesNum == cfg.N() && r.view.leader == r.view.viewNumber % cfg.N() && r.consId == i
  {
  }

  lemma RequestWaits(c: Crypto, r: Replica, height: int, preHash: Bytes, cmds: seq<Bytes>, signs: seq<Bytes>, timeStamp: int)
    requires r.Valid()
    ensures var r1 := HandleReq(c, r, height, preHash, cmds, signs, timeStamp).0;
      r1.curPhase == WAITING ==> r.curPhase == WAITING && r1.view == r.view && r1.newViewMsgs == r.newViewMsgs
  {
    hide GetHighQCIndex, Store.GenNewBlock, CutOff, Merkle.MerkleTreeHash;
  }

  lemma InitWaits(cfg: Config, i: nat)
    requires cfg.Correct(i)
    ensures QuorumOk(cfg, Init(cfg).replicas[i])
  {
  }

  lemma {:induction false} RunWaits(cfg: Config, run: seq<System>, acts: seq<Action>, k: nat, i: nat)
    requires cfg.Valid() && Run(cfg, run, acts) && k < |run| && cfg.Correct(i)
    ensures SystemOk(cfg, run[k]) && QuorumOk(cfg, run[k].replicas[i])
  {
    RunKeeps(cfg, run, acts, k);
    hide SystemOk, Enabled, Apply, InitLeader, NewReplica;
    if k == 0 {
      InitWaits(cfg, i);
    } else {
      hide QuorumOk;
      RunWaits(cfg, run, acts, k - 1, i);
      assert Step(cfg, run[k - 1], acts[k - 1], run[k - 1 + 1]);
      StepWaits(cfg, run[k - 1], acts[k - 1], i);
    }
  }

  lemma DeliverBacks(cfg: Config, r: Replica, i: nat, m: Msg, timeStamp: int)
    requires r.view.nodesNum == cfg.N() && r.view.leader == r.view.viewNumber % cfg.N() && r.consId == i
    requires NewProposals(HandleBMsg(cfg.crypto, r, m, timeStamp).1) != []
    ensures var p := NewProposals(HandleBMsg(cfg.crypto, r, m, timeStamp).1)[0];
      p.viewNumber == r.view.viewNumber && i == p.viewNumber % cfg.N() && |r.newViewMsgs| + 1 > (cfg.N() - 1) / 3 * 2
  {
    DeliverProposes(cfg.crypto, r, m, timeStamp);
    OnlyReportsPropose(cfg.crypto, r, m, timeStamp);
    ReportProposesIff(cfg.crypto, r, m, timeStamp);
    hide HandleBMsg;
  }

  lemma RequestBacks(cfg: Config, r: Replica, i: nat, height: int, preHash: Bytes, cmds: seq<Bytes>, signs: seq<Bytes>, timeStamp: int)
    requires r.Valid() && r.view.nodesNum == cfg.N() && r.view.leader == r.view.viewNumber % cfg.N() && r.consId == i
    requires (r.curPhase == WAITING ==> r.IsLeader()) && QuorumOk(cfg, r)
    requires NewProposals(HandleReq(cfg.crypto, r, height, preHash, cmds, signs, timeStamp).1) != []
    ensures var p := NewProposals(HandleReq(cfg.crypto, r, height, preHash, cmds, signs, timeStamp).1)[0];
      && p.viewNumber == r.view.viewNumber && i == p.viewNumber % cfg.N()
      && (p.viewNumber != 0 ==> |r.newViewMsgs| > (cfg.N() - 1) / 3 * 2)
  {
    RequestProposes(cfg.crypto, r, height, preHash, cmds, signs, timeStamp);
    RequestProposesIff(cfg.crypto, r, height, preHash, cmds, signs, timeStamp);
    hide HandleReq;
  }

  lemma StepProposes(cfg: Config, s: System, a: Action)
    requires cfg.Valid() && SystemOk(cfg, s) && Enabled(cfg, s, a) && Effect(cfg, s, a).2 != []
    requires cfg.Correct(a.i) ==> QuorumOk(cfg, s.replicas[a.i])
    ensures |Effect(cfg, s, a).2| == 1 && cfg.Correct(a.i)
    ensures var p, r := Effect(cfg, s, a).2[0], s.replicas[a.i];
      && p.viewNumber == r.view.viewNumber && a.i == p.viewNumber % cfg.N()
      && (p.viewNumber > 0 ==> |r.newViewMsgs| + (if a.Deliver? then 1 else 0) > (cfg.N() - 1) / 3 * 2)
  {
    hide HandleBMsg, HandleReq, StartViewChange, QuorumOk;
    var r := s.replicas[a.i];
    assert cfg.Correct(a.i) && ReplicaOk(cfg, s.log, a.i, r);
    assert r.curPhase == WAITING ==> r.IsLeader();
    NodesOf(cfg, s.log, a.i, r);
    hide SystemOk, ReplicaOk;
    if a.Deliver? { DeliverBacks(cfg, r, a.i, a.m, a.timeStamp); }
    if a.Request? { RequestBacks(cfg, r, a.i, a.height, a.preHash, a.cmds, a.signs, a.timeStamp); }
  }

  // Whoever proposes in a run leads the view, and after view 0 it has collected more than
  // (n-1)/3*2 new-view messages since its last decision, this one included if one made it propose.
  lemma QuorumBehindProposal(cfg: Config, run: seq<System>, acts: seq<Action>, k: nat)
    requires cfg.Valid() && Run(cfg, run, acts) && k < |acts| && run[k + 1].sent != run[k].sent
    ensures run[k + 1].sent != [] && acts[k].i < |run[k].replicas| && cfg.Correct(acts[k].i)
    ensures var p, r := run[k + 1].sent[|run[k + 1].sent| - 1], run[k].replicas[acts[k].i];
      && p.viewNumber == r.view.viewNumber && acts[k].i == p.viewNumber % cfg.N()
      && (p.viewNumber > 0 ==> |r.newViewMsgs| + (if acts[k].Deliver? then 1 else 0) > (cfg.N() - 1) / 3 * 2)
  {
    var s, a := run[k], acts[k];
    assert Step(cfg, s, a, run[k + 1]);
    RunKeeps(cfg, run, acts, k);
    if cfg.Correct(a.i) { RunWaits(cfg, run, acts, k, a.i); }
    hide Run, SystemOk, Effect, QuorumOk;
    assert run[k + 1].sent == s.sent + Effect(cfg, s, a).2;
    StepProposes(cfg, s, a);
  }

  lemma OnlyReportsPropose(c: Crypto, r: Replica, m: Msg, timeStamp: int)
    requires r.view.nodesNum > 0
    ensures NewProposals(HandleBMsg(c, r, m, timeStamp).1) != [] ==> m.mType == NEW_VIEW
  {
    hide HandleNewView, CombineSign, CheckQC, CheckNewHsNode, Block.Hash;
  }
}
