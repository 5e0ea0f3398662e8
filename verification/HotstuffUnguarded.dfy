/** How to build runs of four replicas, one of them faulty, in which basic HotStuff commits nodes
    on different branches; and the first such run, in which replicas accept a proposal on an
    unsigned certificate. */
module HotstuffUnguarded {
  import opened Common
  import opened Blockchain
  import opened HotstuffTypes
  import opened BasicHotstuffSpec
  import opened HotstuffLog
  import opened HotstuffSystem
  import opened HotstuffGuards
  import opened HotstuffRoundTrip
  import opened HotstuffTheorems

  /* Runs under construction */

  datatype History = History(run: seq<System>, acts: seq<Action>) {
    function Now(): System
      requires run != []
    {
      run[|run| - 1]
    }
  }

  // Replica 3 is the faulty one.
  ghost predicate Valid(cfg: Config, h: History, g: Guards) {
    cfg.Valid() && cfg.f == 1 && cfg.faulty == {3} && GuardedRun(cfg, g, h.run, h.acts) && |h.Now().replicas| == 4
  }

  ghost predicate Extends(h: History, h': History) {
    h.run <= h'.run
  }

  lemma Extend(cfg: Config, h: History, g: Guards, a: Action) returns (h': History)
    requires Valid(cfg, h, g) && Enabled(cfg, h.Now(), a) && Guarded(cfg, g, h.Now(), a)
    ensures Valid(cfg, h', g) && h'.Now() == Apply(cfg, h.Now(), a) && Extends(h, h')
  {
    hide Effect, Guarded;
    h' := History(h.run + [Apply(cfg, h.Now(), a)], h.acts + [a]);
    forall k | 0 <= k < |h'.acts| ensures Step(cfg, h'.run[k], h'.acts[k], h'.run[k + 1]) {
      if k < |h.acts| {
        assert Step(cfg, h.run[k], h.acts[k], h.run[k + 1]);
      }
    }
    hide Enabled, Apply;
    forall k | 0 <= k < |h'.acts| ensures Guarded(cfg, g, h'.run[k], h'.acts[k]) {
      if k < |h.acts| {
        assert Guarded(cfg, g, h.run[k], h.acts[k]);
      }
    }
  }

  // One more share in the log.
  ghost predicate Signed(s: System, s': System, who: nat, bytes: Bytes) {
    && |s'.log| == |s.log| + 1 && s'.log[..|s.log|] == s.log
    && s'.log[|s.log|].who == who && s'.log[|s.log|].bytes == bytes
  }

  // What a replica is like after it answered a message of phase t.
  ghost predicate Answered(c: Crypto, t: StateType, r: Replica, r1: Replica, m: Msg) {
    && r1.consId == r.consId && r1.view == r.view && r1.curPhase == t
    && r1.lockedQC == (if t == COMMIT then m.justify else r.lockedQC)
    && r1.newViewMsgs == r.newViewMsgs && r1.prepareVotes == r.prepareVotes && r1.preCommitVotes == r.preCommitVotes
    && r1.viewChangeSendFlag == r.viewChangeSendFlag
    && r1.curRoundMsg != [] && r1.curRoundMsg[|r1.curRoundMsg| - 1].viewNumber == r.view.viewNumber
    && r1.curProposal == (if t == PREPARE && r.curProposal.IsEmpty() then m.proposal else r.curProposal)
    && r1.blkStore == (if t == PREPARE then r.blkStore.(curProposalBlk := m.block, curBlkHash := m.block.Hash(c.sum)) else r.blkStore)
  }

  // Replica i is in view v, and message m makes it vote in phase t.
  ghost predicate WillAnswer(cfg: Config, s: System, g: Guards, t: StateType, v: int, i: nat, m: Msg) {
    && i < 3 && |s.replicas| == 4 && s.replicas[i].consId == i && s.replicas[i].view.viewNumber == v && s.replicas[i].view.nodesNum > 0
    && VoteType(t) && m.mType == t && MsgDerivable(s.log, m)
    && Answer(cfg.crypto, t, s.replicas[i], m).1.Some? && Kept(g, cfg.crypto, s.replicas[i], m)
  }

  lemma AnswerSent(c: Crypto, t: StateType, r: Replica, m: Msg)
    requires r.view.nodesNum > 0 && VoteType(t) && m.mType == t && Answer(c, t, r, m).1.Some?
    ensures var (r1, out) := HandleBMsg(c, r, m, 0);
      && Answered(c, t, r, r1, m)
      && NewProposals(out) == []
      && NewShares(c, r, m, out) == [VoteEntry(c, r, m, out.value)]
      && out.value.partialSig == Share(r.consId, SignedBytes(t, r.view.viewNumber, AskedNode(t, m)))
  {
    AnswerIsVote(c, t, r, m);
    hide SignedBytes, Block.Hash;
  }

  // Replica i gets m and votes.
  lemma Ask(cfg: Config, h: History, g: Guards, t: StateType, v: int, i: nat, m: Msg) returns (h': History)
    requires Valid(cfg, h, g) && WillAnswer(cfg, h.Now(), g, t, v, i, m)
    ensures Valid(cfg, h', g) && Extends(h, h')
    ensures var (s, s') := (h.Now(), h'.Now());
      && |s'.replicas| == 4 && Answered(cfg.crypto, t, s.replicas[i], s'.replicas[i], m) && s'.replicas == s.replicas[i := s'.replicas[i]]
      && Signed(s, s', i, SignedBytes(t, v, AskedNode(t, m)))
  {
    AnswerSent(cfg.crypto, t, h.Now().replicas[i], m);
    hide Answer, Answered, HandleBMsg, SignedBytes, Kept, GuardedRun;
    h' := Extend(cfg, h, g, Deliver(i, m, 0));
  }

  // Replica i handles a message on which it does not vote.
  lemma Tell(cfg: Config, h: History, g: Guards, i: nat, m: Msg) returns (h': History)
    requires Valid(cfg, h, g) && i < 3 && h.Now().replicas[i].view.nodesNum > 0 && MakesNoShare(m) && m.mType != PREPARE
    requires MsgDerivable(h.Now().log, m) && Kept(g, cfg.crypto, h.Now().replicas[i], m)
    ensures Valid(cfg, h', g) && Extends(h, h')
    ensures var (s, s') := (h.Now(), h'.Now());
      s'.log == s.log && s'.replicas == s.replicas[i := HandleBMsg(cfg.crypto, s.replicas[i], m, 0).0]
  {
    var c, r := cfg.crypto, h.Now().replicas[i];
    LeaderMakesNoShare(c, r, m, 0);
    var (r1, out) := RouteBMsg(c, r, m, 0);
    assert NewShares(c, r, m, HandleBMsg(c, r, m, 0).1) == [] by {
      hide RouteBMsg;
    }
    hide HandleBMsg, Kept, GuardedRun;
    h' := Extend(cfg, h, g, Deliver(i, m, 0));
  }

  // The faulty replica signs as well.
  lemma Sign(cfg: Config, h: History, g: Guards, bytes: Bytes) returns (h': History)
    requires Valid(cfg, h, g)
    ensures Valid(cfg, h', g) && Extends(h, h') && h'.Now().replicas == h.Now().replicas && Signed(h.Now(), h'.Now(), 3, bytes)
  {
    hide GuardedRun;
    h' := Extend(cfg, h, g, Corrupt(3, bytes));
  }

  lemma TimeOut(cfg: Config, h: History, g: Guards, i: nat, known: map<HsNode, int>) returns (h': History)
    requires Valid(cfg, h, g) && i < 3 && h.Now().replicas[i].view.nodesNum > 0 && SignedFor(h.Now().log, known)
    ensures Valid(cfg, h', g) && Extends(h, h') && SignedFor(h'.Now().log, known) && h.Now().log <= h'.Now().log
    ensures h'.Now().replicas == h.Now().replicas[i := StartViewChange(cfg.crypto, h.Now().replicas[i], false, true).0]
  {
    h' := Extend(cfg, h, g, Timeout(i, false, true));
    var log, log' := h.Now().log, h'.Now().log;
    hide Valid;
    forall k | 0 <= k < |log'| ensures KnownBytes(log'[k].bytes, known) {
      if k < |log| {
        assert log'[k] == log[k];
      }
    }
  }

  /* What was signed */

  // Nodes and the view in which each is voted for.
  ghost predicate KnownBytes(bytes: Bytes, known: map<HsNode, int>) {
    || (|bytes| > 0 && bytes[0] == NEW_VIEW)
    || (exists t, node :: node in known && bytes == SignedBytes(t, known[node], node))
  }

  ghost predicate SignedFor(log: Log, known: map<HsNode, int>) {
    forall k :: 0 <= k < |log| ==> KnownBytes(log[k].bytes, known)
  }

  // The certificate of phase t that replicas i and j and the faulty one make.
  function Cert(t: StateType, v: int, node: HsNode, i: nat, j: nat): QC {
    QC(t, v, node, Combined({i, j, 3}, SignedBytes(t, v, node)))
  }

  lemma ThreeSigned(cfg: Config, log: Log, s: System, t: StateType, v: int, node: HsNode, i: nat, j: nat, known: map<HsNode, int>)
    requires |s.log| == |log| + 3 && s.log[..|log|] == log && SignedFor(log, known) && node in known && known[node] == v
    requires s.log[|log|].who == i && s.log[|log| + 1].who == j && s.log[|log| + 2].who == 3 && i < j < 3
    requires forall k :: |log| <= k < |s.log| ==> s.log[k].bytes == SignedBytes(t, v, node)
    requires cfg.crypto.threshold == 3
    ensures SignedFor(s.log, known) && Passes(cfg, s, t, Cert(t, v, node, i, j))
    ensures {i, j, 3} <= Signers(s.log, SignedBytes(t, v, node))
  {
    var bytes := SignedBytes(t, v, node);
    assert KnownBytes(bytes, known);
    hide SignedBytes, KnownBytes;
    forall k | 0 <= k < |s.log| ensures KnownBytes(s.log[k].bytes, known) {
      if k < |log| { assert s.log[k] == log[k]; }
    }
    assert {i, j, 3} <= Signers(s.log, bytes) by {
      assert s.log[|log|].bytes == bytes && s.log[|log| + 1].bytes == bytes && s.log[|log| + 2].bytes == bytes;
    }
    assert |{i, j, 3}| == 3;
  }

  // A node in the log's signatures is a known one, in its own view.
  lemma SignedNodeIsKnown(bytes: Bytes, t: StateType, v: int, node: HsNode, known: map<HsNode, int>)
    requires KnownBytes(bytes, known) && bytes == SignedBytes(t, v, node) && t != NEW_VIEW && OneByteView(v) && DigestNode(node)
    requires forall k <- known :: DigestNode(k) && OneByteView(known[k])
    ensures node in known && known[node] == v
  {
    assert bytes[0] == t;
    var t', k :| k in known && bytes == SignedBytes(t', known[k], k);
    SignedBytesDetermine(t, v, node, t', known[k], k);
  }

  // A branch from b down to a needs a certificate for b's parent, above a's view.
  lemma NoBranch(cfg: Config, log: Log, path: seq<Link>, known: map<HsNode, int>, v: int, a: HsNode, w: int, b: HsNode)
    requires cfg.Valid() && SignedFor(log, known) && a != b
    requires forall k <- known :: DigestNode(k) && OneByteView(known[k])
    requires forall k <- known :: k.curHash == b.parentHash ==> k != a && known[k] <= v
    ensures !Branch(cfg, log, path, Link(w, b), Link(v, a))
  {
    if Branch(cfg, log, path, Link(w, b), Link(v, a)) {
      assert |path| > 1;
      var l := path[1];
      assert path[0].node.parentHash == l.node.curHash && Certified(cfg, log, PREPARE, l.view, l.node);
      var bytes := SignedBytes(PREPARE, l.view, l.node);
      hide SignedBytes, KnownBytes;
      assert Signers(log, bytes) != {};
      var who :| who in Signers(log, bytes);
      var k :| 0 <= k < |log| && log[k].bytes == bytes && log[k].who == who;
      SignedNodeIsKnown(bytes, PREPARE, l.view, l.node, known);
    }
  }

  lemma NoBranches(cfg: Config, log: Log, known: map<HsNode, int>, v: int, a: HsNode, w: int, b: HsNode)
    requires cfg.Valid() && SignedFor(log, known) && a != b
    requires forall k <- known :: DigestNode(k) && OneByteView(known[k])
    requires forall k <- known :: k.curHash == b.parentHash ==> k != a && known[k] <= v
    ensures forall path :: !Branch(cfg, log, path, Link(w, b), Link(v, a))
  {
    hide Branch, SignedFor;
    forall path ensures !Branch(cfg, log, path, Link(w, b), Link(v, a)) {
      NoBranch(cfg, log, path, known, v, a, w, b);
    }
  }

  lemma SameMessage(log: Log, longer: Log, m: Msg)
    requires log <= longer && MsgDerivable(log, m)
    ensures MsgDerivable(longer, m)
  {
    DerivableGrows(log, longer, m.justify.sign);
    DerivableGrows(log, longer, m.partialSig);
  }

  /* Phases and views */

  ghost predicate OthersSame(s: System, s': System, i: nat, j: nat) {
    && |s.replicas| == |s'.replicas| == 4
    && forall k :: 0 <= k < 3 && k != i && k != j ==> s'.replicas[k] == s.replicas[k]
  }

  // One phase: replicas i and j and the faulty one vote on m, which asks for a known node.
  lemma Round(cfg: Config, h: History, g: Guards, t: StateType, v: int, m: Msg, i: nat, j: nat, known: map<HsNode, int>) returns (h': History)
    requires Valid(cfg, h, g) && i < j && WillAnswer(cfg, h.Now(), g, t, v, i, m) && WillAnswer(cfg, h.Now(), g, t, v, j, m)
    requires AskedNode(t, m) in known && known[AskedNode(t, m)] == v
    requires SignedFor(h.Now().log, known)
    ensures Valid(cfg, h', g) && Extends(h, h') && |h'.Now().replicas| == 4
    ensures var (s, s') := (h.Now(), h'.Now());
      && Answered(cfg.crypto, t, s.replicas[i], s'.replicas[i], m) && Answered(cfg.crypto, t, s.replicas[j], s'.replicas[j], m)
      && OthersSame(s, s', i, j)
      && s.log <= s'.log && SignedFor(s'.log, known) && Passes(cfg, s', t, Cert(t, v, AskedNode(t, m), i, j))
      && {i, j, 3} <= Signers(s'.log, SignedBytes(t, v, AskedNode(t, m)))
  {
    var s, bytes := h.Now(), SignedBytes(t, v, AskedNode(t, m));
    assert cfg.crypto.threshold == 3 && i < j < 3 && |s.replicas| == 4;
    hide Answer, AskedNode, Passes, Answered, Valid, SignedFor, WillAnswer, SignedBytes, VoteType;
    var h1 := Ask(cfg, h, g, t, v, i, m);
    StillAnswers(cfg, s, h1.Now(), g, t, v, j, m);
    var h2 := Ask(cfg, h1, g, t, v, j, m);
    h' := Sign(cfg, h2, g, bytes);
    ThreeInARow(s, h1.Now(), h2.Now(), h'.Now(), i, j, bytes);
    hide Signed;
    ThreeSigned(cfg, s.log, h'.Now(), t, v, AskedNode(t, m), i, j, known);
  }

  // A replica that did not move votes on m all the same.
  lemma StillAnswers(cfg: Config, s: System, s': System, g: Guards, t: StateType, v: int, i: nat, m: Msg)
    requires WillAnswer(cfg, s, g, t, v, i, m) && |s'.replicas| == 4 && s'.replicas[i] == s.replicas[i] && s.log <= s'.log
    ensures WillAnswer(cfg, s', g, t, v, i, m)
  {
    hide Answer, Kept;
    SameMessage(s.log, s'.log, m);
  }

  lemma ThreeInARow(s: System, s1: System, s2: System, s3: System, i: nat, j: nat, bytes: Bytes)
    requires Signed(s, s1, i, bytes) && Signed(s1, s2, j, bytes) && Signed(s2, s3, 3, bytes)
    ensures |s3.log| == |s.log| + 3 && s3.log[..|s.log|] == s.log
    ensures s3.log[|s.log|].who == i && s3.log[|s.log| + 1].who == j && s3.log[|s.log| + 2].who == 3
    ensures forall k :: |s.log| <= k < |s3.log| ==> s3.log[k].bytes == bytes
  {
    var n := |s.log|;
    assert s3.log[n] == s2.log[n] == s1.log[n] && s3.log[n + 1] == s2.log[n + 1];
    forall k | 0 <= k < n ensures s3.log[k] == s.log[k] {
      assert s3.log[k] == s2.log[k] == s1.log[k];
    }
  }

  // A replica that answered one phase answers the certificate made of it.
  lemma AnswersNext(cfg: Config, s: System, g: Guards, t: StateType, v: int, i: nat, qc: QC)
    requires i < 3 && |s.replicas| == 4 && (t == PRE_COMMIT || t == COMMIT)
    requires Passes(cfg, s, t - 2, qc) && qc.viewNumber == v && (g.bounds ==> InRange(qc))
    requires var r := s.replicas[i];
      r.consId == i && r.view.viewNumber == v && r.view.nodesNum > 0 && !r.IsLeader() && r.curPhase == t - 2
    ensures WillAnswer(cfg, s, g, t, v, i, LeaderMsg(t, v, qc)) && AskedNode(t, LeaderMsg(t, v, qc)) == qc.hsNode
  {
  }

  // What the phases for the node of m leave behind at a voter that reached phase t.
  ghost predicate Reached(c: Crypto, t: StateType, v: int, r: Replica, r1: Replica, m: Msg) {
    && r1.consId == r.consId && r1.view == r.view && r1.curPhase == t && (t != COMMIT ==> r1.lockedQC == r.lockedQC)
    && r1.newViewMsgs == r.newViewMsgs && r1.prepareVotes == r.prepareVotes && r1.preCommitVotes == r.preCommitVotes
    && r1.viewChangeSendFlag == r.viewChangeSendFlag
    && r1.curRoundMsg != [] && r1.curRoundMsg[|r1.curRoundMsg| - 1].viewNumber == v && !r1.curProposal.IsEmpty()
    && r1.blkStore == r.blkStore.(curProposalBlk := m.block, curBlkHash := m.block.Hash(c.sum))
  }

  lemma ReachedOnPrepare(c: Crypto, v: int, r: Replica, r1: Replica, m: Msg)
    requires r.view.viewNumber == v && m.proposal.commands != [] && Answered(c, PREPARE, r, r1, m)
    ensures Reached(c, PREPARE, v, r, r1, m)
  {
    hide Block.Hash;
  }

  lemma ReachedNext(c: Crypto, t: StateType, v: int, r: Replica, r1: Replica, r2: Replica, m: Msg, next: Msg)
    requires r.view.viewNumber == v && VoteType(t) && t != COMMIT
    requires Reached(c, t, v, r, r1, m) && Answered(c, t + 2, r1, r2, next)
    ensures Reached(c, t + 2, v, r, r2, m) && (t == PRE_COMMIT ==> r2.lockedQC == next.justify)
  {
    hide Block.Hash;
  }

  // Replicas i and j reached phase t for the node of m.
  ghost predicate BothReached(cfg: Config, t: StateType, v: int, s: System, s1: System, m: Msg, i: nat, j: nat, known: map<HsNode, int>) {
    && i < j < 3 && OthersSame(s, s1, i, j) && s.log <= s1.log && SignedFor(s1.log, known)
    && Reached(cfg.crypto, t, v, s.replicas[i], s1.replicas[i], m) && Reached(cfg.crypto, t, v, s.replicas[j], s1.replicas[j], m)
    && Passes(cfg, s1, PREPARE, Cert(PREPARE, v, m.hsNode, i, j)) && Passes(cfg, s1, t, Cert(t, v, m.hsNode, i, j))
  }

  // Replicas i and j are different voters in view v.
  ghost predicate Voters(s: System, v: int, i: nat, j: nat) {
    && i < j < 3 && |s.replicas| == 4
    && forall k :: k == i || k == j ==> var r := s.replicas[k]; r.consId == k && r.view.viewNumber == v && r.view.nodesNum > 0 && !r.IsLeader()
  }

  // One phase more.
  lemma NextPhase(cfg: Config, h: History, s: System, g: Guards, t: StateType, v: int, m: Msg, i: nat, j: nat, known: map<HsNode, int>) returns (h': History)
    requires Valid(cfg, h, g) && (t == PREPARE || t == PRE_COMMIT) && Voters(s, v, i, j) && BothReached(cfg, t, v, s, h.Now(), m, i, j, known)
    requires m.hsNode in known && known[m.hsNode] == v && (g.bounds ==> OneByteView(v) && DigestNode(m.hsNode))
    ensures Valid(cfg, h', g) && Extends(h, h') && BothReached(cfg, t + 2, v, s, h'.Now(), m, i, j, known)
    ensures |h'.Now().replicas| == 4 && j < 3
    ensures t == PRE_COMMIT ==> var lock := Cert(PRE_COMMIT, v, m.hsNode, i, j);
      h'.Now().replicas[i].lockedQC == lock && h'.Now().replicas[j].lockedQC == lock
  {
    var s1, qc := h.Now(), Cert(t, v, m.hsNode, i, j);
    var next := LeaderMsg(t + 2, v, qc);
    AnswersNext(cfg, s1, g, t + 2, v, i, qc);
    AnswersNext(cfg, s1, g, t + 2, v, j, qc);
    hide Passes, SignedFor, Signers, WillAnswer, Valid, SignedBytes, Answered, Reached;
    h' := Round(cfg, h, g, t + 2, v, next, i, j, known);
    ReachedNext(cfg.crypto, t, v, s.replicas[i], s1.replicas[i], h'.Now().replicas[i], m, next);
    ReachedNext(cfg.crypto, t, v, s.replicas[j], s1.replicas[j], h'.Now().replicas[j], m, next);
    StaysVerified(cfg, s1.log, h'.Now(), PREPARE, Cert(PREPARE, v, m.hsNode, i, j), s1);
  }

  lemma FirstPhase(cfg: Config, h: History, g: Guards, v: int, m: Msg, i: nat, j: nat, known: map<HsNode, int>) returns (h': History)
    requires Valid(cfg, h, g) && i < j && WillAnswer(cfg, h.Now(), g, PREPARE, v, i, m) && WillAnswer(cfg, h.Now(), g, PREPARE, v, j, m)
    requires m.hsNode in known && known[m.hsNode] == v && (g.bounds ==> OneByteView(v) && DigestNode(m.hsNode)) && SignedFor(h.Now().log, known)
    requires m.proposal.commands != []
    ensures Valid(cfg, h', g) && Extends(h, h') && Voters(h.Now(), v, i, j) && BothReached(cfg, PREPARE, v, h.Now(), h'.Now(), m, i, j, known)
  {
    var s := h.Now();
    VoterOf(cfg, s, g, v, i, m);
    VoterOf(cfg, s, g, v, j, m);
    hide Passes, SignedFor, WillAnswer, Valid, SignedBytes, Answered, Reached, DigestNode, Signers;
    h' := Round(cfg, h, g, PREPARE, v, m, i, j, known);
    ReachedOnPrepare(cfg.crypto, v, s.replicas[i], h'.Now().replicas[i], m);
    ReachedOnPrepare(cfg.crypto, v, s.replicas[j], h'.Now().replicas[j], m);
  }

  // Three phases for one node: all its certificates come out, and the voters lock on it.
  lemma ThreePhases(cfg: Config, h: History, g: Guards, v: int, m: Msg, i: nat, j: nat, known: map<HsNode, int>) returns (h': History)
    requires Valid(cfg, h, g) && i < j && WillAnswer(cfg, h.Now(), g, PREPARE, v, i, m) && WillAnswer(cfg, h.Now(), g, PREPARE, v, j, m)
    requires m.hsNode in known && known[m.hsNode] == v && (g.bounds ==> OneByteView(v) && DigestNode(m.hsNode)) && SignedFor(h.Now().log, known)
    requires m.proposal.commands != []
    ensures Valid(cfg, h', g) && Extends(h, h') && BothReached(cfg, COMMIT, v, h.Now(), h'.Now(), m, i, j, known)
    ensures var lock := Cert(PRE_COMMIT, v, m.hsNode, i, j);
      |h'.Now().replicas| == 4 && j < 3 && h'.Now().replicas[i].lockedQC == lock && h'.Now().replicas[j].lockedQC == lock
  {
    assert h.run != [];
    hide SignedFor, WillAnswer, Valid, BothReached, Voters;
    var h1 := FirstPhase(cfg, h, g, v, m, i, j, known);
    var h2 := NextPhase(cfg, h1, h.Now(), g, PREPARE, v, m, i, j, known);
    h' := NextPhase(cfg, h2, h.Now(), g, PRE_COMMIT, v, m, i, j, known);
  }

  lemma VoterOf(cfg: Config, s: System, g: Guards, v: int, i: nat, m: Msg)
    requires WillAnswer(cfg, s, g, PREPARE, v, i, m)
    ensures i < 3 && |s.replicas| == 4 && AskedNode(PREPARE, m) == m.hsNode
    ensures var r := s.replicas[i]; r.consId == i && r.view.viewNumber == v && r.view.nodesNum > 0 && !r.IsLeader()
  {
  }

  lemma StaysVerified(cfg: Config, log: Log, s': System, t: StateType, qc: QC, s: System)
    requires s.log == log <= s'.log && Passes(cfg, s, t, qc)
    ensures Passes(cfg, s', t, qc)
  {
    DerivableGrows(s.log, s'.log, qc.sign);
  }

  // The replica is in view v and waits for a proposal.
  predicate Waits(r: Replica, i: nat, v: int) {
    r.consId == i && r.view == View(v, LeaderAt(v, 4), 4) && r.curPhase == NEW_VIEW
  }

  lemma TimedOut(c: Crypto, r: Replica, i: nat, v: int)
    requires r.consId == i && r.view == View(v, LeaderAt(v, 4), 4)
    ensures var r1 := StartViewChange(c, r, false, true).0;
      && Waits(r1, i, v + 1) && r1.lockedQC == r.lockedQC && r1.curProposal == r.curProposal && r1.blkStore == r.blkStore
      && r1.viewChangeSendFlag == r.viewChangeSendFlag
      && r1.newViewMsgs == r.newViewMsgs && r1.prepareVotes == r.prepareVotes && r1.preCommitVotes == r.preCommitVotes
  {
    ModSucc(v, 4);
  }

  /* Without genuine certificates */

  const WITHOUT_JUSTIFY := ALL_GUARDS.(justify := false)

  // A proposal of one command.
  function Ask1(v: int, node: HsNode, justify: QC, cmd: Bytes): Msg {
    NO_MSG.(mType := PREPARE, viewNumber := v, hsNode := node, justify := justify, proposal := NO_PROPOSAL.(commands := [cmd]))
  }

  lemma AnswersProposal(cfg: Config, s: System, g: Guards, v: int, i: nat, m: Msg)
    requires i < 3 && |s.replicas| == 4 && m.mType == PREPARE && m.viewNumber == v
    requires g.bounds ==> OneByteView(v) && DigestNode(m.hsNode)
    requires MsgDerivable(s.log, m) && m.proposal.commands != []
    requires var r := s.replicas[i];
      && r.consId == i && r.view.viewNumber == v && r.view.nodesNum > 0 && !r.IsLeader() && r.curPhase == NEW_VIEW
      && (v != 0 ==> CheckNewHsNode(r, m) && (g.justify && m.hsNode.parentHash != r.lockedQC.hsNode.curHash ==> GenuineJustify(cfg.crypto, m)))
    ensures WillAnswer(cfg, s, g, PREPARE, v, i, m)
  {
  }

  lemma Start(cfg: Config, g: Guards) returns (h: History)
    requires cfg.Valid() && cfg.f == 1 && cfg.faulty == {3}
    ensures Valid(cfg, h, g) && h.Now() == Init(cfg) && h.Now().log == []
  {
    h := History([Init(cfg)], []);
  }

  // Replicas 0 and 2 are in view 1, with locks of view 0 at most, and a was committed in view 0.
  ghost predicate MovedOn(cfg: Config, s: System, a: HsNode, known: map<HsNode, int>) {
    && SignedFor(s.log, known) && Passes(cfg, s, COMMIT, Cert(COMMIT, 0, a, 1, 2))
    && |s.replicas| == 4 && Waits(s.replicas[0], 0, 1) && Waits(s.replicas[2], 2, 1)
    && s.replicas[0].lockedQC.viewNumber <= 0 && s.replicas[2].lockedQC.viewNumber <= 0
  }

  // View 0: replicas 1 and 2 commit a; then replicas 0 and 2 time out.
  lemma FirstCommit(cfg: Config, a: HsNode, cmd: Bytes, known: map<HsNode, int>) returns (h: History)
    requires cfg.Valid() && cfg.f == 1 && cfg.faulty == {3} && DigestNode(a) && a in known && known[a] == 0
    ensures Valid(cfg, h, WITHOUT_JUSTIFY) && MovedOn(cfg, h.Now(), a, known)
  {
    var g, m := WITHOUT_JUSTIFY, Ask1(0, a, NO_QC, cmd);
    var h0 := Start(cfg, g);
    hide Passes, Valid, WillAnswer, Signers, SignedBytes;
    AnswersProposal(cfg, h0.Now(), g, 0, 1, m);
    AnswersProposal(cfg, h0.Now(), g, 0, 2, m);
    hide HandleBMsg, HandlePrepare;
    var h1 := ThreePhases(cfg, h0, g, 0, m, 1, 2, known);
    var s1 := h1.Now();
    assert s1.replicas[0] == h0.Now().replicas[0];
    TimedOut(cfg.crypto, s1.replicas[0], 0, 0);
    TimedOut(cfg.crypto, s1.replicas[2], 2, 0);
    hide StartViewChange, Reached, SignedFor;
    var h2 := TimeOut(cfg, h1, g, 0, known);
    h := TimeOut(cfg, h2, g, 2, known);
    StaysVerified(cfg, s1.log, h.Now(), COMMIT, Cert(COMMIT, 0, a, 1, 2), s1);
  }

  lemma AcceptsForged(cfg: Config, s: System, i: nat, a: HsNode, b: HsNode, cmd: Bytes, known: map<HsNode, int>)
    requires MovedOn(cfg, s, a, known) && DigestNode(b) && b.parentHash != [] && (i == 0 || i == 2)
    ensures WillAnswer(cfg, s, WITHOUT_JUSTIFY, PREPARE, 1, i, Ask1(1, b, Forged(b), cmd))
  {
    hide Passes, SignedFor, WillAnswer;
    AnswersProposal(cfg, s, WITHOUT_JUSTIFY, 1, i, Ask1(1, b, Forged(b), cmd));
  }

  // An unsigned certificate of view 1 for a parent of b.
  function Forged(b: HsNode): QC {
    QC(PREPARE, 1, HsNode(b.parentHash, []), NoSign)
  }

  // View 1: replicas 0 and 2 commit b.
  lemma SecondCommit(cfg: Config, h: History, a: HsNode, b: HsNode, cmd: Bytes, known: map<HsNode, int>) returns (h': History)
    requires Valid(cfg, h, WITHOUT_JUSTIFY) && MovedOn(cfg, h.Now(), a, known)
    requires DigestNode(b) && b in known && known[b] == 1 && b.parentHash != []
    ensures Valid(cfg, h', WITHOUT_JUSTIFY) && SignedFor(h'.Now().log, known)
    ensures Passes(cfg, h'.Now(), COMMIT, Cert(COMMIT, 0, a, 1, 2)) && Passes(cfg, h'.Now(), COMMIT, Cert(COMMIT, 1, b, 0, 2))
  {
    MovedOnMeans(cfg, h.Now(), a, known);
    AcceptsForged(cfg, h.Now(), 0, a, b, cmd, known);
    AcceptsForged(cfg, h.Now(), 2, a, b, cmd, known);
    hide Passes, Valid, WillAnswer, Signers, SignedBytes, MovedOn, SignedFor, DigestNode, Reached, OthersSame;
    h' := ThreePhases(cfg, h, WITHOUT_JUSTIFY, 1, Ask1(1, b, Forged(b), cmd), 0, 2, known);
    StaysVerified(cfg, h.Now().log, h'.Now(), COMMIT, Cert(COMMIT, 0, a, 1, 2), h.Now());
  }

  // Replicas 1 and 2 commit a in view 0. Replicas 0 and 2 time out and commit b in view 1: its
  // proposal comes with an unsigned certificate that claims view 1, newer than any lock. All
  // guards but that on justifies are kept, both commit certificates verify in the end, and no
  // branch joins their nodes.
  lemma AgreementNeedsGenuineJustify(cfg: Config, a: HsNode, b: HsNode, cmd: Bytes) returns (h: History)
    requires cfg.Valid() && cfg.f == 1 && cfg.faulty == {3}
    requires DigestNode(a) && DigestNode(b) && a != b && b.parentHash != []
    requires b.parentHash != a.curHash && b.parentHash != b.curHash
    ensures GuardedRun(cfg, WITHOUT_JUSTIFY, h.run, h.acts)
    ensures var (s, qa, qb) := (h.Now(), Cert(COMMIT, 0, a, 1, 2), Cert(COMMIT, 1, b, 0, 2));
      Verifies(cfg, s, COMMIT, qa) && Verifies(cfg, s, COMMIT, qb) && forall path :: !Branch(cfg, s.log, path, Link(1, b), Link(0, a))
  {
    var known := map[a := 0, b := 1];
    assert a in known && b in known && known[a] == 0 && known[b] == 1;
    hide Passes, Valid, GuardedRun, Branch, MovedOn, DigestNode, SignedFor;
    var h1 := FirstCommit(cfg, a, cmd, known);
    h := SecondCommit(cfg, h1, a, b, cmd, known);
    NoBranches(cfg, h.Now().log, known, 0, a, 1, b);
    ValidMeans(cfg, h, WITHOUT_JUSTIFY);
  }

  lemma MovedOnMeans(cfg: Config, s: System, a: HsNode, known: map<HsNode, int>)
    requires MovedOn(cfg, s, a, known)
    ensures SignedFor(s.log, known) && Passes(cfg, s, COMMIT, Cert(COMMIT, 0, a, 1, 2))
  {
  }

  lemma ValidMeans(cfg: Config, h: History, g: Guards)
    requires Valid(cfg, h, g)
    ensures GuardedRun(cfg, g, h.run, h.acts)
  {
  }
}
