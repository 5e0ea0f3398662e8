/** The third run: a node whose current hash is longer than a digest is certified, and so is one
    cut at another place, and agreement fails. */
module HotstuffUnbounded {
  import opened Common
  import opened Blockchain
  import opened HotstuffTypes
  import opened BasicHotstuffSpec
  import opened HotstuffLog
  import opened HotstuffSystem
  import opened HotstuffGuards
  import opened HotstuffRoundTrip
  import opened HotstuffTheorems
  import opened HotstuffUnguarded

  const WITHOUT_BOUNDS := ALL_GUARDS.(bounds := false)

  // The node that signs like a, with a current hash of the length of a digest.
  function CutAt(a: HsNode): HsNode
    requires |a.curHash| >= DIGEST_LENGTH
  {
    HsNode(a.curHash[..DIGEST_LENGTH], a.curHash[DIGEST_LENGTH..] + a.parentHash)
  }

  function CutCert(t: StateType, v: int, a: HsNode, i: nat, j: nat): QC
    requires |a.curHash| >= DIGEST_LENGTH
  {
    QC(t, v, CutAt(a), Cert(t, v, a, i, j).sign)
  }

  lemma CutVerifies(cfg: Config, s: System, t: StateType, v: int, a: HsNode, i: nat, j: nat)
    requires |a.curHash| >= DIGEST_LENGTH && OneByteView(v) && Passes(cfg, s, t, Cert(t, v, a, i, j))
    ensures Verifies(cfg, s, t, CutCert(t, v, a, i, j))
  {
    assert a.curHash + a.parentHash == CutAt(a).curHash + CutAt(a).parentHash;
    SignedBytesAgree(t, v, a, t, v, CutAt(a));
  }

  // The second node of a branch has the parent's hash, of digest length, and a later view.
  lemma BranchHasParent(cfg: Config, log: Log, path: seq<Link>, top: Link, bottom: Link)
    requires top != bottom && Branch(cfg, log, path, top, bottom)
    ensures |top.node.parentHash| == DIGEST_LENGTH && top.view > bottom.view
  {
    assert path[0].node.parentHash == path[1].node.curHash && DigestNode(path[1].node);
  }

  // Replicas 1 and 2 are in view v and locked on a, which was committed in view 0.
  ghost predicate Locked(cfg: Config, s: System, v: int, a: HsNode, known: map<HsNode, int>) {
    && SignedFor(s.log, known) && |s.replicas| == 4
    && Passes(cfg, s, PREPARE, Cert(PREPARE, 0, a, 1, 2)) && Passes(cfg, s, COMMIT, Cert(COMMIT, 0, a, 1, 2))
    && Waits(s.replicas[1], 1, v) && s.replicas[1].lockedQC == Cert(PRE_COMMIT, 0, a, 1, 2)
    && Waits(s.replicas[2], 2, v) && s.replicas[2].lockedQC == Cert(PRE_COMMIT, 0, a, 1, 2)
  }

  lemma BothTimeOut(cfg: Config, h: History, v: int, a: HsNode, known: map<HsNode, int>) returns (h': History)
    requires Valid(cfg, h, WITHOUT_BOUNDS) && Locked(cfg, h.Now(), v, a, known)
    ensures Valid(cfg, h', WITHOUT_BOUNDS) && Locked(cfg, h'.Now(), v + 1, a, known)
  {
    var g, s := WITHOUT_BOUNDS, h.Now();
    TimedOut(cfg.crypto, s.replicas[1], 1, v);
    TimedOut(cfg.crypto, s.replicas[2], 2, v);
    hide StartViewChange, Passes, SignedFor, GuardedRun;
    var h1 := TimeOut(cfg, h, g, 1, known);
    h' := TimeOut(cfg, h1, g, 2, known);
    StaysVerified(cfg, s.log, h'.Now(), PREPARE, Cert(PREPARE, 0, a, 1, 2), s);
    StaysVerified(cfg, s.log, h'.Now(), COMMIT, Cert(COMMIT, 0, a, 1, 2), s);
  }

  lemma {:induction false} TimeOutUntil(cfg: Config, h: History, v: int, w: int, a: HsNode, known: map<HsNode, int>) returns (h': History)
    requires Valid(cfg, h, WITHOUT_BOUNDS) && Locked(cfg, h.Now(), v, a, known) && v <= w
    ensures Valid(cfg, h', WITHOUT_BOUNDS) && Locked(cfg, h'.Now(), w, a, known)
    decreases w - v
  {
    h' := h;
    if v < w {
      h' := BothTimeOut(cfg, h, v, a, known);
      h' := TimeOutUntil(cfg, h', v + 1, w, a, known);
    }
  }

  // View 0: replicas 1 and 2 commit a; then they time out.
  lemma LongCommitted(cfg: Config, a: HsNode, cmd: Bytes, known: map<HsNode, int>) returns (h: History)
    requires cfg.Valid() && cfg.f == 1 && cfg.faulty == {3} && a in known && known[a] == 0
    ensures Valid(cfg, h, WITHOUT_BOUNDS) && Locked(cfg, h.Now(), 1, a, known)
  {
    var g, m := WITHOUT_BOUNDS, Ask1(0, a, NO_QC, cmd);
    var h0 := Start(cfg, g);
    hide Passes, Valid, WillAnswer, Signers, SignedBytes;
    AnswersProposal(cfg, h0.Now(), g, 0, 1, m);
    AnswersProposal(cfg, h0.Now(), g, 0, 2, m);
    hide HandleBMsg, HandlePrepare;
    var h1 := ThreePhases(cfg, h0, g, 0, m, 1, 2, known);
    var s := h1.Now();
    TimedOut(cfg.crypto, s.replicas[1], 1, 0);
    TimedOut(cfg.crypto, s.replicas[2], 2, 0);
    hide StartViewChange, SignedFor;
    var h2 := TimeOut(cfg, h1, g, 1, known);
    h := TimeOut(cfg, h2, g, 2, known);
    StaysVerified(cfg, s.log, h.Now(), PREPARE, Cert(PREPARE, 0, a, 1, 2), s);
    StaysVerified(cfg, s.log, h.Now(), COMMIT, Cert(COMMIT, 0, a, 1, 2), s);
  }

  // View v: replicas 1 and 2 commit b on top of their lock.
  lemma ChildCommitted(cfg: Config, h: History, v: int, a: HsNode, b: HsNode, cmd: Bytes, known: map<HsNode, int>) returns (h': History)
    requires Valid(cfg, h, WITHOUT_BOUNDS) && Locked(cfg, h.Now(), v, a, known) && v > 0 && LeaderAt(v, 4) != 1 && LeaderAt(v, 4) != 2
    requires b in known && known[b] == v && b.parentHash == a.curHash && a.curHash != []
    ensures Valid(cfg, h', WITHOUT_BOUNDS)
    ensures Passes(cfg, h'.Now(), COMMIT, Cert(COMMIT, 0, a, 1, 2)) && Passes(cfg, h'.Now(), COMMIT, Cert(COMMIT, v, b, 1, 2))
  {
    var m := Ask1(v, b, Cert(PREPARE, 0, a, 1, 2), cmd);
    assert MsgDerivable(h.Now().log, m);
    hide Passes, Valid, WillAnswer, Signers, SignedBytes, SignedFor, HandlePrepare, MsgDerivable, LeaderAt;
    AnswersProposal(cfg, h.Now(), WITHOUT_BOUNDS, v, 1, m);
    AnswersProposal(cfg, h.Now(), WITHOUT_BOUNDS, v, 2, m);
    hide Reached, OthersSame;
    h' := ThreePhases(cfg, h, WITHOUT_BOUNDS, v, m, 1, 2, known);
    StaysVerified(cfg, h.Now().log, h'.Now(), COMMIT, Cert(COMMIT, 0, a, 1, 2), h.Now());
  }

  // Replicas 1 and 2 commit a in view 0, time out until view v and commit its child b there.
  lemma TwoCommits(cfg: Config, v: int, a: HsNode, b: HsNode, cmd: Bytes) returns (h: History)
    requires cfg.Valid() && cfg.f == 1 && cfg.faulty == {3} && v > 0 && LeaderAt(v, 4) != 1 && LeaderAt(v, 4) != 2
    requires a != b && b.parentHash == a.curHash && a.curHash != []
    ensures GuardedRun(cfg, WITHOUT_BOUNDS, h.run, h.acts)
    ensures Passes(cfg, h.Now(), COMMIT, Cert(COMMIT, 0, a, 1, 2)) && Passes(cfg, h.Now(), COMMIT, Cert(COMMIT, v, b, 1, 2))
  {
    var known := map[a := 0, b := v];
    assert a in known && b in known && known[a] == 0 && known[b] == v;
    hide Valid, GuardedRun, Locked, Passes, LeaderAt;
    var h1 := LongCommitted(cfg, a, cmd, known);
    var h2 := TimeOutUntil(cfg, h1, 1, v, a, known);
    h := ChildCommitted(cfg, h2, v, a, b, cmd, known);
    ValidMeans(cfg, h, WITHOUT_BOUNDS);
  }

  // Replicas 1 and 2 commit a in view 0 and its child b in view 3. The shares for a certify as
  // well the node with a's two hashes cut after a digest's length, and that node is no parent of
  // b. All guards but that on bounds are kept, both commit certificates verify in the end, and no
  // branch joins their nodes.
  lemma AgreementNeedsBounds(cfg: Config, a: HsNode, b: HsNode, cmd: Bytes) returns (h: History)
    requires cfg.Valid() && cfg.f == 1 && cfg.faulty == {3}
    requires |a.curHash| > DIGEST_LENGTH && DigestNode(b) && b.parentHash == a.curHash
    ensures GuardedRun(cfg, WITHOUT_BOUNDS, h.run, h.acts)
    ensures var (s, qa, qb) := (h.Now(), CutCert(COMMIT, 0, a, 1, 2), Cert(COMMIT, 3, b, 1, 2));
      && Verifies(cfg, s, COMMIT, qa) && Verifies(cfg, s, COMMIT, qb)
      && forall path :: !Branch(cfg, s.log, path, Link(3, b), Link(0, CutAt(a)))
  {
    h := TwoCommits(cfg, 3, a, b, cmd);
    hide GuardedRun, Branch, Passes;
    CutVerifies(cfg, h.Now(), COMMIT, 0, a, 1, 2);
    forall path ensures !Branch(cfg, h.Now().log, path, Link(3, b), Link(0, CutAt(a))) {
      if Branch(cfg, h.Now().log, path, Link(3, b), Link(0, CutAt(a))) {
        BranchHasParent(cfg, h.Now().log, path, Link(3, b), Link(0, CutAt(a)));
      }
    }
  }

  // Replicas 1 and 2 commit a in view 0 and its child b in view 256. The shares for b in that
  // view are shares for b in view 0 as well, where a was committed.
  lemma AgreementNeedsOneByteViews(cfg: Config, a: HsNode, b: HsNode, cmd: Bytes) returns (h: History)
    requires cfg.Valid() && cfg.f == 1 && cfg.faulty == {3}
    requires DigestNode(a) && DigestNode(b) && a != b && b.parentHash == a.curHash
    ensures GuardedRun(cfg, WITHOUT_BOUNDS, h.run, h.acts)
    ensures var (s, qa, qb) := (h.Now(), Cert(COMMIT, 0, a, 1, 2), Cert(COMMIT, 0, b, 1, 2));
      && Verifies(cfg, s, COMMIT, qa) && Verifies(cfg, s, COMMIT, qb)
      && forall path :: !Branch(cfg, s.log, path, Link(0, b), Link(0, a))
  {
    h := TwoCommits(cfg, 256, a, b, cmd);
    SignedBytesAgree(COMMIT, 256, b, COMMIT, 0, b);
    assert Passes(cfg, h.Now(), COMMIT, Cert(COMMIT, 0, b, 1, 2));
    hide GuardedRun, Branch, Passes;
    forall path ensures !Branch(cfg, h.Now().log, path, Link(0, b), Link(0, a)) {
      if Branch(cfg, h.Now().log, path, Link(0, b), Link(0, a)) {
        BranchHasParent(cfg, h.Now().log, path, Link(0, b), Link(0, a));
      }
    }
  }
}
