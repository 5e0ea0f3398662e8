/** Safety of basic HotStuff, stated over the log of every signature share ever made.

    A log entry is one share. For a correct replica it also keeps what the replica saw when it
    voted. The theorems here need only that each entry of a correct replica obeyed the voting
    rules at the moment it was added; that the handlers obey them is shown in HotstuffSystem. */
module HotstuffLog {
  import opened Common
  import opened Blockchain
  import opened HotstuffTypes

  // n = 3f+1 replicas, at most f of them faulty.
  datatype Config = Config(f: nat, faulty: set<nat>, crypto: Crypto) {
    function N(): nat {
      3 * f + 1
    }

    ghost predicate Valid() {
      && |faulty| <= f
      && (forall i <- faulty :: i < N())
      && crypto.Sound()
      && crypto.threshold == VoteBound(N()) + 1
    }

    predicate Correct(i: nat) {
      i < N() && i !in faulty
    }
  }

  // The assumptions on configurations can be met, whoever is faulty.
  lemma ConfigExists(f: nat, faulty: set<nat>) returns (cfg: Config)
    requires |faulty| <= f && forall i <- faulty :: i < 3 * f + 1
    ensures cfg.f == f && cfg.faulty == faulty && cfg.Valid() && cfg.crypto.Complete()
  {
    var sum: Hasher := _ => seq(DIGEST_LENGTH, _ => 0);
    cfg := Config(f, faulty, IdealCrypto(sum, VoteBound(3 * f + 1) + 1));
    IdealIsSoundAndComplete(sum, VoteBound(3 * f + 1) + 1);
  }

  // kind, view and node are what the share is for. justify and lock are those of a prepare
  // vote, blockHash is the hash of the block that came with it.
  datatype Entry = Entry(who: nat, bytes: Bytes, kind: StateType, view: int, node: HsNode, justify: QC, lock: QC, blockHash: Bytes) {
    predicate IsVote() {
      kind == PREPARE || kind == PRE_COMMIT || kind == COMMIT
    }

    function Rank(): int {
      16 * view + kind
    }
  }

  type Log = seq<Entry>

  function Signers(log: Log, bytes: Bytes): set<nat> {
    set k | 0 <= k < |log| && log[k].bytes == bytes :: log[k].who
  }

  // A certificate of this type, view and node can verify.
  predicate Certified(cfg: Config, log: Log, t: StateType, view: int, node: HsNode) {
    |Signers(log, SignedBytes(t, view, node))| >= cfg.crypto.threshold
  }

  // A signature somebody could have produced from the shares in the log.
  predicate Derivable(log: Log, sign: Signature) {
    match sign
    case NoSign => true
    case Share(who, content) => who in Signers(log, content)
    case Combined(signers, content) => signers <= Signers(log, content)
  }

  ghost predicate GoodQC(cfg: Config, log: Log, t: StateType, qc: QC) {
    && OneByteView(qc.viewNumber) && DigestNode(qc.hsNode)
    && Certified(cfg, log, t, qc.viewNumber, qc.hsNode)
  }

  /* The voting rules */

  ghost predicate VoteRule(cfg: Config, before: Log, e: Entry) {
    && e.IsVote()
    && LeaderAt(e.view, cfg.N()) != e.who
    && (forall k :: 0 <= k < |before| && before[k].who == e.who && before[k].IsVote() ==> before[k].Rank() < e.Rank())
    && (e.kind == PRE_COMMIT ==> Certified(cfg, before, PREPARE, e.view, e.node))
    && (e.kind == COMMIT ==> Certified(cfg, before, PRE_COMMIT, e.view, e.node))
  }

  ghost predicate EntryOk(cfg: Config, before: Log, e: Entry) {
    && e.who < cfg.N()
    && (cfg.Correct(e.who) ==>
          && e.bytes == SignedBytes(e.kind, e.view, e.node)
          && (e.kind != NEW_VIEW ==> VoteRule(cfg, before, e)))
  }

  ghost predicate LogOk(cfg: Config, log: Log) {
    forall k {:trigger log[k]} :: 0 <= k < |log| ==> EntryOk(cfg, log[..k], log[k])
  }

  // Votes within the bounds of SignedBytesDetermine mean what they say.
  ghost predicate LogInBounds(cfg: Config, log: Log) {
    forall k :: 0 <= k < |log| && cfg.Correct(log[k].who) && log[k].kind != NEW_VIEW ==> OneByteView(log[k].view) && DigestNode(log[k].node)
  }

  // What a prepare vote rests on beyond that: a genuine lock on the parent, or a genuine
  // certificate for the parent, newer than the lock.
  ghost predicate PrepareRule(cfg: Config, before: Log, e: Entry) {
    && (e.lock.viewNumber == -1 || GoodQC(cfg, before, PRE_COMMIT, e.lock))
    && (|| e.lock.hsNode.curHash == e.node.parentHash
        || (&& GoodQC(cfg, before, PREPARE, e.justify) && e.node.parentHash == e.justify.hsNode.curHash
            && e.justify.viewNumber > e.lock.viewNumber))
    && forall k :: 0 <= k < |before| && before[k].who == e.who && before[k].kind == COMMIT ==> before[k].view <= e.lock.viewNumber
  }

  ghost predicate PreparesJustified(cfg: Config, log: Log) {
    forall k {:trigger log[k]} :: 0 <= k < |log| && cfg.Correct(log[k].who) && log[k].kind == PREPARE && log[k].view > 0 ==>
      PrepareRule(cfg, log[..k], log[k])
  }

  lemma LogOkAppend(cfg: Config, log: Log, e: Entry)
    requires LogOk(cfg, log) && EntryOk(cfg, log, e)
    ensures LogOk(cfg, log + [e])
  {
    var longer := log + [e];
    forall k | 0 <= k < |longer| ensures EntryOk(cfg, longer[..k], longer[k]) {
      assert longer[..k] == log[..k];
      assert k == |log| ==> log[..k] == log;
    }
  }

  lemma LogOkPrefix(cfg: Config, log: Log, k: nat)
    requires LogOk(cfg, log) && k <= |log|
    ensures LogOk(cfg, log[..k])
  {
    forall j | 0 <= j < k ensures EntryOk(cfg, log[..k][..j], log[..k][j]) {
      assert log[..k][..j] == log[..j];
      assert EntryOk(cfg, log[..j], log[j]);
    }
  }

  /* Quorums */

  // Two quorums of 2f+1 among 3f+1 replicas share a correct one.
  lemma QuorumsIntersect(cfg: Config, a: set<nat>, b: set<nat>) returns (i: nat)
    requires cfg.Valid()
    requires |a| >= cfg.crypto.threshold && |b| >= cfg.crypto.threshold
    requires (forall x <- a :: x < cfg.N()) && (forall x <- b :: x < cfg.N())
    ensures i in a && i in b && cfg.Correct(i)
  {
    SetIsBounded(a + b, cfg.N());
    assert |a + b| == |a| + |b| - |a * b|;
    if a * b <= cfg.faulty {
      SubsetCard(a * b, cfg.faulty);
      assert false;
    }
    i :| i in a * b && i !in cfg.faulty;
  }

  lemma {:induction false} SubsetCard(a: set<nat>, b: set<nat>)
    requires a <= b
    ensures |a| <= |b|
  {
    if a != {} {
      var x :| x in a;
      SubsetCard(a - {x}, b - {x});
    }
  }

  lemma SignersGrow(log: Log, longer: Log, bytes: Bytes)
    requires log <= longer
    ensures Signers(log, bytes) <= Signers(longer, bytes)
    ensures |Signers(log, bytes)| <= |Signers(longer, bytes)|
  {
    forall x | x in Signers(log, bytes) ensures x in Signers(longer, bytes) {
      var k :| 0 <= k < |log| && log[k].bytes == bytes && log[k].who == x;
      assert longer[k] == log[k];
    }
    SubsetCard(Signers(log, bytes), Signers(longer, bytes));
  }

  // A correct replica that signed for both certificates, and the two entries.
  lemma CommonVoter(cfg: Config, log: Log, m: nat, t: StateType, v: int, a: HsNode, u: StateType, w: int, b: HsNode)
    returns (j: nat, k: nat)
    requires cfg.Valid() && LogOk(cfg, log) && LogInBounds(cfg, log) && m <= |log|
    requires t != NEW_VIEW && OneByteView(v) && DigestNode(a) && Certified(cfg, log, t, v, a)
    requires u != NEW_VIEW && OneByteView(w) && DigestNode(b) && Certified(cfg, log[..m], u, w, b)
    ensures j < |log| && k < m && log[j].who == log[k].who && cfg.Correct(log[j].who)
    ensures log[j].kind == t && log[j].view == v && log[j].node == a && log[j].IsVote()
    ensures log[k].kind == u && log[k].view == w && log[k].node == b && log[k].IsVote()
  {
    var x, y := SignedBytes(t, v, a), SignedBytes(u, w, b);
    var i := QuorumsIntersect(cfg, Signers(log, x), Signers(log[..m], y));
    j :| 0 <= j < |log| && log[j].bytes == x && log[j].who == i;
    k :| 0 <= k < m && log[..m][k].bytes == y && log[..m][k].who == i;
    EntryDetermined(cfg, log, j, t, v, a);
    EntryDetermined(cfg, log, k, u, w, b);
  }

  lemma EntryDetermined(cfg: Config, log: Log, j: nat, t: StateType, v: int, a: HsNode)
    requires LogOk(cfg, log) && LogInBounds(cfg, log) && j < |log| && cfg.Correct(log[j].who)
    requires t != NEW_VIEW && OneByteView(v) && DigestNode(a)
    requires log[j].bytes == SignedBytes(t, v, a)
    ensures log[j].kind == t && log[j].view == v && log[j].node == a && log[j].IsVote()
  {
    var e := log[j];
    assert EntryOk(cfg, log[..j], e);
    SignedBytesAgree(e.kind, e.view, e.node, t, v, a);
    SignedBytesDetermine(e.kind, e.view, e.node, t, v, a);
  }

  /* Theorems */

  // A correct replica's votes rise strictly in (view, phase).
  lemma VotesRise(cfg: Config, log: Log, j: nat, k: nat)
    requires LogOk(cfg, log) && j < k < |log|
    requires log[j].who == log[k].who && cfg.Correct(log[k].who) && log[j].IsVote() && log[k].IsVote()
    ensures log[j].view < log[k].view || (log[j].view == log[k].view && log[j].kind < log[k].kind)
  {
    assert EntryOk(cfg, log[..k], log[k]);
    assert log[..k][j] == log[j];
  }

  // Two certificates of one type and view are for the same node.
  lemma CertificateUnique(cfg: Config, log: Log, t: StateType, v: int, a: HsNode, b: HsNode)
    requires cfg.Valid() && LogOk(cfg, log) && LogInBounds(cfg, log)
    requires t != NEW_VIEW && OneByteView(v) && DigestNode(a) && DigestNode(b)
    requires Certified(cfg, log, t, v, a) && Certified(cfg, log, t, v, b)
    ensures a == b
  {
    assert log[..|log|] == log;
    var j, k := CommonVoter(cfg, log, |log|, t, v, a, t, v, b);
    if j < k { VotesRise(cfg, log, j, k); }
    if k < j { VotesRise(cfg, log, k, j); }
  }

  // The phase a certificate of type t rests on.
  function Earlier(t: StateType): StateType {
    if t == COMMIT then PRE_COMMIT else PREPARE
  }

  // A commit certificate was preceded by a pre-commit certificate for the same node and
  // view, and that by a prepare certificate: each existed when the first vote for the next
  // was cast, that is at log[..k], and log[k] is that vote. This needs no bounds: what two
  // votes sign alike they also sign alike in the phase before.
  lemma CertificateCausality(cfg: Config, log: Log, t: StateType, v: int, b: HsNode) returns (k: nat)
    requires cfg.Valid() && LogOk(cfg, log)
    requires (t == COMMIT || t == PRE_COMMIT) && Certified(cfg, log, t, v, b)
    ensures k < |log| && Certified(cfg, log[..k], Earlier(t), v, b)
    ensures forall j :: 0 <= j <= k ==> !Certified(cfg, log[..j], t, v, b)
  {
    assert log[..|log|] == log;
    var bytes := SignedBytes(t, v, b);
    var some := SomeCorrectVote(cfg, log, |log|, bytes);
    k := LeastVote(cfg, log, some, bytes);
    var e := log[k];
    assert EntryOk(cfg, log[..k], e);
    SignedBytesAgree(e.kind, e.view, e.node, t, v, b);
    SignedBytesAgree(Earlier(t), e.view, e.node, Earlier(t), v, b);
    forall j | 0 <= j <= k ensures !Certified(cfg, log[..j], t, v, b) {
      if Certified(cfg, log[..j], t, v, b) {
        var _ := SomeCorrectVote(cfg, log, j, bytes);
      }
    }
  }

  // Among the signers of a quorum is a correct replica.
  lemma SomeCorrectVote(cfg: Config, log: Log, m: nat, bytes: Bytes) returns (k: nat)
    requires cfg.Valid() && LogOk(cfg, log) && m <= |log| && |Signers(log[..m], bytes)| >= cfg.crypto.threshold
    ensures k < m && cfg.Correct(log[k].who) && log[k].bytes == bytes
  {
    var voters := Signers(log[..m], bytes);
    forall x | x in voters ensures x < cfg.N() {
      var j :| 0 <= j < m && log[..m][j].bytes == bytes && log[..m][j].who == x;
      assert EntryOk(cfg, log[..j], log[j]);
    }
    var i := QuorumsIntersect(cfg, voters, voters);
    k :| 0 <= k < m && log[..m][k].bytes == bytes && log[..m][k].who == i;
  }

  lemma {:induction false} LeastVote(cfg: Config, log: Log, j: nat, bytes: Bytes) returns (k: nat)
    requires j < |log| && cfg.Correct(log[j].who) && log[j].bytes == bytes
    ensures k < |log| && cfg.Correct(log[k].who) && log[k].bytes == bytes
    ensures forall i :: 0 <= i < k ==> !(cfg.Correct(log[i].who) && log[i].bytes == bytes)
  {
    if i: nat :| i < j && cfg.Correct(log[i].who) && log[i].bytes == bytes {
      k := LeastVote(cfg, log, i, bytes);
    } else {
      k := j;
    }
  }

  lemma CertifiedGrows(cfg: Config, log: Log, longer: Log, t: StateType, v: int, b: HsNode)
    requires log <= longer && Certified(cfg, log, t, v, b)
    ensures Certified(cfg, longer, t, v, b)
  {
    SignersGrow(log, longer, SignedBytes(t, v, b));
  }

  lemma CertifiedEarlier(cfg: Config, log: Log, t: StateType, v: int, b: HsNode)
    requires cfg.Valid() && LogOk(cfg, log)
    requires (t == COMMIT || t == PRE_COMMIT) && Certified(cfg, log, t, v, b)
    ensures Certified(cfg, log, Earlier(t), v, b)
  {
    var k := CertificateCausality(cfg, log, t, v, b);
    CertifiedGrows(cfg, log[..k], log, Earlier(t), v, b);
  }

  // Below every certificate of the view is a prepare certificate.
  lemma PrepareUnderlies(cfg: Config, log: Log, t: StateType, v: int, b: HsNode)
    requires cfg.Valid() && LogOk(cfg, log) && VoteType(t) && Certified(cfg, log, t, v, b)
    ensures Certified(cfg, log, PREPARE, v, b)
  {
    hide LogOk;
    if t == COMMIT { CertifiedEarlier(cfg, log, COMMIT, v, b); }
    if t != PREPARE { CertifiedEarlier(cfg, log, PRE_COMMIT, v, b); }
  }

  /* Branches */

  // A node with a prepare certificate of some view.
  datatype Link = Link(view: int, node: HsNode)

  // A chain of parent hashes through nodes with prepare certificates, from the node of
  // view w down to the node of view v.
  ghost predicate Branch(cfg: Config, log: Log, path: seq<Link>, top: Link, bottom: Link) {
    && path != [] && path[0] == top && path[|path| - 1] == bottom
    && (forall i :: 0 <= i < |path| ==>
          OneByteView(path[i].view) && DigestNode(path[i].node) && Certified(cfg, log, PREPARE, path[i].view, path[i].node))
    && (forall i :: 0 <= i < |path| - 1 ==> path[i].node.parentHash == path[i + 1].node.curHash)
    && (forall i :: 0 <= i < |path| - 1 ==> path[i].view > bottom.view)
  }

  // The prepare vote in view w by a replica that voted commit in an earlier view v: the
  // certificate it relied on has a view of at least v and certifies the parent.
  lemma RelianceOf(cfg: Config, log: Log, v: int, j: nat, k: nat) returns (rely: Link)
    requires cfg.Valid() && LogOk(cfg, log) && LogInBounds(cfg, log) && PreparesJustified(cfg, log) && j < |log| && k < |log|
    requires log[j].who == log[k].who && cfg.Correct(log[j].who) && log[j].IsVote() && log[k].IsVote()
    requires log[j].kind == COMMIT && log[j].view == v && log[k].kind == PREPARE && 0 <= v < log[k].view
    ensures rely.view >= v && OneByteView(rely.view) && DigestNode(rely.node)
    ensures log[k].node.parentHash == rely.node.curHash
    ensures Certified(cfg, log[..k], PREPARE, rely.view, rely.node)
  {
    if k < j { VotesRise(cfg, log, k, j); }
    assert j < k;
    assert EntryOk(cfg, log[..k], log[k]);
    assert log[..k][j] == log[j];
    var e := log[k];
    if e.lock.hsNode.curHash == e.node.parentHash {
      rely := Link(e.lock.viewNumber, e.lock.hsNode);
      LogOkPrefix(cfg, log, k);
      CertifiedEarlier(cfg, log[..k], PRE_COMMIT, rely.view, rely.node);
    } else {
      rely := Link(e.justify.viewNumber, e.justify.hsNode);
    }
  }

  // Once node b has a commit certificate of view v, every prepare certificate of a later
  // view lies on a branch above b.
  lemma {:induction false} LaterNodesExtendCommitted(cfg: Config, log: Log, m: nat, v: int, b: HsNode, w: int, n: HsNode)
    returns (path: seq<Link>)
    requires cfg.Valid() && LogOk(cfg, log) && LogInBounds(cfg, log) && PreparesJustified(cfg, log) && m <= |log|
    requires OneByteView(v) && DigestNode(b) && Certified(cfg, log, COMMIT, v, b)
    requires OneByteView(w) && DigestNode(n) && Certified(cfg, log[..m], PREPARE, w, n)
    requires w > v
    ensures Branch(cfg, log, path, Link(w, n), Link(v, b))
    decreases m
  {
    hide LogOk, PreparesJustified, Certified;
    var j, k := CommonVoter(cfg, log, m, COMMIT, v, b, PREPARE, w, n);
    var rely := RelianceOf(cfg, log, v, j, k);
    CertifiedGrows(cfg, log[..k], log, PREPARE, rely.view, rely.node);
    CertifiedGrows(cfg, log[..m], log, PREPARE, w, n);
    if rely.view == v {
      PrepareUnderlies(cfg, log, COMMIT, v, b);
      CertificateUnique(cfg, log, PREPARE, v, b, rely.node);
      path := [Link(w, n), Link(v, b)];
    } else {
      var rest := LaterNodesExtendCommitted(cfg, log, k, v, b, rely.view, rely.node);
      path := [Link(w, n)] + rest;
    }
  }

  // Agreement: the nodes of any two commit certificates lie on one branch.
  lemma CommittedNodesOnOneBranch(cfg: Config, log: Log, v: int, b: HsNode, w: int, c: HsNode)
    returns (path: seq<Link>)
    requires cfg.Valid() && LogOk(cfg, log) && LogInBounds(cfg, log) && PreparesJustified(cfg, log)
    requires OneByteView(v) && DigestNode(b) && Certified(cfg, log, COMMIT, v, b)
    requires OneByteView(w) && DigestNode(c) && Certified(cfg, log, COMMIT, w, c)
    requires v <= w
    ensures Branch(cfg, log, path, Link(w, c), Link(v, b))
  {
    PrepareUnderlies(cfg, log, COMMIT, w, c);
    if v == w {
      CertificateUnique(cfg, log, COMMIT, v, b, c);
      path := [Link(v, b)];
    } else {
      assert log[..|log|] == log;
      path := LaterNodesExtendCommitted(cfg, log, |log|, v, b, w, c);
    }
  }
}
