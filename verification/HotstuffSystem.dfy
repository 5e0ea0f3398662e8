/** Runs of basic HotStuff: correct replicas run the handlers on messages that an asynchronous
    network may lose, reorder, repeat or make up; up to f replicas sign whatever they like.
    What holds in all of these runs rests on the votes alone. */
module HotstuffSystem {
  import opened Common
  import opened Blockchain
  import opened HotstuffTypes
  import opened BasicHotstuffSpec
  import Merkle
  import opened HotstuffLog

  // sent holds the proposals of correct leaders.
  datatype System = System(replicas: seq<Replica>, log: Log, sent: seq<Msg>)

  datatype Action =
    | Deliver(i: nat, m: Msg, timeStamp: int)
    | Timeout(i: nat, forwards: bool, sends: bool)
    | Request(i: nat, height: int, preHash: Bytes, cmds: seq<Bytes>, signs: seq<Bytes>, timeStamp: int)
    | Corrupt(i: nat, bytes: Bytes)

  function Init(cfg: Config): System {
    System(seq(cfg.N(), i requires 0 <= i < cfg.N() =>
      var r := NewReplica(cfg.crypto, i, cfg.N());
      if i == 0 then InitLeader(cfg.crypto, r) else r), [], [])
  }

  // Nobody can put a signature into a message that the log gives no shares for.
  predicate MsgDerivable(log: Log, m: Msg) {
    Derivable(log, m.justify.sign) && Derivable(log, m.partialSig)
  }

  ghost predicate Enabled(cfg: Config, s: System, a: Action) {
    |s.replicas| == cfg.N() &&
    match a
    case Deliver(i, m, _) => cfg.Correct(i) && s.replicas[i].view.nodesNum > 0 && MsgDerivable(s.log, m)
    case Timeout(i, _, _) => cfg.Correct(i) && s.replicas[i].view.nodesNum > 0
    case Request(i, _, _, _, _, _) => cfg.Correct(i) && s.replicas[i].Valid()
    case Corrupt(i, _) => i in cfg.faulty && i < cfg.N()
  }

  // The log entry for a share that handling m made.
  function VoteEntry(c: Crypto, r: Replica, m: Msg, out: Msg): Entry
    requires out.partialSig.Share?
  {
    Entry(r.consId, out.partialSig.content, m.mType, out.viewNumber, out.hsNode, m.justify, r.lockedQC, m.block.Hash(c.sum))
  }

  function NewShares(c: Crypto, r: Replica, m: Msg, out: Option<Msg>): Log {
    if out.Some? && out.value.partialSig.Share? then [VoteEntry(c, r, m, out.value)] else []
  }

  function NewProposals(out: Option<Msg>): seq<Msg> {
    if out.Some? && out.value.mType == PREPARE then [out.value] else []
  }

  function PlainEntry(i: nat, bytes: Bytes, view: int): Entry {
    Entry(i, bytes, NEW_VIEW, view, NO_NODE, NO_QC, NO_QC, [])
  }

  // What one action does: the new state of replica i, its shares and its proposals.
  function Effect(cfg: Config, s: System, a: Action): (Replica, Log, seq<Msg>)
    requires a.i < |s.replicas|
    requires (a.Deliver? || a.Timeout? ==> s.replicas[a.i].view.nodesNum > 0) && (a.Request? ==> s.replicas[a.i].Valid())
  {
    var c, r := cfg.crypto, s.replicas[a.i];
    match a
    case Deliver(i, m, timeStamp) =>
      var (r1, out) := HandleBMsg(c, r, m, timeStamp);
      (r1, NewShares(c, r, m, out), NewProposals(out))
    case Timeout(i, forwards, sends) =>
      var (r1, out) := StartViewChange(c, r, forwards, sends);
      (r1, [PlainEntry(i, out.partialSig.content, out.viewNumber)], [])
    case Request(i, height, preHash, cmds, signs, timeStamp) =>
      var (r1, out) := HandleReq(c, r, height, preHash, cmds, signs, timeStamp);
      (r1, [], NewProposals(out))
    case Corrupt(i, bytes) => (r, [PlainEntry(i, bytes, 0)], [])
  }

  ghost function Apply(cfg: Config, s: System, a: Action): System
    requires Enabled(cfg, s, a)
  {
    var (r, shares, proposals) := Effect(cfg, s, a);
    System(s.replicas[a.i := r], s.log + shares, s.sent + proposals)
  }

  ghost predicate Step(cfg: Config, s: System, a: Action, s': System) {
    Enabled(cfg, s, a) && s' == Apply(cfg, s, a)
  }

  // A run from the initial state. Messages are bounded by nothing but the shares there are.
  ghost predicate Run(cfg: Config, run: seq<System>, acts: seq<Action>) {
    && |run| == |acts| + 1 && run[0] == Init(cfg)
    && forall k :: 0 <= k < |acts| ==> Step(cfg, run[k], acts[k], run[k + 1])
  }

  /* What every run keeps */

  predicate KnownPhase(p: StateType) {
    p == NEW_VIEW || p == PREPARE || p == PRE_COMMIT || p == COMMIT || p == DECIDE || p == WAITING
  }

  predicate InVote(r: Replica) {
    r.curPhase == PREPARE || r.curPhase == PRE_COMMIT || r.curPhase == COMMIT
  }

  // The phase of the last vote of this view; a leader does not vote in its own view.
  function VotePhase(r: Replica): int {
    if InVote(r) && !r.IsLeader() then r.curPhase else 0
  }

  predicate ViewOk(cfg: Config, i: nat, r: Replica) {
    && r.consId == i
    && r.view.nodesNum == cfg.N() && 0 <= r.view.viewNumber && r.view.leader == LeaderAt(r.view.viewNumber, cfg.N())
    && KnownPhase(r.curPhase)
    && (r.curPhase == WAITING ==> r.IsLeader() && r.newViewMsgs != [])
  }

  ghost predicate RanksOk(log: Log, i: nat, r: Replica) {
    forall k :: 0 <= k < |log| && log[k].who == i && log[k].IsVote() ==> log[k].Rank() <= 16 * r.view.viewNumber + VotePhase(r)
  }

  // The block held is that of the replica's prepare vote in this view.
  ghost predicate BlockOk(cfg: Config, log: Log, i: nat, r: Replica) {
    InVote(r) && !r.IsLeader() ==>
      forall k :: 0 <= k < |log| && log[k].who == i && log[k].kind == PREPARE && log[k].view == r.view.viewNumber ==>
        log[k].blockHash == r.blkStore.curProposalBlk.Hash(cfg.crypto.sum)
  }

  ghost predicate ReplicaOk(cfg: Config, log: Log, i: nat, r: Replica) {
    ViewOk(cfg, i, r) && RanksOk(log, i, r) && BlockOk(cfg, log, i, r)
  }

  // Phases in which a leader has not proposed yet.
  predicate MayPropose(r: Replica) {
    r.curPhase == NEW_VIEW || r.curPhase == WAITING
  }

  // A proposal of a correct leader carries the hash of its block, and its view is over or
  // past the phases in which the leader proposes.
  ghost predicate ProposalOk(cfg: Config, replicas: seq<Replica>, m: Msg)
    requires |replicas| == cfg.N()
  {
    var r := replicas[LeaderAt(m.viewNumber, cfg.N())];
    && m.mType == PREPARE && m.hsNode.curHash == m.block.Hash(cfg.crypto.sum)
    && m.viewNumber <= r.view.viewNumber && (m.viewNumber == r.view.viewNumber ==> !MayPropose(r))
  }

  ghost predicate SentOk(cfg: Config, s: System)
    requires |s.replicas| == cfg.N()
  {
    && (forall m <- s.sent :: cfg.Correct(LeaderAt(m.viewNumber, cfg.N())) && ProposalOk(cfg, s.replicas, m))
    && (forall j, k :: 0 <= j < k < |s.sent| ==> s.sent[j].viewNumber != s.sent[k].viewNumber)
  }

  ghost predicate SystemOk(cfg: Config, s: System) {
    && |s.replicas| == cfg.N() && LogOk(cfg, s.log) && SentOk(cfg, s)
    && forall i :: 0 <= i < cfg.N() && cfg.Correct(i) ==> ReplicaOk(cfg, s.log, i, s.replicas[i])
  }

  /* Signatures and the log */

  lemma DerivableGrows(log: Log, longer: Log, sign: Signature)
    requires log <= longer && Derivable(log, sign)
    ensures Derivable(longer, sign)
  {
    if !sign.NoSign? {
      SignersGrow(log, longer, sign.content);
    }
  }

  lemma VerifiedIsCertified(cfg: Config, log: Log, content: Bytes, sign: Signature)
    requires Derivable(log, sign) && cfg.crypto.ThresholdSignVerify(content, sign)
    ensures |Signers(log, content)| >= cfg.crypto.threshold
  {
    SubsetCard(sign.signers, Signers(log, content));
  }

  lemma NoShare(log: Log)
    ensures log + [] == log
  {
  }

  /* The voting handlers */

  ghost predicate Ready(cfg: Config, log: Log, i: nat, r: Replica, m: Msg) {
    && cfg.Valid() && cfg.Correct(i) && LogOk(cfg, log) && ReplicaOk(cfg, log, i, r)
    && MsgDerivable(log, m)
  }

  // What a handler must establish: the new share keeps the log, the new state fits it.
  ghost predicate Keeps(cfg: Config, log: Log, i: nat, r: Replica, m: Msg, outcome: Outcome) {
    var shares := NewShares(cfg.crypto, r, m, outcome.1);
    && (forall e <- shares :: EntryOk(cfg, log, e))
    && ReplicaOk(cfg, log + shares, i, outcome.0)
  }

  // A voter moves to the phase it votes for.
  lemma VoteFits(cfg: Config, log: Log, i: nat, r: Replica, r1: Replica, e: Entry)
    requires ReplicaOk(cfg, log, i, r) && ViewOk(cfg, i, r1) && r1.view == r.view && !r1.IsLeader()
    requires VotePhase(r) < r1.curPhase && InVote(r1)
    requires e.who == i && e.kind == r1.curPhase && e.view == r.view.viewNumber
    requires if e.kind == PREPARE then e.blockHash == r1.blkStore.curProposalBlk.Hash(cfg.crypto.sum) else r1.blkStore == r.blkStore
    ensures ReplicaOk(cfg, log + [e], i, r1)
  {
    hide Block.Hash, LeaderAt;
    var longer := log + [e];
    assert VotePhase(r1) == r1.curPhase;
    forall k | 0 <= k < |longer| && longer[k].who == i && longer[k].IsVote()
      ensures longer[k].Rank() <= 16 * r1.view.viewNumber + VotePhase(r1)
      ensures longer[k].kind == PREPARE && longer[k].view == r1.view.viewNumber ==>
        longer[k].blockHash == r1.blkStore.curProposalBlk.Hash(cfg.crypto.sum)
    {
      if k < |log| {
        assert longer[k] == log[k] && log[k].Rank() <= 16 * r.view.viewNumber + VotePhase(r);
      }
    }
  }

  lemma PrepareKeeps(cfg: Config, log: Log, i: nat, r: Replica, m: Msg)
    requires Ready(cfg, log, i, r, m) && m.mType == PREPARE
    ensures Keeps(cfg, log, i, r, m, HandlePrepare(cfg.crypto, r, m))
  {
    NoShare(log);
    var (r1, out) := HandlePrepare(cfg.crypto, r, m);
    hide Block.Hash;
    if out.Some? {
      var e := VoteEntry(cfg.crypto, r, m, out.value);
      assert VoteRule(cfg, log, e);
      assert NewShares(cfg.crypto, r, m, out) == [e];
      VoteFits(cfg, log, i, r, r1, e);
    }
  }

  lemma PreCommitKeeps(cfg: Config, log: Log, i: nat, r: Replica, m: Msg)
    requires Ready(cfg, log, i, r, m) && m.mType == PRE_COMMIT
    ensures Keeps(cfg, log, i, r, m, HandlePreCommit(cfg.crypto, r, m))
  {
    NoShare(log);
    var (r1, out) := HandlePreCommit(cfg.crypto, r, m);
    hide Block.Hash;
    if out.Some? {
      var e := VoteEntry(cfg.crypto, r, m, out.value);
      VerifiedIsCertified(cfg, log, m.justify.QC2SignMsgByte(), m.justify.sign);
      assert VoteRule(cfg, log, e);
      assert NewShares(cfg.crypto, r, m, out) == [e];
      VoteFits(cfg, log, i, r, r1, e);
    }
  }

  lemma CommitKeeps(cfg: Config, log: Log, i: nat, r: Replica, m: Msg)
    requires Ready(cfg, log, i, r, m) && m.mType == COMMIT
    ensures Keeps(cfg, log, i, r, m, HandleCommit(cfg.crypto, r, m))
  {
    NoShare(log);
    var (r1, out) := HandleCommit(cfg.crypto, r, m);
    hide Block.Hash;
    if out.Some? {
      var e := VoteEntry(cfg.crypto, r, m, out.value);
      VerifiedIsCertified(cfg, log, m.justify.QC2SignMsgByte(), m.justify.sign);
      assert VoteRule(cfg, log, e);
      assert NewShares(cfg.crypto, r, m, out) == [e];
      VoteFits(cfg, log, i, r, r1, e);
    }
  }

  /* The other handlers */

  // The messages a leader collects, and a decision, make no share.
  predicate MakesNoShare(m: Msg) {
    m.mType != PREPARE && m.mType != PRE_COMMIT && m.mType != COMMIT
  }

  lemma LeaderMakesNoShare(c: Crypto, r: Replica, m: Msg, timeStamp: int)
    requires r.view.nodesNum > 0 && MakesNoShare(m)
    ensures NewShares(c, r, m, RouteBMsg(c, r, m, timeStamp).1) == []
  {
  }

  // Without a vote a replica goes to the next view, or leads the view it is in, or keeps
  // phase and block.
  predicate Moves(r: Replica, r1: Replica)
    requires r.view.nodesNum > 0
  {
    && r1.consId == r.consId && KnownPhase(r1.curPhase)
    && (r1.curPhase == WAITING ==> r1.IsLeader() && r1.newViewMsgs != [])
    && (|| (r1.view == r.view.NextView() && !InVote(r1))
        || (r1.view == r.view && r.IsLeader())
        || (r1.view == r.view && r1.curPhase == r.curPhase && r1.blkStore == r.blkStore))
  }

  lemma MoveFits(cfg: Config, log: Log, i: nat, r: Replica, r1: Replica)
    requires ReplicaOk(cfg, log, i, r) && Moves(r, r1)
    ensures ReplicaOk(cfg, log, i, r1)
  {
    ModSucc(r.view.viewNumber, cfg.N());
  }

  lemma LeaderMoves(c: Crypto, r: Replica, m: Msg, timeStamp: int)
    requires r.view.nodesNum > 0 && MakesNoShare(m) && KnownPhase(r.curPhase)
    requires r.curPhase == WAITING ==> r.IsLeader() && r.newViewMsgs != []
    ensures Moves(r, RouteBMsg(c, r, m, timeStamp).0)
  {
    hide Store.GenNewBlock, CombineSign, GetHighQCIndex;
  }

  lemma RouteKeeps(cfg: Config, log: Log, i: nat, r: Replica, m: Msg, timeStamp: int)
    requires Ready(cfg, log, i, r, m)
    ensures Keeps(cfg, log, i, r, m, RouteBMsg(cfg.crypto, r, m, timeStamp))
  {
    if MakesNoShare(m) {
      NoShare(log);
      LeaderMakesNoShare(cfg.crypto, r, m, timeStamp);
      LeaderMoves(cfg.crypto, r, m, timeStamp);
      MoveFits(cfg, log, i, r, RouteBMsg(cfg.crypto, r, m, timeStamp).0);
    }
    else if m.mType == PREPARE { PrepareKeeps(cfg, log, i, r, m); }
    else if m.mType == PRE_COMMIT { PreCommitKeeps(cfg, log, i, r, m); }
    else { CommitKeeps(cfg, log, i, r, m); }
  }

  lemma OnlyDecideReturnsNewView(c: Crypto, r: Replica, m: Msg, timeStamp: int)
    requires r.view.nodesNum > 0
    ensures var (r1, out) := RouteBMsg(c, r, m, timeStamp);
      out.Some? && out.value.mType == NEW_VIEW ==> r1.curPhase == DECIDE
  {
  }

  // Bookkeeping after a handler sends leaves the invariant alone.
  lemma AfterSendKeeps(cfg: Config, log: Log, i: nat, r: Replica, out: Msg)
    requires ReplicaOk(cfg, log, i, r)
    requires out.mType == NEW_VIEW ==> r.curPhase == DECIDE
    ensures ReplicaOk(cfg, log, i, AfterSend(r, out).0)
  {
  }

  lemma DeliverKeeps(cfg: Config, log: Log, i: nat, r: Replica, m: Msg, timeStamp: int)
    requires Ready(cfg, log, i, r, m)
    ensures Keeps(cfg, log, i, r, m, HandleBMsg(cfg.crypto, r, m, timeStamp))
  {
    RouteKeeps(cfg, log, i, r, m, timeStamp);
    OnlyDecideReturnsNewView(cfg.crypto, r, m, timeStamp);
    hide RouteBMsg, ReplicaOk, EntryOk;
    var (r1, out) := RouteBMsg(cfg.crypto, r, m, timeStamp);
    if out.Some? {
      var shares := NewShares(cfg.crypto, r, m, out);
      AfterSendKeeps(cfg, log + shares, i, r1, out.value);
      assert NewShares(cfg.crypto, r, m, AfterSend(r1, out.value).1) == shares;
    }
  }

  lemma TimeoutMoves(c: Crypto, r: Replica, forwards: bool, sends: bool)
    requires r.view.nodesNum > 0
    ensures Moves(r, StartViewChange(c, r, forwards, sends).0)
  {
  }

  lemma RequestMoves(c: Crypto, r: Replica, height: int, preHash: Bytes, cmds: seq<Bytes>, signs: seq<Bytes>, timeStamp: int)
    requires r.Valid() && KnownPhase(r.curPhase) && (r.curPhase == WAITING ==> r.IsLeader())
    ensures Moves(r, HandleReq(c, r, height, preHash, cmds, signs, timeStamp).0)
  {
    hide Store.GenNewBlock, GetHighQCIndex, Merkle.MerkleTreeHash, CutOff;
  }

  /* The proposals of correct leaders */

  // Once the phases for proposing are over they do not come back in the same view.
  predicate NeverBack(r: Replica, r1: Replica) {
    && r.view.viewNumber <= r1.view.viewNumber
    && (r1.view.viewNumber == r.view.viewNumber && MayPropose(r1) ==> MayPropose(r))
  }

  // A proposal is made by a leader in the proper phase, and ends it.
  predicate ProposedBy(c: Crypto, r: Replica, r1: Replica, m: Msg) {
    && m.mType == PREPARE && m.viewNumber == r.view.viewNumber == r1.view.viewNumber && r.IsLeader()
    && MayPropose(r) && !MayPropose(r1) && m.hsNode.curHash == m.block.Hash(c.sum)
  }

  // A handler's part of it; handlers that return a new-view message go on to the next view.
  ghost predicate Proposes(c: Crypto, r: Replica, outcome: Outcome) {
    var (r1, out) := outcome;
    && NeverBack(r, r1) && (forall p <- NewProposals(out) :: ProposedBy(c, r, r1, p))
    && (out.Some? && out.value.mType == NEW_VIEW ==> r.view.viewNumber < r1.view.viewNumber)
  }

  lemma LeaderProposes(c: Crypto, r: Replica, m: Msg, timeStamp: int)
    requires r.view.nodesNum > 0 && MakesNoShare(m)
    ensures Proposes(c, r, RouteBMsg(c, r, m, timeStamp))
  {
    hide CombineSign, GetHighQCIndex, MatchingMsg;
  }

  lemma VoterProposesNothing(c: Crypto, r: Replica, m: Msg, timeStamp: int)
    requires r.view.nodesNum > 0 && !MakesNoShare(m)
    ensures Proposes(c, r, RouteBMsg(c, r, m, timeStamp))
  {
    hide CheckQC, CheckNewHsNode;
  }

  lemma DeliverProposes(c: Crypto, r: Replica, m: Msg, timeStamp: int)
    requires r.view.nodesNum > 0
    ensures var (r1, out) := HandleBMsg(c, r, m, timeStamp);
      NeverBack(r, r1) && forall p <- NewProposals(out) :: ProposedBy(c, r, r1, p)
  {
    if MakesNoShare(m) {
      LeaderProposes(c, r, m, timeStamp);
    } else {
      VoterProposesNothing(c, r, m, timeStamp);
    }
    hide RouteBMsg;
  }

  lemma RequestProposes(c: Crypto, r: Replica, height: int, preHash: Bytes, cmds: seq<Bytes>, signs: seq<Bytes>, timeStamp: int)
    requires r.Valid() && (r.curPhase == WAITING ==> r.IsLeader())
    ensures var (r1, out) := HandleReq(c, r, height, preHash, cmds, signs, timeStamp);
      NeverBack(r, r1) && forall p <- NewProposals(out) :: ProposedBy(c, r, r1, p)
  {
    hide GetHighQCIndex, Merkle.MerkleTreeHash, CutOff;
  }

  // What the step of replica i did to the invariant's part about proposals.
  lemma SentKeeps(cfg: Config, s: System, i: nat, r1: Replica, shares: Log, proposals: seq<Msg>)
    requires SystemOk(cfg, s) && cfg.Correct(i) && |proposals| <= 1
    requires NeverBack(s.replicas[i], r1)
    requires forall p <- proposals :: ProposedBy(cfg.crypto, s.replicas[i], r1, p)
    ensures SentOk(cfg, System(s.replicas[i := r1], s.log + shares, s.sent + proposals))
  {
    var r := s.replicas[i];
    assert ReplicaOk(cfg, s.log, i, r);
    assert LeaderAt(r.view.viewNumber, cfg.N()) == r.view.leader;
    hide LeaderAt, LogOk, ReplicaOk, Block.Hash;
    var replicas, sent := s.replicas[i := r1], s.sent + proposals;
    forall m | m in sent ensures cfg.Correct(LeaderAt(m.viewNumber, cfg.N())) && ProposalOk(cfg, replicas, m) {
      if m in s.sent {
        assert ProposalOk(cfg, s.replicas, m);
      } else {
        assert m in proposals;
      }
    }
    forall j, k | 0 <= j < k < |sent| ensures sent[j].viewNumber != sent[k].viewNumber {
      if k >= |s.sent| {
        assert sent[j] in s.sent && sent[k] in proposals;
        assert ProposalOk(cfg, s.replicas, sent[j]) && ProposedBy(cfg.crypto, r, r1, sent[k]);
      }
    }
  }

  /* Steps and runs */

  // A share of somebody else, or one that is no vote, leaves a replica as it was.
  lemma OthersShare(cfg: Config, log: Log, e: Entry, i: nat, r: Replica)
    requires ReplicaOk(cfg, log, i, r)
    requires e.who != i || e.kind == NEW_VIEW
    ensures ReplicaOk(cfg, log + [e], i, r)
  {
  }

  // What is to be shown of the effect on one replica.
  ghost predicate EffectOk(cfg: Config, s: System, i: nat, r: Replica, shares: Log, proposals: seq<Msg>) {
    && i < |s.replicas| && |shares| <= 1 && |proposals| <= 1
    && (forall e <- shares :: EntryOk(cfg, s.log, e) && e.who == i)
    && (cfg.Correct(i) ==>
          && ReplicaOk(cfg, s.log + shares, i, r)
          && NeverBack(s.replicas[i], r) && forall p <- proposals :: ProposedBy(cfg.crypto, s.replicas[i], r, p))
    && (!cfg.Correct(i) ==> r == s.replicas[i] && proposals == [])
  }

  lemma DeliverOk(cfg: Config, s: System, a: Action)
    requires cfg.Valid() && SystemOk(cfg, s) && Enabled(cfg, s, a) && a.Deliver?
    ensures var (r, shares, proposals) := Effect(cfg, s, a); EffectOk(cfg, s, a.i, r, shares, proposals)
  {
    assert ReplicaOk(cfg, s.log, a.i, s.replicas[a.i]);
    hide HandleBMsg, EntryOk, LogOk, SentOk, RanksOk, BlockOk;
    DeliverKeeps(cfg, s.log, a.i, s.replicas[a.i], a.m, a.timeStamp);
    DeliverProposes(cfg.crypto, s.replicas[a.i], a.m, a.timeStamp);
  }

  lemma TimeoutOk(cfg: Config, s: System, a: Action)
    requires cfg.Valid() && SystemOk(cfg, s) && Enabled(cfg, s, a) && a.Timeout?
    ensures var (r, shares, proposals) := Effect(cfg, s, a); EffectOk(cfg, s, a.i, r, shares, proposals)
  {
    var r := s.replicas[a.i];
    assert ReplicaOk(cfg, s.log, a.i, r);
    TimeoutMoves(cfg.crypto, r, a.forwards, a.sends);
    var (r1, out) := StartViewChange(cfg.crypto, r, a.forwards, a.sends);
    MoveFits(cfg, s.log, a.i, r, r1);
    OthersShare(cfg, s.log, PlainEntry(a.i, out.partialSig.content, out.viewNumber), a.i, r1);
    hide ReplicaOk, LogOk, SentOk;
  }

  lemma RequestOk(cfg: Config, s: System, a: Action)
    requires cfg.Valid() && SystemOk(cfg, s) && Enabled(cfg, s, a) && a.Request?
    ensures var (r, shares, proposals) := Effect(cfg, s, a); EffectOk(cfg, s, a.i, r, shares, proposals)
  {
    var r := s.replicas[a.i];
    assert ReplicaOk(cfg, s.log, a.i, r) && ViewOk(cfg, a.i, r);
    hide HandleReq, RanksOk, BlockOk, LogOk, SentOk;
    RequestMoves(cfg.crypto, r, a.height, a.preHash, a.cmds, a.signs, a.timeStamp);
    RequestProposes(cfg.crypto, r, a.height, a.preHash, a.cmds, a.signs, a.timeStamp);
    MoveFits(cfg, s.log, a.i, r, Effect(cfg, s, a).0);
    NoShare(s.log);
  }

  lemma EffectIsOk(cfg: Config, s: System, a: Action)
    requires cfg.Valid() && SystemOk(cfg, s) && Enabled(cfg, s, a)
    ensures var (r, shares, proposals) := Effect(cfg, s, a); EffectOk(cfg, s, a.i, r, shares, proposals)
  {
    hide SystemOk, ReplicaOk, HandleBMsg, HandleReq, StartViewChange;
    match a
    case Deliver(_, _, _) => DeliverOk(cfg, s, a);
    case Timeout(_, _, _) => TimeoutOk(cfg, s, a);
    case Request(_, _, _, _, _, _) => RequestOk(cfg, s, a);
    case Corrupt(_, _) =>
  }

  lemma ReplicasKeep(cfg: Config, s: System, i: nat, r: Replica, shares: Log, proposals: seq<Msg>)
    requires cfg.Valid() && SystemOk(cfg, s) && EffectOk(cfg, s, i, r, shares, proposals)
    ensures LogOk(cfg, s.log + shares)
    ensures forall j :: 0 <= j < cfg.N() && cfg.Correct(j) ==> ReplicaOk(cfg, s.log + shares, j, s.replicas[i := r][j])
  {
    hide ReplicaOk, SentOk;
    if shares == [] {
      NoShare(s.log);
    } else {
      assert shares == [shares[0]];
      LogOkAppend(cfg, s.log, shares[0]);
      forall j | 0 <= j < cfg.N() && cfg.Correct(j) && j != i ensures ReplicaOk(cfg, s.log + shares, j, s.replicas[j]) {
        OthersShare(cfg, s.log, shares[0], j, s.replicas[j]);
      }
    }
  }

  lemma StepKeeps(cfg: Config, s: System, a: Action)
    requires cfg.Valid() && SystemOk(cfg, s) && Enabled(cfg, s, a)
    ensures SystemOk(cfg, Apply(cfg, s, a))
  {
    EffectIsOk(cfg, s, a);
    var (r, shares, proposals) := Effect(cfg, s, a);
    hide Effect, ReplicaOk, LogOk;
    ReplicasKeep(cfg, s, a.i, r, shares, proposals);
    if cfg.Correct(a.i) {
      SentKeeps(cfg, s, a.i, r, shares, proposals);
    } else {
      assert s.replicas[a.i := r] == s.replicas && s.sent + proposals == s.sent;
    }
  }

  lemma InitOk(cfg: Config)
    requires cfg.Valid()
    ensures SystemOk(cfg, Init(cfg))
  {
  }

  lemma {:induction false} RunKeeps(cfg: Config, run: seq<System>, acts: seq<Action>, k: nat)
    requires cfg.Valid() && Run(cfg, run, acts) && k < |run|
    ensures SystemOk(cfg, run[k])
  {
    hide SystemOk, Enabled, Apply;
    if k == 0 {
      InitOk(cfg);
    } else {
      RunKeeps(cfg, run, acts, k - 1);
      assert Step(cfg, run[k - 1], acts[k - 1], run[k - 1 + 1]);
      StepKeeps(cfg, run[k - 1], acts[k - 1]);
    }
  }
}
