/** Runs of the normal case of PBFT, without view changes. */
module PbftNormalCase {
  import opened Common
  import opened Blockchain
  import opened PbftTypes
  import opened PbftSpec
  import Merkle

  datatype Event =
    | Message(m: PMsg)
    | Request(height: int, cmds: seq<Bytes>, timeStamp: int)
    | Stable(seqNum: int)

  function Handle(signer: Signer, r: Replica, e: Event): Replica
    requires r.Valid()
  {
    match e
    case Message(m) => HandlePMsg(signer, r, m).0
    case Request(height, cmds, timeStamp) => HandleReq(signer, r, height, cmds, timeStamp).0
    case Stable(seqNum) => Checkpointed(r, seqNum)
  }

  /* One replica, whatever it is sent */

  // One reply and one block a view, from view 0 on, and the sequence numbers rise.
  ghost predicate Counted(r: Replica) {
    && r.Valid() && r.view.leader == r.view.viewNumber % r.view.nodesNum
    && |r.replyMsgs| == |r.blkStore.written| == r.blkStore.height == r.view.viewNumber
    && (forall k :: 0 <= k < |r.replyMsgs| ==> r.replyMsgs[k].viewNumber == k && r.replyMsgs[k].seqNum < r.sequenceNum)
    && (forall j, k :: 0 <= j < k < |r.replyMsgs| ==> r.replyMsgs[j].seqNum < r.replyMsgs[k].seqNum)
    && (forall i :: 0 <= i < |r.msgLog| && r.msgLog[i].preprepareMsg.Some? ==> r.msgLog[i].preprepareMsg.value.viewNumber <= r.view.viewNumber)
  }

  lemma LogMsgKeeps(r: Replica, m: PMsg)
    requires Counted(r) && (m.mType == PREPREPARE ==> m.viewNumber == r.view.viewNumber)
    ensures Counted(LogMsg(r, m))
  {
  }

  lemma ReplyKeeps(signer: Signer, r: Replica, digest: Bytes)
    requires Counted(r)
    ensures Counted(Reply(signer, r, digest).0)
  {
    ModSucc(r.view.viewNumber, r.view.nodesNum);
  }

  // A vote that passes the check is for the present view, and for the logged pre-prepare.
  lemma CheckedVote(signer: Signer, r: Replica, m: PMsg)
    requires Counted(r) && m.mType != PREPREPARE
    ensures var (r1, ok) := CheckMsg(signer, r, m);
      && Counted(r1)
      && (ok ==> r1 == r && r.Slot().preprepareMsg.Some? && Matches(m, r.Slot().preprepareMsg.value) && m.viewNumber == r.view.viewNumber)
  {
    LogMsgKeeps(r, m);
  }

  lemma PrePrepareKeeps(signer: Signer, r: Replica, m: PMsg)
    requires Counted(r) && m.mType == PREPREPARE
    ensures Counted(HandlePrePrepareMsg(signer, r, m).0)
  {
    if CheckPrePrepareMsg(signer, r, m) {
      LogMsgKeeps(r, m);
      var r1 := Adopt(signer, r, m);
      assert Counted(r1);
      var r2 := r1.WithSlot(r1.Slot().(commitMsgs := Filter(r1.Slot().commitMsgs, m)));
      assert Counted(r2);
      ReplyKeeps(signer, r2, m.digest);
    }
  }

  lemma PrepareKeeps(signer: Signer, r: Replica, m: PMsg)
    requires Counted(r) && m.mType == PREPARE
    ensures Counted(HandlePrepareMsg(signer, r, m).0)
  {
    CheckedVote(signer, r, m);
    LogMsgKeeps(r, m);
  }

  lemma CommitKeeps(signer: Signer, r: Replica, m: PMsg)
    requires Counted(r) && m.mType == COMMIT
    ensures Counted(HandleCommitMsg(signer, r, m).0)
  {
    CheckedVote(signer, r, m);
    LogMsgKeeps(r, m);
    ReplyKeeps(signer, LogMsg(r, m), m.digest);
  }

  lemma HandleKeeps(signer: Signer, r: Replica, e: Event)
    requires Counted(r)
    ensures Counted(Handle(signer, r, e))
  {
    hide HandlePrePrepareMsg, HandlePrepareMsg, HandleCommitMsg;
    if e.Message? && e.m.mType == PREPREPARE { PrePrepareKeeps(signer, r, e.m); }
    if e.Message? && e.m.mType == PREPARE { PrepareKeeps(signer, r, e.m); }
    if e.Message? && e.m.mType == COMMIT { CommitKeeps(signer, r, e.m); }
  }

  function Start(signer: Signer, i: nat, n: nat): Replica {
    NewReplica(signer, i, n).(curPhase := if i == 0 then WAITING else NEW_VIEW)
  }

  ghost predicate Life(signer: Signer, i: nat, n: nat, states: seq<Replica>, events: seq<Event>) {
    && |states| == |events| + 1 && states[0] == Start(signer, i, n)
    && forall k :: 0 <= k < |events| ==> states[k].Valid() && states[k + 1] == Handle(signer, states[k], events[k])
  }

  // Whatever messages of the normal case a replica gets, in whatever order, and whoever signed
  // them (other types change nothing here, see Pbft.PBFT.HandlePMsg): its k-th
  // reply is for view k, so it replies once in each view, and sequence numbers rise strictly.
  lemma {:induction false} RepliesOncePerView(signer: Signer, i: nat, n: nat, states: seq<Replica>, events: seq<Event>, k: nat)
    requires n > 0 && Life(signer, i, n, states, events) && k <= |events|
    ensures Counted(states[k])
  {
    if k > 0 {
      RepliesOncePerView(signer, i, n, states, events, k - 1);
      HandleKeeps(signer, states[k - 1], events[k - 1]);
      assert states[k - 1 + 1] == Handle(signer, states[k - 1], events[k - 1]);
    }
  }

  /* All replicas, with one proposal per leader and view */

  // n replicas; intact tells whether blocks travel unchanged.
  datatype Net = Net(signer: Signer, n: nat, intact: bool)

  // sent holds the pre-prepare of each view that was proposed in.
  datatype System = System(nodes: seq<Replica>, sent: map<int, PMsg>)

  // m has the number and digest of pp, and its block if blocks travel unchanged.
  predicate SameProposal(net: Net, m: PMsg, pp: PMsg) {
    m.seqNum == pp.seqNum && m.digest == pp.digest && (net.intact ==> m.block == pp.block)
  }

  // No second pre-prepare of the view is signed, by whatever node: see NonLeaderProposes.
  predicate Genuine(net: Net, sent: map<int, PMsg>, m: PMsg) {
    m.mType == PREPREPARE && m.SignedOn(net.signer, m.Header()) ==> m.viewNumber in sent && SameProposal(net, m, sent[m.viewNumber])
  }

  // Votes may be anything at all.
  ghost predicate Enabled(net: Net, s: System, i: nat, e: Event) {
    && i < |s.nodes| && s.nodes[i].Valid()
    && (e.Message? ==> Genuine(net, s.sent, e.m))
    && (e.Request? ==> s.nodes[i].IsLeader() && s.nodes[i].view.viewNumber !in s.sent)
  }

  function Apply(net: Net, s: System, i: nat, e: Event): System
    requires i < |s.nodes| && s.nodes[i].Valid()
  {
    var r := s.nodes[i];
    System(s.nodes[i := Handle(net.signer, r, e)],
           if e.Request? then s.sent[r.view.viewNumber := HandleReq(net.signer, r, e.height, e.cmds, e.timeStamp).1] else s.sent)
  }

  ghost predicate Step(net: Net, s: System, s': System) {
    exists i: nat, e :: Enabled(net, s, i, e) && s' == Apply(net, s, i, e)
  }

  function Init(net: Net): System {
    System(seq(net.n, i requires 0 <= i < net.n => Start(net.signer, i, net.n)), map[])
  }

  ghost predicate Run(net: Net, run: seq<System>) {
    && net.n > 0 && run != [] && run[0] == Init(net)
    && forall k :: 0 < k < |run| ==> Step(net, run[k - 1], run[k])
  }

  /* What every such run keeps */

  // The hash of the block before view v.
  function Before(net: Net, sent: map<int, PMsg>, v: int): Bytes {
    if v - 1 in sent then sent[v - 1].block.Hash(net.signer.sum) else Merkle.EmptyHash(net.signer.sum)
  }

  ghost predicate ProposalOk(net: Net, sent: map<int, PMsg>, v: int)
    requires v in sent
  {
    var pp := sent[v];
    && pp.viewNumber == v && v >= 0 && (v > 0 ==> v - 1 in sent)
    && pp.digest == pp.block.Hash(net.signer.sum)
    && pp.block.blkHdr.height == pp.block.blkData.height == v
    && (net.intact ==> pp.block.blkHdr.preBlkHash == Before(net, sent, v))
  }

  // r is about to reply to pp and to store its block.
  predicate Holds(net: Net, r: Replica, pp: PMsg) {
    && r.sequenceNum == pp.seqNum
    && (net.intact ==> r.blkStore.curProposalBlk == pp.block && r.blkStore.curBlkHash == pp.block.Hash(net.signer.sum))
  }

  function ReplyTo(v: int, pp: PMsg): PMsg {
    NO_PMSG.(mType := REPLY, viewNumber := v, seqNum := pp.seqNum, digest := pp.digest)
  }

  // Reply k and block k are those proposed in view k.
  ghost predicate RepliesMatch(net: Net, sent: map<int, PMsg>, r: Replica) {
    |r.replyMsgs| == |r.blkStore.written| &&
    forall k :: 0 <= k < |r.replyMsgs| ==>
      && k in sent
      && r.replyMsgs[k] == ReplyTo(k, sent[k])
      && (net.intact ==> r.blkStore.written[k].Bare() == sent[k].block.Bare())
  }

  ghost predicate LogMatches(net: Net, sent: map<int, PMsg>, r: Replica) {
    forall j :: 0 <= j < |r.msgLog| && r.msgLog[j].preprepareMsg.Some? ==>
      var pp := r.msgLog[j].preprepareMsg.value; pp.viewNumber in sent && SameProposal(net, pp, sent[pp.viewNumber])
  }

  // r accepted or made the pre-prepare of its view.
  predicate HasProposal(sent: map<int, PMsg>, r: Replica)
    requires r.Valid()
  {
    var v, pp := r.view.viewNumber, r.Slot().preprepareMsg;
    (pp.Some? && pp.value.viewNumber == v) || (r.IsLeader() && v in sent)
  }

  ghost predicate NodeOk(net: Net, sent: map<int, PMsg>, i: nat, r: Replica) {
    var v := r.view.viewNumber;
    && Counted(r) && r.consId == i && r.view.nodesNum == net.n
    && RepliesMatch(net, sent, r) && LogMatches(net, sent, r)
    && (HasProposal(sent, r) ==> v in sent && Holds(net, r, sent[v]))
    && (v > 0 ==> v - 1 in sent) && (net.intact ==> r.blkStore.preBlkHash == Before(net, sent, v))
  }

  ghost predicate SystemOk(net: Net, s: System) {
    && net.n > 0 && |s.nodes| == net.n
    && (forall v <- s.sent :: ProposalOk(net, s.sent, v))
    && (forall i: nat :: i < net.n ==> NodeOk(net, s.sent, i, s.nodes[i]))
    && (forall v <- s.sent :: v <= s.nodes[LeaderAt(v, net.n)].view.viewNumber)
  }

  // No view that i leads was proposed in before i got there.
  ghost predicate NotAhead(net: Net, sent: map<int, PMsg>, i: nat, r: Replica)
    requires net.n > 0
  {
    forall w <- sent :: LeaderAt(w, net.n) == i ==> w <= r.view.viewNumber
  }

  lemma LogVoteOk(net: Net, sent: map<int, PMsg>, i: nat, r: Replica, m: PMsg)
    requires NodeOk(net, sent, i, r) && m.mType != PREPREPARE
    ensures NodeOk(net, sent, i, LogMsg(r, m))
  {
    LogMsgKeeps(r, m);
    hide Counted, Block.Hash;
    assert Counted(r) ==> r.Valid() by { CountedIsValid(r); }
  }

  lemma CountedIsValid(r: Replica)
    ensures Counted(r) ==> r.Valid() && r.view.viewNumber >= 0 && |r.replyMsgs| == |r.blkStore.written| == r.view.viewNumber
  {
  }

  lemma NewReplyMatches(net: Net, sent: map<int, PMsg>, r: Replica, digest: Bytes)
    requires Counted(r) && RepliesMatch(net, sent, r) && r.view.viewNumber in sent
    requires Holds(net, r, sent[r.view.viewNumber]) && digest == sent[r.view.viewNumber].digest
    ensures RepliesMatch(net, sent, Reply(net.signer, r, digest).0)
  {
    var v, r1 := r.view.viewNumber, Reply(net.signer, r, digest).0;
    assert r1.replyMsgs == r.replyMsgs + [ReplyTo(v, sent[v])];
    assert r1.blkStore.written[v].Bare() == r.blkStore.curProposalBlk.Bare();
    hide Counted, Block.Hash;
  }

  lemma ReplyOk(net: Net, sent: map<int, PMsg>, i: nat, r: Replica, digest: Bytes)
    requires net.n > 0 && NodeOk(net, sent, i, r) && NotAhead(net, sent, i, r)
    requires r.view.viewNumber in sent && Holds(net, r, sent[r.view.viewNumber]) && digest == sent[r.view.viewNumber].digest
    ensures NodeOk(net, sent, i, Reply(net.signer, r, digest).0)
  {
    ReplyKeeps(net.signer, r, digest);
    NewReplyMatches(net, sent, r, digest);
    var r1 := Reply(net.signer, r, digest).0;
    assert !HasProposal(sent, r1);
    hide RepliesMatch, Counted, Block.Hash, HasProposal;
  }

  lemma AdoptOk(net: Net, sent: map<int, PMsg>, i: nat, r: Replica, m: PMsg)
    requires NodeOk(net, sent, i, r) && CheckPrePrepareMsg(net.signer, r, m)
    requires m.mType == PREPREPARE && m.viewNumber in sent && SameProposal(net, m, sent[m.viewNumber])
    ensures NodeOk(net, sent, i, Adopt(net.signer, r, m)) && Holds(net, Adopt(net.signer, r, m), sent[m.viewNumber])
  {
    LogMsgKeeps(r, m);
    var r1 := Adopt(net.signer, r, m);
    assert RepliesMatch(net, sent, r1) && Counted(r1);
    hide RepliesMatch, Counted, Block.Hash;
    CountedIsValid(r);
  }

  lemma CommitsAreFree(net: Net, sent: map<int, PMsg>, i: nat, r: Replica, commits: seq<PMsg>)
    requires NodeOk(net, sent, i, r)
    ensures NodeOk(net, sent, i, r.WithSlot(r.Slot().(commitMsgs := commits)))
  {
    var r1 := r.WithSlot(r.Slot().(commitMsgs := commits));
    assert RepliesMatch(net, sent, r1) && Counted(r1);
    hide RepliesMatch, Counted, Block.Hash;
    CountedIsValid(r);
  }

  function Filtered(r: Replica, m: PMsg): Replica
    requires r.Valid()
  {
    r.WithSlot(r.Slot().(commitMsgs := Filter(r.Slot().commitMsgs, m)))
  }

  lemma EarlyCommits(signer: Signer, r: Replica, m: PMsg)
    requires r.Valid() && m.viewNumber == r.view.viewNumber
    ensures Filtered(r, m).Valid()
    ensures var r1 := CheckPrepareAndCommit(signer, r, m).0;
      r1 == r || r1 == Filtered(r, m) || r1 == Reply(signer, Filtered(r, m), m.digest).0
  {
  }

  lemma EarlyCommitsOk(net: Net, sent: map<int, PMsg>, i: nat, r: Replica, m: PMsg)
    requires net.n > 0 && NodeOk(net, sent, i, r) && NotAhead(net, sent, i, r)
    requires m.viewNumber == r.view.viewNumber && m.viewNumber in sent && m.digest == sent[m.viewNumber].digest
    requires Holds(net, r, sent[m.viewNumber])
    ensures NodeOk(net, sent, i, CheckPrepareAndCommit(net.signer, r, m).0)
  {
    assert r.Valid() by { CountedIsValid(r); }
    hide NodeOk, Reply, CheckPrepareAndCommit, AdvanceTo;
    EarlyCommits(net.signer, r, m);
    CommitsAreFree(net, sent, i, r, Filter(r.Slot().commitMsgs, m));
    ReplyOk(net, sent, i, Filtered(r, m), m.digest);
  }

  lemma PrePrepareOk(net: Net, sent: map<int, PMsg>, i: nat, r: Replica, m: PMsg)
    requires net.n > 0 && NodeOk(net, sent, i, r) && NotAhead(net, sent, i, r)
    requires m.mType == PREPREPARE && Genuine(net, sent, m)
    ensures NodeOk(net, sent, i, HandlePrePrepareMsg(net.signer, r, m).0)
  {
    assert r.Valid() by { CountedIsValid(r); }
    assert Adopt(net.signer, r, m).view == r.view;
    hide NodeOk, Adopt, CheckPrepareAndCommit, Holds;
    if CheckPrePrepareMsg(net.signer, r, m) {
      AdoptOk(net, sent, i, r, m);
      EarlyCommitsOk(net, sent, i, Adopt(net.signer, r, m), m);
    }
  }

  lemma PrepareResult(signer: Signer, r: Replica, m: PMsg)
    requires Counted(r) && m.mType == PREPARE
    ensures LogMsg(r, m).Valid()
    ensures var r1 := HandlePrepareMsg(signer, r, m).0;
      r1 == r || r1 == LogMsg(r, m) || r1 == LogMsg(r, m).(curPhase := PREPARE)
  {
    CheckedVote(signer, r, m);
    hide Counted;
  }

  lemma PhaseIsFree(net: Net, sent: map<int, PMsg>, i: nat, r: Replica, phase: StateType)
    requires NodeOk(net, sent, i, r)
    ensures NodeOk(net, sent, i, r.(curPhase := phase))
  {
    var r1 := r.(curPhase := phase);
    assert RepliesMatch(net, sent, r1) && Counted(r1);
    hide RepliesMatch, Counted, Block.Hash;
    CountedIsValid(r);
  }

  lemma PrepareOk(net: Net, sent: map<int, PMsg>, i: nat, r: Replica, m: PMsg)
    requires net.n > 0 && NodeOk(net, sent, i, r) && m.mType == PREPARE
    ensures NodeOk(net, sent, i, HandlePrepareMsg(net.signer, r, m).0)
  {
    PrepareResult(net.signer, r, m);
    LogVoteOk(net, sent, i, r, m);
    hide NodeOk, HandlePrepareMsg;
    PhaseIsFree(net, sent, i, LogMsg(r, m), PREPARE);
  }

  lemma CommitResult(signer: Signer, r: Replica, m: PMsg)
    requires Counted(r) && m.mType == COMMIT
    ensures LogMsg(r, m).Valid()
    ensures var r1 := HandleCommitMsg(signer, r, m).0;
      r1 == r || r1 == LogMsg(r, m) || (CheckMsg(signer, r, m).1 && r1 == Reply(signer, LogMsg(r, m), m.digest).0)
  {
    CheckedVote(signer, r, m);
    hide Counted, Reply;
  }

  // A commit that passes the check is for the proposal that the replica holds.
  lemma CheckedCommit(net: Net, sent: map<int, PMsg>, i: nat, r: Replica, m: PMsg)
    requires NodeOk(net, sent, i, r) && m.mType == COMMIT && CheckMsg(net.signer, r, m).1
    ensures var r1, v := LogMsg(r, m), r.view.viewNumber;
      v in sent && Holds(net, r1, sent[v]) && m.digest == sent[v].digest && r1.view == r.view
  {
    CheckedVote(net.signer, r, m);
    CountedIsValid(r);
    hide Counted, RepliesMatch, Block.Hash;
    var pp := r.Slot().preprepareMsg.value;
    assert SameProposal(net, pp, sent[pp.viewNumber]);
  }

  lemma CommitOk(net: Net, sent: map<int, PMsg>, i: nat, r: Replica, m: PMsg)
    requires net.n > 0 && NodeOk(net, sent, i, r) && NotAhead(net, sent, i, r) && m.mType == COMMIT
    ensures NodeOk(net, sent, i, HandleCommitMsg(net.signer, r, m).0)
  {
    CommitResult(net.signer, r, m);
    LogVoteOk(net, sent, i, r, m);
    hide HandleCommitMsg, NodeOk, Reply, LogMsg, CheckMsg;
    if CheckMsg(net.signer, r, m).1 {
      CheckedCommit(net, sent, i, r, m);
      ReplyOk(net, sent, i, LogMsg(r, m), m.digest);
    }
  }

  lemma RouteOk(net: Net, sent: map<int, PMsg>, i: nat, r: Replica, m: PMsg)
    requires net.n > 0 && NodeOk(net, sent, i, r) && NotAhead(net, sent, i, r) && Genuine(net, sent, m)
    ensures NodeOk(net, sent, i, RoutePMsg(net.signer, r, m).0)
  {
    assert r.Valid() by { CountedIsValid(r); }
    hide NodeOk, HandlePrePrepareMsg, HandlePrepareMsg, HandleCommitMsg, NotAhead, Genuine;
    if m.mType == PREPREPARE { PrePrepareOk(net, sent, i, r, m); }
    if m.mType == PREPARE { PrepareOk(net, sent, i, r, m); }
    if m.mType == COMMIT { CommitOk(net, sent, i, r, m); }
  }

  lemma MessageOk(net: Net, sent: map<int, PMsg>, i: nat, r: Replica, m: PMsg)
    requires net.n > 0 && NodeOk(net, sent, i, r) && NotAhead(net, sent, i, r) && Genuine(net, sent, m)
    ensures NodeOk(net, sent, i, HandlePMsg(net.signer, r, m).0)
  {
    assert r.Valid() by { CountedIsValid(r); }
    hide NodeOk, RoutePMsg;
    RouteOk(net, sent, i, r, m);
    PhaseIsFree(net, sent, i, RoutePMsg(net.signer, r, m).0, WAITING);
  }

  lemma StableNodeOk(net: Net, sent: map<int, PMsg>, i: nat, r: Replica, seqNum: int)
    requires NodeOk(net, sent, i, r)
    ensures NodeOk(net, sent, i, Checkpointed(r, seqNum))
  {
    var r1 := Checkpointed(r, seqNum);
    assert RepliesMatch(net, sent, r1) && Counted(r1);
    hide RepliesMatch, Counted, Block.Hash;
    CountedIsValid(r);
  }

  lemma NeverBack(signer: Signer, r: Replica, m: PMsg)
    requires r.Valid()
    ensures HandlePMsg(signer, r, m).0.view.viewNumber >= r.view.viewNumber
  {
    AdvanceKeepsValid(r.view, m.viewNumber);
  }

  // One node moved on, and nothing was proposed.
  lemma MoveOk(net: Net, s: System, i: nat, r: Replica)
    requires SystemOk(net, s) && i < net.n && NodeOk(net, s.sent, i, r) && s.nodes[i].view.viewNumber <= r.view.viewNumber
    ensures SystemOk(net, System(s.nodes[i := r], s.sent))
  {
    hide LeaderAt, NodeOk, ProposalOk;
    var nodes := s.nodes[i := r];
    forall j: nat | j < net.n ensures NodeOk(net, s.sent, j, nodes[j]) {
      assert j != i ==> nodes[j] == s.nodes[j];
    }
    forall v | v in s.sent ensures v <= nodes[LeaderAt(v, net.n)].view.viewNumber {
      assert v <= s.nodes[LeaderAt(v, net.n)].view.viewNumber;
    }
  }

  lemma DeliverOk(net: Net, s: System, i: nat, e: Event)
    requires SystemOk(net, s) && Enabled(net, s, i, e) && e.Message?
    ensures SystemOk(net, Apply(net, s, i, e))
  {
    var r := s.nodes[i];
    assert NodeOk(net, s.sent, i, r);
    NobodyAhead(net, s, i);
    hide NodeOk, HandlePMsg, SystemOk, Genuine, NotAhead;
    MessageOk(net, s.sent, i, r, e.m);
    NeverBack(net.signer, r, e.m);
    MoveOk(net, s, i, HandlePMsg(net.signer, r, e.m).0);
  }

  lemma NobodyAhead(net: Net, s: System, i: nat)
    requires SystemOk(net, s) && i < net.n
    ensures |s.nodes| == net.n && NotAhead(net, s.sent, i, s.nodes[i])
  {
    hide LeaderAt, NodeOk, ProposalOk;
  }

  lemma StableOk(net: Net, s: System, i: nat, e: Event)
    requires SystemOk(net, s) && Enabled(net, s, i, e) && e.Stable?
    ensures SystemOk(net, Apply(net, s, i, e))
  {
    assert |s.nodes| == net.n && NodeOk(net, s.sent, i, s.nodes[i]);
    hide NodeOk, SystemOk;
    StableNodeOk(net, s.sent, i, s.nodes[i], e.seqNum);
    MoveOk(net, s, i, Checkpointed(s.nodes[i], e.seqNum));
  }

  // A proposal changes nothing for the nodes that did not make it.
  lemma SentGrows(net: Net, sent: map<int, PMsg>, i: nat, r: Replica, v: nat, pp: PMsg)
    requires NodeOk(net, sent, i, r) && v !in sent
    requires r.view.viewNumber == v ==> !r.IsLeader()
    ensures NodeOk(net, sent[v := pp], i, r)
  {
    assert RepliesMatch(net, sent[v := pp], r);
    hide RepliesMatch, Counted, Block.Hash, SameProposal, Holds;
    CountedIsValid(r);
  }

  lemma ProposalIsOk(net: Net, sent: map<int, PMsg>, i: nat, r: Replica, e: Event)
    requires NodeOk(net, sent, i, r) && e.Request? && r.view.viewNumber !in sent && r.Valid()
    ensures ProposalOk(net, sent[r.view.viewNumber := HandleReq(net.signer, r, e.height, e.cmds, e.timeStamp).1], r.view.viewNumber)
  {
    CountedIsValid(r);
    hide RepliesMatch, LogMatches, HasProposal, Block.Hash, Merkle.HashFromByteSlices;
  }

  lemma ProposerOk(net: Net, sent: map<int, PMsg>, i: nat, r: Replica, e: Event)
    requires NodeOk(net, sent, i, r) && e.Request? && r.view.viewNumber !in sent
    ensures var (r1, pp) := HandleReq(net.signer, r, e.height, e.cmds, e.timeStamp);
      NodeOk(net, sent[r.view.viewNumber := pp], i, r1) && ProposalOk(net, sent[r.view.viewNumber := pp], r.view.viewNumber)
  {
    hide Block.Hash, Merkle.HashFromByteSlices;
    CountedIsValid(r);
    ProposalIsOk(net, sent, i, r, e);
    hide ProposalOk;
    var (r1, pp) := HandleReq(net.signer, r, e.height, e.cmds, e.timeStamp);
    LogMsgKeeps(r.(blkStore := r1.blkStore, curProposal := r1.curProposal), pp);
    RepliesStayMatched(net, sent, r, r1, r.view.viewNumber, pp);
    assert Counted(r1);
    hide RepliesMatch, Counted;
  }

  lemma RepliesStayMatched(net: Net, sent: map<int, PMsg>, r: Replica, r1: Replica, v: int, pp: PMsg)
    requires RepliesMatch(net, sent, r) && v !in sent && r1.replyMsgs == r.replyMsgs && r1.blkStore.written == r.blkStore.written
    ensures RepliesMatch(net, sent[v := pp], r1)
  {
    hide Block.Bare, ReplyTo;
  }

  lemma ProposalsStay(net: Net, sent: map<int, PMsg>, v: int, pp: PMsg, w: int)
    requires v !in sent && w in sent && ProposalOk(net, sent, w) && v >= 0
    ensures ProposalOk(net, sent[v := pp], w)
  {
    hide Block.Hash;
  }

  lemma RequestOk(net: Net, s: System, i: nat, e: Event)
    requires SystemOk(net, s) && Enabled(net, s, i, e) && e.Request?
    ensures SystemOk(net, Apply(net, s, i, e))
  {
    var r := s.nodes[i];
    var v := r.view.viewNumber;
    var (r1, pp) := HandleReq(net.signer, r, e.height, e.cmds, e.timeStamp);
    assert NodeOk(net, s.sent, i, r);
    assert v >= 0 && r1.view == r.view && LeaderAt(v, net.n) == i by { LeaderOfView(net, s.sent, i, r); }
    hide HandleReq, ProposalOk;
    ProposerOk(net, s.sent, i, r, e);
    forall j: nat | j < net.n && j != i ensures NodeOk(net, s.sent[v := pp], j, s.nodes[j]) {
      assert NodeOk(net, s.sent, j, s.nodes[j]);
      assert s.nodes[j].view.viewNumber == v ==> !s.nodes[j].IsLeader() by { LeaderOfView(net, s.sent, j, s.nodes[j]); }
      SentGrows(net, s.sent, j, s.nodes[j], v, pp);
    }
    hide LeaderAt, NodeOk;
    ProposedOk(net, s, i, r1, v, pp);
  }

  // The leader of a view is the node whose number the view gives.
  lemma LeaderOfView(net: Net, sent: map<int, PMsg>, i: nat, r: Replica)
    requires net.n > 0 && NodeOk(net, sent, i, r)
    ensures r.view.viewNumber >= 0 && (r.IsLeader() <==> LeaderAt(r.view.viewNumber, net.n) == i)
  {
    hide RepliesMatch, LogMatches, HasProposal;
  }

  lemma ProposedOk(net: Net, s: System, i: nat, r1: Replica, v: nat, pp: PMsg)
    requires SystemOk(net, s) && i < net.n && v !in s.sent && LeaderAt(v, net.n) == i
    requires r1.view == s.nodes[i].view && r1.view.viewNumber == v
    requires NodeOk(net, s.sent[v := pp], i, r1) && ProposalOk(net, s.sent[v := pp], v)
    requires forall j: nat :: j < net.n && j != i ==> NodeOk(net, s.sent[v := pp], j, s.nodes[j])
    ensures SystemOk(net, System(s.nodes[i := r1], s.sent[v := pp]))
  {
    hide LeaderAt, ProposalOk, NodeOk;
    var nodes, sent := s.nodes[i := r1], s.sent[v := pp];
    forall w | w in sent ensures ProposalOk(net, sent, w) && w <= nodes[LeaderAt(w, net.n)].view.viewNumber {
      if w != v {
        assert ProposalOk(net, s.sent, w) && w <= s.nodes[LeaderAt(w, net.n)].view.viewNumber;
        ProposalsStay(net, s.sent, v, pp, w);
      }
    }
  }

  lemma StepOk(net: Net, s: System, s': System)
    requires SystemOk(net, s) && Step(net, s, s')
    ensures SystemOk(net, s')
  {
    hide SystemOk, Genuine, Apply;
    var i: nat, e :| Enabled(net, s, i, e) && s' == Apply(net, s, i, e);
    match e
    case Message(_) => DeliverOk(net, s, i, e);
    case Request(_, _, _) => RequestOk(net, s, i, e);
    case Stable(_) => StableOk(net, s, i, e);
  }

  lemma InitOk(net: Net)
    requires net.n > 0
    ensures SystemOk(net, Init(net))
  {
  }

  lemma {:induction false} RunOk(net: Net, run: seq<System>, k: nat)
    requires Run(net, run) && k < |run|
    ensures SystemOk(net, run[k])
  {
    hide SystemOk, Step;
    if k == 0 {
      InitOk(net);
    } else {
      RunOk(net, run, k - 1);
      assert Step(net, run[k - 1], run[k]);
      StepOk(net, run[k - 1], run[k]);
    }
  }

  /* Results */

  lemma NodeOfRun(net: Net, run: seq<System>, m: nat, i: nat)
    requires Run(net, run) && m < |run| && i < |run[m].nodes|
    ensures NodeOk(net, run[m].sent, i, run[m].nodes[i]) && forall v <- run[m].sent :: ProposalOk(net, run[m].sent, v)
  {
    RunOk(net, run, m);
    hide Run, NodeOk, ProposalOk;
  }

  // The k-th reply of a replica carries digest and sequence number of the proposal of view k.
  // If blocks travel unchanged, its k-th block is the proposed one, validation aside, and
  // hashes to that digest.
  lemma ReplyIsProposed(net: Net, run: seq<System>, m: nat, i: nat, k: nat)
    requires Run(net, run) && m < |run| && i < |run[m].nodes| && k < |run[m].nodes[i].replyMsgs|
    ensures var (r, sent) := (run[m].nodes[i], run[m].sent);
      && |r.blkStore.written| == |r.replyMsgs| && k in sent && r.replyMsgs[k] == ReplyTo(k, sent[k])
      && (net.intact ==>
            && r.blkStore.written[k].Bare() == sent[k].block.Bare()
            && r.blkStore.written[k].Hash(net.signer.sum) == r.replyMsgs[k].digest)
  {
    NodeOfRun(net, run, m, i);
    var r, sent := run[m].nodes[i], run[m].sent;
    assert RepliesMatch(net, sent, r) && ProposalOk(net, sent, k);
    hide Run, NodeOk;
    if net.intact {
      BareSame(net, r.blkStore.written[k], sent[k].block);
    }
  }

  lemma BareSame(net: Net, a: Block, b: Block)
    requires a.Bare() == b.Bare()
    ensures a.Hash(net.signer.sum) == b.Hash(net.signer.sum)
    ensures a.blkData == b.blkData && a.blkHdr.height == b.blkHdr.height && a.blkHdr.preBlkHash == b.blkHdr.preBlkHash
  {
    ValidationNotHashed(a, NoSign);
    ValidationNotHashed(b, NoSign);
    assert a.Bare().blkHdr == b.Bare().blkHdr && a.Bare().blkData == b.Bare().blkData;
  }

  // Any two replicas agree on all they replied, and if blocks travel unchanged also on the
  // blocks: those of the one that is behind are the first ones of the other.
  lemma RepliesAgree(net: Net, run: seq<System>, m: nat, i: nat, j: nat)
    requires Run(net, run) && m < |run| && i < |run[m].nodes| && j < |run[m].nodes|
    requires |run[m].nodes[i].replyMsgs| <= |run[m].nodes[j].replyMsgs|
    ensures run[m].nodes[i].replyMsgs <= run[m].nodes[j].replyMsgs
    ensures net.intact ==> BareAll(run[m].nodes[i].blkStore.written) <= BareAll(run[m].nodes[j].blkStore.written)
  {
    NodeOfRun(net, run, m, i);
    NodeOfRun(net, run, m, j);
    var r, r', sent := run[m].nodes[i], run[m].nodes[j], run[m].sent;
    assert RepliesMatch(net, sent, r) && RepliesMatch(net, sent, r');
    hide Run, NodeOk, RepliesMatch;
    MatchingAgree(net, sent, r, r');
  }

  lemma MatchingAgree(net: Net, sent: map<int, PMsg>, r: Replica, r': Replica)
    requires RepliesMatch(net, sent, r) && RepliesMatch(net, sent, r') && |r.replyMsgs| <= |r'.replyMsgs|
    ensures r.replyMsgs <= r'.replyMsgs
    ensures net.intact ==> BareAll(r.blkStore.written) <= BareAll(r'.blkStore.written)
  {
    hide Block.Bare, ReplyTo;
    if net.intact {
      var some, all := BareAll(r.blkStore.written), BareAll(r'.blkStore.written);
      assert forall k :: 0 <= k < |some| ==> some[k] == all[k];
    }
  }

  // If blocks travel unchanged, what each replica stores is a hash chain, one block a view.
  lemma StoredBlocksFormChain(net: Net, run: seq<System>, m: nat, i: nat)
    requires Run(net, run) && m < |run| && i < |run[m].nodes| && net.intact
    ensures IsChain(net.signer.sum, run[m].nodes[i].blkStore.written)
    ensures |run[m].nodes[i].blkStore.written| == run[m].nodes[i].view.viewNumber
  {
    NodeOfRun(net, run, m, i);
    var r, sent := run[m].nodes[i], run[m].sent;
    assert RepliesMatch(net, sent, r) && Counted(r);
    CountedIsValid(r);
    hide Run, NodeOk, Counted, ProposalOk, IsChain;
    ProposalsChain(net, sent, r.blkStore.written);
  }

  lemma ProposalsChain(net: Net, sent: map<int, PMsg>, written: seq<Block>)
    requires net.intact && forall v <- sent :: ProposalOk(net, sent, v)
    requires forall k :: 0 <= k < |written| ==> k in sent && written[k].Bare() == sent[k].block.Bare()
    ensures IsChain(net.signer.sum, written)
  {
    hide Block.Hash, Block.Bare;
    forall k | 0 <= k < |written|
      ensures written[k].blkHdr.height == k && written[k].blkData.height == k
      ensures written[k].blkHdr.preBlkHash == Before(net, sent, k)
      ensures written[k].Hash(net.signer.sum) == sent[k].block.Hash(net.signer.sum)
    {
      assert k in sent && ProposalOk(net, sent, k);
      BareSame(net, written[k], sent[k].block);
    }
    assert -1 !in sent;
  }

  /* What one proposal a view, travelling unchanged, is needed for */

  // A pre-prepare is signed on its digest, not on its block, and a backup does not compare
  // the two: the block it stores hashes to the digest it replies exactly when the block sent
  // along does.
  lemma StoredMatchesDigestIff(signer: Signer, r: Replica, m: PMsg, blk: Block)
    requires r.Valid() && !r.IsLeader() && CheckPrePrepareMsg(signer, r, m)
    ensures var sent := m.(block := blk);
      && CheckPrePrepareMsg(signer, r, sent)
      && var (r1, reply) := Reply(signer, Adopt(signer, r, sent), sent.digest);
        |r1.blkStore.written| == |r.blkStore.written| + 1
        && (r1.blkStore.written[|r.blkStore.written|].Hash(signer.sum) == reply.digest <==> blk.Hash(signer.sum) == m.digest)
  {
    ValidationNotHashed(blk, signer.validation(Adopt(signer, r, m.(block := blk)).Slot().commitMsgs));
  }

  // Every request makes a node propose, so a second one in the same view competes with the
  // first for view and sequence number, and replaces it in the node's own log.
  lemma SecondRequestCompetes(signer: Signer, r: Replica, height: int, cmds: seq<Bytes>, timeStamp: int, cmds': seq<Bytes>, timeStamp': int)
    requires r.Valid()
    ensures var (r1, pp) := HandleReq(signer, r, height, cmds, timeStamp);
      var (r2, pp') := HandleReq(signer, r1, height, cmds', timeStamp');
      && pp.viewNumber == pp'.viewNumber == r.view.viewNumber && pp.seqNum == pp'.seqNum
      && r2.Slot().preprepareMsg == Some(pp') && r2.blkStore.curProposalBlk == pp'.block && r2.sequenceNum == pp'.seqNum
      && (cmds != cmds' ==> pp.block != pp'.block)
  {
  }

  // Nothing compares the sender of a pre-prepare with the leader. Of four nodes at the start,
  // 0 leads; 1 proposes on a request of its own; and where 2 votes for what 0 proposed, 3 votes
  // for what 1 proposed, in the same view and under the same number.
  lemma NonLeaderProposes(signer: Signer, height: int, cmds: seq<Bytes>, timeStamp: int, cmds': seq<Bytes>, timeStamp': int)
    requires forall who, content :: signer.verifySign(who, signer.sign(who, content), content)
    ensures var pp, pp' := HandleReq(signer, Start(signer, 0, 4), height, cmds, timeStamp).1, HandleReq(signer, Start(signer, 1, 4), height, cmds', timeStamp').1;
      && Start(signer, 0, 4).IsLeader() && !Start(signer, 1, 4).IsLeader()
      && HandlePMsg(signer, Start(signer, 2, 4), pp).1 == Some(Vote(signer, Start(signer, 2, 4), PREPARE, 0, pp.digest))
      && HandlePMsg(signer, Start(signer, 3, 4), pp').1 == Some(Vote(signer, Start(signer, 3, 4), PREPARE, 0, pp'.digest))
      && pp.digest == pp.block.Hash(signer.sum) && pp'.digest == pp'.block.Hash(signer.sum)
      && (cmds != cmds' ==> pp.block != pp'.block)
  {
    hide Block.Hash, Merkle.HashFromByteSlices;
    FreshBackupVotes(signer, 2, HandleReq(signer, Start(signer, 0, 4), height, cmds, timeStamp).1);
    FreshBackupVotes(signer, 3, HandleReq(signer, Start(signer, 1, 4), height, cmds', timeStamp').1);
  }

  lemma FreshBackupVotes(signer: Signer, i: nat, m: PMsg)
    requires 0 < i < 4 && m.mType == PREPREPARE && m.viewNumber == 0 && m.seqNum == 0 && m.SignedOn(signer, m.Header())
    ensures HandlePMsg(signer, Start(signer, i, 4), m).1 == Some(Vote(signer, Start(signer, i, 4), PREPARE, 0, m.digest))
  {
    hide Block.Hash;
  }
}
