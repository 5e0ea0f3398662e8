/** The four-slot window of chained HotStuff refines a plain log that is written three views late. */
module ChainedPipeline {
  import opened Common
  import opened Blockchain
  import opened HotstuffTypes
  import opened ChainedSpec
  import BasicHotstuffSpec
  import Merkle

  /* Fault-free runs in lockstep */

  // All nodes, and the new-view messages sent for the coming view.
  datatype Sys = Sys(nodes: seq<CNode>, newViews: seq<CMsg>)

  // What the network and the clients contribute to one view: which new-view messages and
  // which votes reach the leader, in which order, and the request.
  datatype Input = Input(delivered: seq<CMsg>, height: int, preHash: Bytes, cmds: seq<Bytes>, timeStamp: int, votes: seq<CMsg>)

  function Init(c: Crypto, n: nat): Sys {
    Sys(seq(n, i requires 0 <= i < n => if i == 0 then InitLeader(c, NewCNode(c, 0, n)) else NewCNode(c, i, n)), [])
  }

  function ViewAt(v: int, n: nat): View
    requires n > 0
  {
    View(v, LeaderAt(v, n), n)
  }

  lemma ViewAtNext(v: int, n: nat)
    requires n > 0
    ensures ViewAt(v, n).NextView() == ViewAt(v + 1, n)
  {
    ModSucc(v, n);
  }

  // Handles messages one after another and collects what is sent.
  function Feed(c: Crypto, r: CNode, ms: seq<CMsg>): (CNode, seq<CMsg>)
    requires r.view.nodesNum > 0
    ensures Feed(c, r, ms).0.view.nodesNum == r.view.nodesNum
  {
    if ms == [] then (r, [])
    else
      var (r1, o1) := Feed(c, r, ms[..|ms| - 1]);
      HandlingKeepsNodesNum(c, r1, ms[|ms| - 1]);
      var (r2, o2) := HandleCMsg(c, r1, ms[|ms| - 1], 0);
      (r2, o1 + o2)
  }

  lemma HandlingKeepsNodesNum(c: Crypto, r: CNode, m: CMsg)
    requires r.view.nodesNum > 0
    ensures HandleCMsg(c, r, m, 0).0.view.nodesNum == r.view.nodesNum
  {
    RoutingKeepsNodesNum(c, r, m);
    hide RouteCMsg, AfterSendAll;
    AfterSendKeeps(RouteCMsg(c, r, m, 0).0, RouteCMsg(c, r, m, 0).1);
  }

  lemma RoutingKeepsNodesNum(c: Crypto, r: CNode, m: CMsg)
    requires r.view.nodesNum > 0
    ensures RouteCMsg(c, r, m, 0).0.view.nodesNum == r.view.nodesNum
  {
    AcceptKeepsNodesNum(c, r, m);
    hide Accept, GenBlock, FirstMaxUpTo;
  }

  lemma AcceptKeepsNodesNum(c: Crypto, r: CNode, m: CMsg)
    ensures Accept(c, r, m).view == r.view
  {
    hide Block.Hash, Merkle.MerkleTreeHash;
  }

  // Sending touches two fields only.
  lemma {:induction false} AfterSendKeeps(r: CNode, outs: seq<CMsg>)
    ensures var r1 := AfterSendAll(r, outs);
      r1 == r.(curRoundMsg := r1.curRoundMsg, executeState := r1.executeState)
      && ((forall m <- outs :: m.mType != GENERIC) ==> r1.curRoundMsg == r.curRoundMsg)
  {
    if outs != [] {
      AfterSendKeeps(r, outs[..|outs| - 1]);
    }
  }

  // The leader saw the new-view messages inp.delivered and then the request.
  function AfterRequest(c: Crypto, l: CNode, inp: Input): (CNode, Option<CMsg>)
    requires l.view.nodesNum > 0
  {
    var l1 := Feed(c, l, inp.delivered).0;
    if l1.newViewMsgs == [] then (l1, None)
    else HandleReq(c, l1, inp.height, inp.preHash, inp.cmds, inp.timeStamp)
  }

  // One view in which every node takes part.
  ghost predicate Round(c: Crypto, n: nat, v: nat, s: Sys, inp: Input, s': Sys)
    requires n > 0 && |s.nodes| == n
    requires forall i :: 0 <= i < n ==> s.nodes[i].view.nodesNum == n
  {
    var (l2, proposal) := AfterRequest(c, s.nodes[LeaderAt(v, n)], inp);
    && (forall m <- inp.delivered :: m in s.newViews)
    && inp.cmds != []
    && proposal.Some? && l2.view.nodesNum == n
    && Certified(c, n, v, s, l2, proposal.value, inp.votes, s')
  }

  // Every node handles the proposal g, and the leader the votes for it.
  ghost predicate Certified(c: Crypto, n: nat, v: nat, s: Sys, l2: CNode, g: CMsg, votes: seq<CMsg>, s': Sys)
    requires n > 0 && |s.nodes| == n && l2.view.nodesNum == n
    requires forall i :: 0 <= i < n ==> s.nodes[i].view.nodesNum == n
  {
    var lead := LeaderAt(v, n);
    HandlingKeepsNodesNum(c, l2, g);
    var l3 := HandleCMsg(c, l2, g, 0).0;
    var (l4, outs) := Feed(c, l3, votes);
    && |s'.nodes| == n
    && (forall i :: 0 <= i < n && i != lead ==> s'.nodes[i] == HandleCMsg(c, s.nodes[i], g, 0).0)
    && (forall m <- votes :: IsVote(c, s, lead, l2, g, m))
    && s'.nodes[lead] == l4 && l4.view.viewNumber == v + 1
    && (forall m <- s'.newViews :: m in outs || IsNewView(c, s, lead, l2, g, m))
  }

  // What node i sends when it handles the proposal g; the leader is in state l2 by then.
  function Answers(c: Crypto, s: Sys, lead: nat, l2: CNode, g: CMsg, i: nat): seq<CMsg>
    requires i < |s.nodes| && s.nodes[i].view.nodesNum > 0 && l2.view.nodesNum > 0
  {
    HandleCMsg(c, if i == lead then l2 else s.nodes[i], g, 0).1
  }

  ghost predicate IsVote(c: Crypto, s: Sys, lead: nat, l2: CNode, g: CMsg, m: CMsg)
    requires l2.view.nodesNum > 0
    requires forall i :: 0 <= i < |s.nodes| ==> s.nodes[i].view.nodesNum > 0
  {
    exists i: nat :: i < |s.nodes| && |Answers(c, s, lead, l2, g, i)| > 0 && m == Answers(c, s, lead, l2, g, i)[0] && m.reciNode == Node(lead)
  }

  ghost predicate IsNewView(c: Crypto, s: Sys, lead: nat, l2: CNode, g: CMsg, m: CMsg)
    requires l2.view.nodesNum > 0
    requires forall i :: 0 <= i < |s.nodes| ==> s.nodes[i].view.nodesNum > 0
  {
    exists i: nat :: i < |s.nodes| && i != lead && |Answers(c, s, lead, l2, g, i)| > 1 && m == Answers(c, s, lead, l2, g, i)[1]
  }

  /* The plain log the window refines */

  // The block of slot j after the blocks of hist were proposed, one a view.
  function Slot(hist: seq<Block>, j: nat): Block {
    if j < |hist| then hist[|hist| - 1 - j] else EMPTY_BLOCK
  }

  function SlotHash(c: Crypto, hist: seq<Block>, j: nat): Bytes {
    if j < |hist| then hist[|hist| - 1 - j].Hash(c.sum) else Merkle.EmptyHash(c.sum)
  }

  // Three views late.
  function Written(hist: seq<Block>): seq<Block> {
    if |hist| >= 3 then hist[..|hist| - 3] else []
  }

  // The previous hash that block k is made with: block k-4 was the last one stored by then.
  function PrevHash(c: Crypto, hist: seq<Block>, k: nat): Bytes
    requires k <= |hist|
  {
    if k >= 4 then hist[k - 4].Hash(c.sum) else []
  }

  ghost predicate IsHistory(c: Crypto, hist: seq<Block>) {
    forall k :: 0 <= k < |hist| ==>
      && hist[k].blkHdr.height == k && hist[k].blkData.height == k && hist[k].blkHdr.viewNumber == k
      && hist[k].blkHdr.validation == NoSign && !hist[k].IsEmpty()
      && IsMade(c.sum, hist[k]) && hist[k].blkHdr.preBlkHash == PrevHash(c, hist, k)
  }

  predicate BlocksOk(hist: seq<Block>, b: Four<Block>) {
    b.s0 == Slot(hist, 0) && b.s1 == Slot(hist, 1) && b.s2 == Slot(hist, 2) && b.s3.Bare() == Slot(hist, 3)
  }

  predicate NodesOk(c: Crypto, hist: seq<Block>, h: Four<HsNode>) {
    && h.s0.curHash == SlotHash(c, hist, 0) && h.s1.curHash == SlotHash(c, hist, 1)
    && h.s2.curHash == SlotHash(c, hist, 2) && h.s3.curHash == SlotHash(c, hist, 3)
    && h.s0.parentHash == h.s1.curHash && h.s1.parentHash == h.s2.curHash && h.s2.parentHash == h.s3.curHash
  }

  // What the votes for the nodes of view v are signed on.
  function CertBytes(v: int, nodes: Four<HsNode>): Bytes {
    NO_CMSG.(mType := GENERIC, viewNumber := v, hsNodes := nodes).ChainedMessage2Byte()
  }

  ghost predicate Verifies(c: Crypto, v: int, nodes: Four<HsNode>, sign: Signature) {
    c.Sound() ==> c.ThresholdSignVerify(CertBytes(v, nodes), sign)
  }

  // sign certifies, in view k+2, a window whose third node is that of block k.
  ghost predicate Certifies(c: Crypto, hist: seq<Block>, k: nat, nodes: Four<HsNode>, sign: Signature)
    requires k + 3 <= |hist|
  {
    NodesOk(c, hist[..k + 3], nodes) && Verifies(c, k + 2, nodes, sign)
  }

  ghost predicate CertifiedAt(c: Crypto, hist: seq<Block>, k: nat, sign: Signature)
    requires k + 3 <= |hist|
  {
    exists nodes :: Certifies(c, hist, k, nodes, sign)
  }

  ghost predicate Stored(c: Crypto, hist: seq<Block>, s: Store) {
    && BareAll(s.written) == Written(hist) && s.preBlkHash == PrevHash(c, hist, |hist|) && s.height == 0
    && |s.written| == |Written(hist)| && forall k: nat :: k < |s.written| ==> CertifiedAt(c, hist, k, s.written[k].blkHdr.validation)
  }

  ghost predicate StoreOk(c: Crypto, hist: seq<Block>, s: Store) {
    s.generatedHeight == |hist| && Stored(c, hist, s)
  }

  // A certificate of the view before, for the newest node; the first leader starts without.
  ghost predicate ExtendsTip(c: Crypto, hist: seq<Block>, qc: ChainedQC) {
    && qc.viewNumber == |hist| - 1 && qc.hsNodes.s0.curHash == SlotHash(c, hist, 0)
    && (hist != [] ==> qc.qType == GENERIC && NodesOk(c, hist, qc.hsNodes) && Verifies(c, |hist| - 1, qc.hsNodes, qc.sign))
  }

  // The lock is on the node before the newest; only the last leader has a certificate for the newest.
  ghost predicate CertsOk(c: Crypto, n: nat, hist: seq<Block>, i: nat, r: CNode)
    requires n > 0 && hist != []
  {
    && ExtendsTip(c, hist[..|hist| - 1], r.lockedQC)
    && (if i == LeaderAt(|hist| - 1, n) then ExtendsTip(c, hist, r.genericQC) else r.genericQC == r.lockedQC)
  }

  // A node between views: |hist| views are over.
  ghost predicate NodeOk(c: Crypto, n: nat, hist: seq<Block>, i: nat, r: CNode) {
    var v := |hist|;
    && 0 < n && r.consId == i && r.view == ViewAt(v, n)
    && BlocksOk(hist, r.blocks) && NodesOk(c, hist, r.hsNodes) && StoreOk(c, hist, r.blkStore)
    && r.curProposal == NO_PROPOSAL && !r.viewChangeFlag && !r.lastLeaderState && (v > 0 ==> CertsOk(c, n, hist, i, r))
    && (if v == 0 && i == 0 then r.curPhase == WAITING && forall m <- r.newViewMsgs :: m == InitMsg(c)
        else r.curPhase == NEW_VIEW && r.newViewMsgs == [])
  }

  // The last leader reports the certificate for its own node, all others the one before.
  ghost predicate NewViewMsgOk(c: Crypto, n: nat, hist: seq<Block>, m: CMsg)
    requires n > 0
  {
    var v := |hist|;
    && m.mType == NEW_VIEW && m.viewNumber == v && m.reciNode == Node(LeaderAt(v, n))
    && (if m.sendNode == Some(LeaderAt(v - 1, n)) then ExtendsTip(c, hist, m.justify)
        else m.justify.viewNumber < v - 1)
  }

  ghost predicate SysOk(c: Crypto, n: nat, hist: seq<Block>, s: Sys) {
    && 0 < n && |s.nodes| == n && IsHistory(c, hist)
    && (forall i :: 0 <= i < n ==> NodeOk(c, n, hist, i, s.nodes[i]))
    && (forall m <- s.newViews :: NewViewMsgOk(c, n, hist, m))
  }

  /* The leader waits for the last leader's certificate */

  ghost predicate Waiting(c: Crypto, n: nat, hist: seq<Block>, r: CNode, r1: CNode)
    requires n > 0
  {
    && r1 == r.(newViewMsgs := r1.newViewMsgs, lastLeaderState := r1.lastLeaderState, curPhase := r1.curPhase)
    && (r1.curPhase == NEW_VIEW || r1.curPhase == WAITING)
    && (forall m <- r1.newViewMsgs :: NewViewMsgOk(c, n, hist, m))
    && (r1.lastLeaderState || r1.curPhase == WAITING ==> exists m <- r1.newViewMsgs :: m.sendNode == Some(LeaderAt(|hist| - 1, n)))
  }

  lemma LastLeaderIs(v: nat, n: nat)
    requires 0 < n && 0 < v
    ensures (LeaderAt(v, n) + n - 1) % n == LeaderAt(v - 1, n)
  {
    var q, r := v / n, v % n;
    if r == 0 {
      ModUnique(v - 1, q - 1, n - 1, n);
    } else {
      ModUnique(v - 1, q, r - 1, n);
      ModUnique(r + n - 1, 1, r - 1, n);
    }
  }

  // What the leader does with a new-view message before it proposes.
  lemma NewViewHeard(c: Crypto, r: CNode, m: CMsg)
    requires r.view.nodesNum > 0 && m.mType == NEW_VIEW && r.curProposal == NO_PROPOSAL && !r.viewChangeFlag
    ensures var r1, r2 := HandleCMsg(c, r, m, 0).0, LogNewView(r, m);
      || r1 == r
      || (r.curPhase == NEW_VIEW && r1 == r2)
      || (r.curPhase == NEW_VIEW && r2.lastLeaderState && r1 == r2.(lastLeaderState := false, curPhase := WAITING))
  {
    hide LogNewView, Propose, CHandleGeneric, CHandleGenericVote;
    assert LogNewView(r, m).curProposal == NO_PROPOSAL && !LogNewView(r, m).viewChangeFlag by { LogKeeps(r, m); }
  }

  lemma LogKeeps(r: CNode, m: CMsg)
    requires r.view.nodesNum > 0
    ensures var r2 := LogNewView(r, m);
      && r2 == r.(newViewMsgs := r2.newViewMsgs, lastLeaderState := r2.lastLeaderState)
      && (r2.newViewMsgs == r.newViewMsgs || r2.newViewMsgs == r.newViewMsgs + [m])
      && (r2.lastLeaderState && !r.lastLeaderState ==> m.sendNode == Some(r.LastLeader()) && r2.newViewMsgs == r.newViewMsgs + [m])
  {
  }

  lemma HearsNewView(c: Crypto, n: nat, hist: seq<Block>, r: CNode, r1: CNode, m: CMsg)
    requires n > 0 && NodeOk(c, n, hist, LeaderAt(|hist|, n), r) && |hist| > 0
    requires Waiting(c, n, hist, r, r1) && NewViewMsgOk(c, n, hist, m)
    ensures Waiting(c, n, hist, r, HandleCMsg(c, r1, m, 0).0)
  {
    LastLeaderIs(|hist|, n);
    assert r1.LastLeader() == LeaderAt(|hist| - 1, n) && r1.view.nodesNum > 0 && r1.curProposal == NO_PROPOSAL && !r1.viewChangeFlag;
    hide NodeOk, NewViewMsgOk, LeaderAt, HandleCMsg, LogNewView, CNode.LastLeader;
    NewViewMsgType(c, n, hist, m);
    NewViewHeard(c, r1, m);
    LogKeeps(r1, m);
    var r2 := LogNewView(r1, m);
    assert forall x <- r1.newViewMsgs :: x in r2.newViewMsgs;
    assert r2.newViewMsgs != r1.newViewMsgs ==> m in r2.newViewMsgs;
  }

  lemma NewViewMsgType(c: Crypto, n: nat, hist: seq<Block>, m: CMsg)
    requires n > 0 && NewViewMsgOk(c, n, hist, m)
    ensures m.mType == NEW_VIEW
  {
  }

  lemma {:induction false} FeedNewViews(c: Crypto, n: nat, hist: seq<Block>, r: CNode, ms: seq<CMsg>)
    requires n > 0 && NodeOk(c, n, hist, LeaderAt(|hist|, n), r) && |hist| > 0
    requires forall m <- ms :: NewViewMsgOk(c, n, hist, m)
    ensures Waiting(c, n, hist, r, Feed(c, r, ms).0)
    decreases |ms|
  {
    hide HandleCMsg, NewViewMsgOk, NodesOk, BlocksOk, StoreOk, LeaderAt;
    if ms != [] {
      var before, m := ms[..|ms| - 1], ms[|ms| - 1];
      FeedNewViews(c, n, hist, r, before);
      assert m in ms;
      HearsNewView(c, n, hist, r, Feed(c, r, before).0, m);
    }
  }

  lemma HighExtendsTip(c: Crypto, n: nat, hist: seq<Block>, r: CNode, inp: Input, l2: CNode, g: CMsg)
    requires n > 0 && NodeOk(c, n, hist, LeaderAt(|hist|, n), r) && (forall m <- inp.delivered :: NewViewMsgOk(c, n, hist, m))
    requires |hist| == 0 ==> inp.delivered == []
    requires AfterRequest(c, r, inp) == (l2, Some(g))
    ensures var l1 := Feed(c, r, inp.delivered).0;
      && l1 == r.(newViewMsgs := l1.newViewMsgs, lastLeaderState := l1.lastLeaderState, curPhase := WAITING)
      && ExtendsTip(c, hist, GetHighChainedQC(l1.newViewMsgs).justify)
  {
    var l1 := Feed(c, r, inp.delivered).0;
    var msgs := l1.newViewMsgs;
    FirstMaxIsMax(JustifyViews(msgs), |msgs|);
    assert GetHighChainedQC(msgs) in msgs;
    if |hist| > 0 {
      FeedNewViews(c, n, hist, r, inp.delivered);
      var m :| m in msgs && m.sendNode == Some(LeaderAt(|hist| - 1, n));
      var i :| 0 <= i < |msgs| && msgs[i] == m;
      assert JustifyViews(msgs)[i] == m.justify.viewNumber;
      assert GetHighChainedQC(msgs).justify.viewNumber >= |hist| - 1;
    }
  }

  /* The proposal */

  // g proposes the block that comes next after hist.
  ghost predicate Proposes(c: Crypto, hist: seq<Block>, cmds: seq<Bytes>, g: CMsg) {
    && g.mType == GENERIC && g.viewNumber == |hist| && g.reciNode == Broadcast && g.blk.blkHdr.validation == NoSign
    && g.blk.blkHdr.height == g.blk.blkData.height == g.blk.blkHdr.viewNumber == |hist|
    && CutFrom(g.blk.blkData.trans, cmds) && !g.blk.IsEmpty()
    && IsMade(c.sum, g.blk) && g.blk.blkHdr.preBlkHash == PrevHash(c, hist, |hist|)
    && NodesOk(c, hist + [g.blk], g.hsNodes) && ExtendsTip(c, hist, g.justify)
  }

  lemma HistoryGrows(c: Crypto, hist: seq<Block>, cmds: seq<Bytes>, g: CMsg)
    requires IsHistory(c, hist) && Proposes(c, hist, cmds, g)
    ensures IsHistory(c, hist + [g.blk])
  {
    hide IsMade, Block.Hash, CutFrom, NodesOk, ExtendsTip, Block.IsEmpty;
    var h := hist + [g.blk];
    forall k | 0 <= k < |h| ensures h[k].blkHdr.preBlkHash == PrevHash(c, h, k) {
      if k < |hist| { assert hist[k].blkHdr.preBlkHash == PrevHash(c, hist, k); }
    }
  }

  // The leader's state once it proposed: its blocks have moved on, its nodes have not.
  ghost predicate LeaderHalf(c: Crypto, n: nat, hist: seq<Block>, g: CMsg, r: CNode) {
    var v := |hist|;
    && 0 < n && r.consId == LeaderAt(v, n) && r.view == ViewAt(v, n) && r.curPhase == HALF_GENERIC
    && BlocksOk(hist + [g.blk], r.blocks)
    && r.blkStore.generatedHeight == v + 1 && Stored(c, hist, r.blkStore) && r.curRoundMsg == g
    && !r.viewChangeFlag && !r.lastLeaderState
  }

  lemma SlotsMove(c: Crypto, hist: seq<Block>, blk: Block)
    ensures var h := hist + [blk];
      && Slot(h, 0) == blk && Slot(h, 1) == Slot(hist, 0) && Slot(h, 2) == Slot(hist, 1) && Slot(h, 3) == Slot(hist, 2)
      && SlotHash(c, h, 0) == blk.Hash(c.sum) && SlotHash(c, h, 1) == SlotHash(c, hist, 0)
      && SlotHash(c, h, 2) == SlotHash(c, hist, 1) && SlotHash(c, h, 3) == SlotHash(c, hist, 2)
  {
  }

  // What a waiting leader makes of a request with commands.
  lemma RequestMakes(c: Crypto, r: CNode, height: int, preHash: Bytes, cmds: seq<Bytes>, timeStamp: int)
    requires r.curPhase == WAITING && r.newViewMsgs != [] && cmds != [] && HandleReq(c, r, height, preHash, cmds, timeStamp).1.Some?
    ensures var (l2, out) := HandleReq(c, r, height, preHash, cmds, timeStamp);
      var g, high := out.value, GetHighChainedQC(r.newViewMsgs).justify;
      && g.mType == GENERIC && g.viewNumber == r.view.viewNumber && g.reciNode == Broadcast && g.sendNode == Some(r.consId)
      && IsMade(c.sum, g.blk) && g.blk.blkHdr.validation == NoSign && CutFrom(g.blk.blkData.trans, cmds) && !g.blk.IsEmpty()
      && g.blk.blkHdr.height == r.blkStore.generatedHeight && g.blk.blkHdr.viewNumber == r.view.viewNumber && g.blk.blkHdr.preBlkHash == r.blkStore.preBlkHash
      && g.hsNodes == r.hsNodes.Push(HsNode(g.blk.Hash(c.sum), high.hsNodes.s0.curHash)) && g.justify == high
      && g.proposal.commands == cmds && g.proposal.rootHash == Merkle.MerkleTreeHash(c.sum, cmds)
      && l2.consId == r.consId && l2.view == r.view && l2.curPhase == HALF_GENERIC && l2.blocks == r.blocks.Push(g.blk)
      && l2.curRoundMsg == g && l2.viewChangeFlag == r.viewChangeFlag && !l2.lastLeaderState && l2.lockedQC == r.lockedQC
      && l2.blkStore.generatedHeight == g.blk.blkHdr.height + 1 && l2.blkStore.height == r.blkStore.height
      && l2.blkStore.written == r.blkStore.written && l2.blkStore.preBlkHash == r.blkStore.preBlkHash
  {
    BasicHotstuffSpec.CutOffCuts(cmds);
    hide BasicHotstuffSpec.CutOff, FirstMaxUpTo, Block.HashedBytes, Merkle.HashFromByteSlices, Merkle.MerkleTreeHash;
  }

  lemma LeaderProposes(c: Crypto, n: nat, hist: seq<Block>, r: CNode, inp: Input, l2: CNode, g: CMsg)
    requires n > 0 && NodeOk(c, n, hist, LeaderAt(|hist|, n), r) && IsHistory(c, hist) && inp.cmds != []
    requires (forall m <- inp.delivered :: NewViewMsgOk(c, n, hist, m)) && (|hist| == 0 ==> inp.delivered == [])
    requires AfterRequest(c, r, inp) == (l2, Some(g))
    ensures Proposes(c, hist, inp.cmds, g) && LeaderHalf(c, n, hist, g, l2)
  {
    HighExtendsTip(c, n, hist, r, inp, l2, g);
    SlotsMove(c, hist, g.blk);
    var l1 := Feed(c, r, inp.delivered).0;
    assert l1.newViewMsgs != [] && HandleReq(c, l1, inp.height, inp.preHash, inp.cmds, inp.timeStamp) == (l2, Some(g));
    RequestMakes(c, l1, inp.height, inp.preHash, inp.cmds, inp.timeStamp);
    assert !r.viewChangeFlag && l1.blkStore == r.blkStore && l1.hsNodes == r.hsNodes && l1.blocks == r.blocks;
    hide HandleReq, Feed, AfterRequest, CutFrom, IsMade, Block.Hash, Block.IsEmpty, GetHighChainedQC, IsHistory, NewViewMsgOk, SlotHash, Slot, PrevHash;
  }

  /* Every node accepts it */

  lemma CertifiedGrows(c: Crypto, hist: seq<Block>, blk: Block, k: nat, sign: Signature)
    requires k + 3 <= |hist| && CertifiedAt(c, hist, k, sign)
    ensures CertifiedAt(c, hist + [blk], k, sign)
  {
    assert (hist + [blk])[..k + 3] == hist[..k + 3];
    var nodes :| Certifies(c, hist, k, nodes, sign);
    assert Certifies(c, hist + [blk], k, nodes, sign);
  }

  // What the oldest slot holds, and what it is called.
  lemma OldestSlot(c: Crypto, hist: seq<Block>, blk: Block, r: CNode)
    requires IsHistory(c, hist + [blk]) && BlocksOk(hist + [blk], r.blocks) && NodesOk(c, hist + [blk], r.hsNodes)
    ensures |hist| < 3 ==> r.blocks.s3.IsEmpty()
    ensures |hist| >= 3 ==>
      && !r.blocks.s3.IsEmpty() && r.blocks.s3.Bare() == (hist + [blk])[|hist| - 3]
      && r.blocks.s3.Hash(c.sum) == r.hsNodes.s3.curHash == (hist + [blk])[|hist| - 3].Hash(c.sum)
  {
    ValidationNotHashed(r.blocks.s3, NoSign);
    hide IsMade, Block.HashedBytes;
    assert r.blocks.s3.Bare().blkData == r.blocks.s3.blkData;
  }

  // The oldest slot is written exactly when it is filled.
  lemma OldestIsStored(c: Crypto, hist: seq<Block>, blk: Block, r: CNode, m: CMsg)
    requires IsHistory(c, hist + [blk]) && BlocksOk(hist + [blk], r.blocks) && NodesOk(c, hist + [blk], r.hsNodes) && m.hsNodes == r.hsNodes
    requires Stored(c, hist, r.blkStore) && ExtendsTip(c, hist, m.justify)
    ensures var r1 := Advance(c, r, m);
      && r1 == r.(genericQC := m.justify, lockedQC := m.justify, executeState := true, blocks := r1.blocks, blkStore := r1.blkStore)
      && BlocksOk(hist + [blk], r1.blocks)
      && r1.blkStore.generatedHeight == r.blkStore.generatedHeight && Stored(c, hist + [blk], r1.blkStore)
  {
    OldestSlot(c, hist, blk, r);
    var r1 := Advance(c, r, m);
    if |hist| >= 3 {
      AdvanceStores(c, hist, blk, r, m);
    } else {
      hide Block.Hash, IsHistory, ExtendsTip, Block.IsEmpty;
    }
  }

  lemma AdvanceStores(c: Crypto, hist: seq<Block>, blk: Block, r: CNode, m: CMsg)
    requires |hist| >= 3 && BlocksOk(hist + [blk], r.blocks) && NodesOk(c, hist + [blk], r.hsNodes) && m.hsNodes == r.hsNodes
    requires Stored(c, hist, r.blkStore) && ExtendsTip(c, hist, m.justify)
    requires !r.blocks.s3.IsEmpty() && r.blocks.s3.Bare() == (hist + [blk])[|hist| - 3]
      && r.blocks.s3.Hash(c.sum) == r.hsNodes.s3.curHash == (hist + [blk])[|hist| - 3].Hash(c.sum)
    ensures var r1 := Advance(c, r, m);
      && r1 == r.(genericQC := m.justify, lockedQC := m.justify, executeState := true, blocks := r1.blocks, blkStore := r1.blkStore)
      && BlocksOk(hist + [blk], r1.blocks)
      && r1.blkStore.generatedHeight == r.blkStore.generatedHeight && Stored(c, hist + [blk], r1.blkStore)
  {
    var b, store := r.blocks.s3, StoreOldest(c, r, m.justify.sign).blkStore;
    var done := b.WithValidation(m.justify.sign);
    ValidationNotHashed(b, m.justify.sign);
    assert store.written == r.blkStore.written + [done] && store.preBlkHash == b.Hash(c.sum) && store.height == r.blkStore.height && done.Bare() == b.Bare();
    OneMoreStored(c, hist, blk, r.blkStore, store, done, m.justify);
    hide Block.Hash, Stored, ExtendsTip, Block.IsEmpty;
  }

  lemma OneMoreStored(c: Crypto, hist: seq<Block>, blk: Block, s: Store, s1: Store, done: Block, qc: ChainedQC)
    requires |hist| >= 3 && Stored(c, hist, s) && ExtendsTip(c, hist, qc)
    requires s1.written == s.written + [done] && done.Bare() == (hist + [blk])[|hist| - 3] && done.blkHdr.validation == qc.sign
    requires s1.preBlkHash == (hist + [blk])[|hist| - 3].Hash(c.sum) && s1.height == s.height
    ensures Stored(c, hist + [blk], s1)
  {
    var h := hist + [blk];
    hide Block.Hash, NodesOk, Verifies;
    assert Written(h) == Written(hist) + [done.Bare()];
    assert BareAll(s1.written) == BareAll(s.written) + [done.Bare()];
    assert hist[..|hist|] == hist;
    assert Certifies(c, hist, |h| - 4, qc.hsNodes, qc.sign);
    forall k: nat | k < |s1.written| ensures CertifiedAt(c, h, k, s1.written[k].blkHdr.validation) {
      CertifiedGrows(c, hist, blk, k, s1.written[k].blkHdr.validation);
    }
  }

  // The proposal passes the checks of a node that follows.
  lemma FollowerChecks(c: Crypto, n: nat, hist: seq<Block>, cmds: seq<Bytes>, i: nat, r: CNode, g: CMsg)
    requires IsDigest(c.sum) && NodeOk(c, n, hist, i, r) && i != LeaderAt(|hist|, n) && Proposes(c, hist, cmds, g)
    ensures CheckNewCHsNode(r, g) && g.mType == GENERIC && g.viewNumber == r.view.viewNumber && !r.IsLeader() && !r.lastLeaderState
    ensures n > 0 && r.view == ViewAt(|hist|, n) && r.consId == i && r.curPhase == NEW_VIEW && r.curProposal == NO_PROPOSAL
    ensures BlocksOk(hist, r.blocks) && Stored(c, hist, r.blkStore)
  {
    SlotsMove(c, hist, g.blk);
    hide CutFrom, IsMade, Block.IsEmpty, Slot, BlocksOk, Stored, CertsOk;
  }

  lemma FollowerWindow(c: Crypto, n: nat, hist: seq<Block>, cmds: seq<Bytes>, i: nat, r: CNode, g: CMsg)
    requires IsDigest(c.sum) && IsHistory(c, hist) && IsHistory(c, hist + [g.blk])
    requires NodeOk(c, n, hist, i, r) && i != LeaderAt(|hist|, n) && Proposes(c, hist, cmds, g)
    ensures CheckNewCHsNode(r, g) && g.mType == GENERIC && g.viewNumber == r.view.viewNumber && !r.IsLeader() && !r.lastLeaderState
    ensures n > 0 && r.view == ViewAt(|hist|, n) && r.consId == i
    ensures var r1 := Accept(c, r, g);
      && r1.view == r.view && r1.curPhase == NEW_VIEW && r1.consId == i && r1.newViewMsgs == []
      && r1.curProposal == NO_PROPOSAL && !r1.viewChangeFlag && !r1.lastLeaderState
      && BlocksOk(hist + [g.blk], r1.blocks) && NodesOk(c, hist + [g.blk], r1.hsNodes) && StoreOk(c, hist + [g.blk], r1.blkStore)
      && r1.genericQC == r1.lockedQC == g.justify && r1.hsNodes == g.hsNodes
  {
    FollowerChecks(c, n, hist, cmds, i, r, g);
    SlotsMove(c, hist, g.blk);
    var r0 := UpdateBlock(c, r.(viewChangeFlag := false), g.blk).(hsNodes := g.hsNodes);
    assert Stored(c, hist, r0.blkStore) && BlocksOk(hist + [g.blk], r0.blocks);
    hide NodeOk, Stored, BlocksOk, Advance, Slot, SlotHash, CheckNewCHsNode, IsHistory, NodesOk, ExtendsTip, Block.Hash;
    OldestIsStored(c, hist, g.blk, r0, g);
  }

  // What a node that does not lead does with a proposal it accepts.
  lemma FollowerAnswers(c: Crypto, r: CNode, g: CMsg)
    requires r.view.nodesNum > 0 && !r.IsLeader() && !r.lastLeaderState
    requires g.mType == GENERIC && g.viewNumber == r.view.viewNumber && CheckNewCHsNode(r, g)
    requires Accept(c, r, g).view == r.view && !Accept(c, r, g).lastLeaderState && Accept(c, r, g).consId == r.consId
    ensures var (r1, r2, outs) := (Accept(c, r, g), HandleCMsg(c, r, g, 0).0, HandleCMsg(c, r, g, 0).1);
      && r2 == r1.(view := r.view.NextView(), curRoundMsg := r2.curRoundMsg, executeState := r2.executeState)
      && |outs| == 2
      && outs[0] == GenericVote(c, r, g).(sendNode := Some(r.consId))
      && outs[1].mType == NEW_VIEW && outs[1].viewNumber == r.view.viewNumber + 1
      && outs[1].justify == r1.genericQC && outs[1].hsNodes == r1.hsNodes && outs[1].sendNode == Some(r.consId)
      && outs[1].reciNode == Node(r.view.NextView().leader)
  {
    var (r1, outs) := CHandleGeneric(c, r, g);
    assert RouteCMsg(c, r, g, 0) == (r1, outs);
    hide Accept, RouteCMsg, CheckNewCHsNode, AfterSendAll;
    AfterSendKeeps(r1, outs);
  }

  lemma BetweenViews(c: Crypto, n: nat, hist: seq<Block>, i: nat, r: CNode)
    requires n > 0 && hist != [] && r.consId == i && r.view == ViewAt(|hist|, n)
    requires BlocksOk(hist, r.blocks) && NodesOk(c, hist, r.hsNodes) && StoreOk(c, hist, r.blkStore)
    requires r.curProposal == NO_PROPOSAL && !r.viewChangeFlag && !r.lastLeaderState && r.curPhase == NEW_VIEW && r.newViewMsgs == []
    requires CertsOk(c, n, hist, i, r)
    ensures NodeOk(c, n, hist, i, r)
  {
  }

  // What a node that follows does with the proposal: its next state, and its two messages.
  lemma FollowerHandles(c: Crypto, n: nat, hist: seq<Block>, cmds: seq<Bytes>, i: nat, r: CNode, g: CMsg)
    requires IsDigest(c.sum) && IsHistory(c, hist) && IsHistory(c, hist + [g.blk])
    requires NodeOk(c, n, hist, i, r) && i != LeaderAt(|hist|, n) && Proposes(c, hist, cmds, g)
    ensures n > 0 && r.view.nodesNum > 0
    ensures var (r1, r2, outs) := (Accept(c, r, g), HandleCMsg(c, r, g, 0).0, HandleCMsg(c, r, g, 0).1);
      && r2.consId == i && r2.view == ViewAt(|hist| + 1, n) && r2.curPhase == NEW_VIEW && r2.newViewMsgs == []
      && r2.curProposal == NO_PROPOSAL && !r2.viewChangeFlag && !r2.lastLeaderState
      && r2.blocks == r1.blocks && r2.hsNodes == r1.hsNodes && r2.blkStore == r1.blkStore
      && r2.genericQC == r2.lockedQC == g.justify && r1.hsNodes == g.hsNodes
      && BlocksOk(hist + [g.blk], r1.blocks) && NodesOk(c, hist + [g.blk], r1.hsNodes) && StoreOk(c, hist + [g.blk], r1.blkStore)
      && |outs| == 2
      && outs[0] == GenericVote(c, r, g).(sendNode := Some(i)) && r.view.leader == LeaderAt(|hist|, n)
      && outs[1].mType == NEW_VIEW && outs[1].viewNumber == |hist| + 1 && outs[1].reciNode == Node(LeaderAt(|hist| + 1, n))
      && outs[1].justify == g.justify && outs[1].hsNodes == g.hsNodes && outs[1].sendNode == Some(i)
  {
    FollowerWindow(c, n, hist, cmds, i, r, g);
    ViewAtNext(|hist|, n);
    hide NodeOk, LeaderAt, View.NextView, HandleCMsg, Accept, CheckNewCHsNode, BlocksOk, NodesOk, StoreOk, IsHistory, GenericVote, Proposes, CNode.IsLeader;
    FollowerAnswers(c, r, g);
  }

  lemma FollowerMoves(c: Crypto, n: nat, hist: seq<Block>, cmds: seq<Bytes>, i: nat, r: CNode, g: CMsg)
    requires IsDigest(c.sum) && IsHistory(c, hist) && IsHistory(c, hist + [g.blk])
    requires NodeOk(c, n, hist, i, r) && i != LeaderAt(|hist|, n) && Proposes(c, hist, cmds, g)
    ensures r.view.nodesNum > 0 && NodeOk(c, n, hist + [g.blk], i, HandleCMsg(c, r, g, 0).0)
  {
    FollowerHandles(c, n, hist, cmds, i, r, g);
    JustifyExtends(c, hist, cmds, g);
    hide NodeOk, LeaderAt, HandleCMsg, Accept, BlocksOk, NodesOk, StoreOk, IsHistory, GenericVote, Proposes, ExtendsTip;
    assert (hist + [g.blk])[..|hist + [g.blk]| - 1] == hist;
    BetweenViews(c, n, hist + [g.blk], i, HandleCMsg(c, r, g, 0).0);
  }

  lemma JustifyExtends(c: Crypto, hist: seq<Block>, cmds: seq<Bytes>, g: CMsg)
    requires Proposes(c, hist, cmds, g)
    ensures ExtendsTip(c, hist, g.justify) && g.viewNumber == |hist|
  {
  }

  lemma FollowerSends(c: Crypto, n: nat, hist: seq<Block>, cmds: seq<Bytes>, i: nat, r: CNode, g: CMsg)
    requires IsDigest(c.sum) && IsHistory(c, hist) && IsHistory(c, hist + [g.blk])
    requires NodeOk(c, n, hist, i, r) && i != LeaderAt(|hist|, n) && Proposes(c, hist, cmds, g)
    ensures r.view.nodesNum > 0
    ensures var outs := HandleCMsg(c, r, g, 0).1;
      && |outs| == 2
      && outs[0].mType == GENERIC_VOTE && outs[0].viewNumber == |hist| && outs[0].hsNodes == g.hsNodes
      && outs[0].reciNode == Node(LeaderAt(|hist|, n))
      && NewViewMsgOk(c, n, hist + [g.blk], outs[1])
  {
    FollowerHandles(c, n, hist, cmds, i, r, g);
    JustifyExtends(c, hist, cmds, g);
    TipView(c, hist, g.justify);
    hide NodeOk, LeaderAt, HandleCMsg, Accept, BlocksOk, NodesOk, StoreOk, IsHistory, Proposes, ExtendsTip;
  }

  lemma TipView(c: Crypto, hist: seq<Block>, qc: ChainedQC)
    requires ExtendsTip(c, hist, qc)
    ensures qc.viewNumber == |hist| - 1
  {
  }

  lemma LeaderAccepts(c: Crypto, n: nat, hist: seq<Block>, cmds: seq<Bytes>, r: CNode, g: CMsg)
    requires IsDigest(c.sum) && IsHistory(c, hist) && IsHistory(c, hist + [g.blk])
    requires LeaderHalf(c, n, hist, g, r) && Proposes(c, hist, cmds, g)
    ensures var (r1, outs) := HandleCMsg(c, r, g, 0);
      && |outs| == 1 && outs[0].mType == GENERIC_VOTE && outs[0].viewNumber == |hist| && outs[0].hsNodes == g.hsNodes
      && outs[0].reciNode == Node(LeaderAt(|hist|, n))
      && r1.curPhase == HALF_GENERIC && r1.consId == r.consId && r1.view == r.view
      && BlocksOk(hist + [g.blk], r1.blocks) && NodesOk(c, hist + [g.blk], r1.hsNodes) && StoreOk(c, hist + [g.blk], r1.blkStore)
      && !r1.viewChangeFlag && !r1.lastLeaderState && r1.newViewMsgs == [] && r1.lockedQC == g.justify && r1.curRoundMsg == g
  {
    var h := hist + [g.blk];
    assert h[..|h| - 1] == hist;
    SlotsMove(c, hist, g.blk);
    OldestIsStored(c, hist, g.blk, r.(viewChangeFlag := false, hsNodes := g.hsNodes), g);
    assert CheckNewCHsNode(r, g);
    var (r1, outs) := CHandleGeneric(c, r, g);
    AfterSendKeeps(r1, outs);
  }

  /* The leader certifies it */

  // A certificate for the nodes of g, combined over the leader's own message m.
  ghost predicate MadeFor(c: Crypto, g: CMsg, m: CMsg, qc: ChainedQC) {
    && qc.qType == GENERIC && qc.viewNumber == g.viewNumber && qc.hsNodes == g.hsNodes
    && (c.Sound() ==> c.ThresholdSignVerify(m.ChainedMessage2Byte(), qc.sign))
  }

  ghost predicate Collecting(c: Crypto, g: CMsg, r: CNode, r1: CNode, outs: seq<CMsg>)
    requires r.view.nodesNum > 0
  {
    if r1.curPhase == HALF_GENERIC then r1 == r.(genericVoteMsgs := r1.genericVoteMsgs) && outs == []
    else (&& r1 == r.(genericVoteMsgs := r1.genericVoteMsgs, genericQC := r1.genericQC, view := r1.view, curPhase := NEW_VIEW,
                        curProposal := NO_PROPOSAL, executeState := r1.executeState)
          && r1.view == r.view.NextView() && MadeFor(c, g, r.curRoundMsg, r1.genericQC)
          && |outs| == 1 && outs[0].mType == NEW_VIEW && outs[0].viewNumber == r.view.viewNumber + 1 && outs[0].sendNode == Some(r.consId)
          && outs[0].reciNode == Node(r.view.NextView().leader)
          && outs[0].justify == r1.genericQC)
  }

  lemma VoteCounted(c: Crypto, r: CNode, m: CMsg)
    requires r.view.nodesNum > 0
    ensures var (r1, outs) := CHandleGenericVote(c, r, m);
      if outs == [] then r1 == r.(genericVoteMsgs := r1.genericVoteMsgs)
      else (&& r1 == r.(genericVoteMsgs := r1.genericVoteMsgs, genericQC := r1.genericQC, view := r.view.NextView(),
                        curPhase := NEW_VIEW, curProposal := NO_PROPOSAL)
            && |outs| == 1 && outs[0].mType == NEW_VIEW && outs[0].viewNumber == r.view.viewNumber + 1
            && outs[0].reciNode == Node(r.view.NextView().leader)
            && outs[0].justify == r1.genericQC && MadeFor(c, m, r.curRoundMsg, r1.genericQC))
  {
    var votes := if MatchingCMsg(m, GENERIC_VOTE, r.view.viewNumber) then r.genericVoteMsgs + [m] else r.genericVoteMsgs;
    var content := r.curRoundMsg.ChainedMessage2Byte();
    assert c.Sound() ==> c.RecoversFrom(c.combineSig(content, Shares(votes)), content, Shares(votes));
    hide Shares, CMsg.ChainedMessage2Byte, Crypto.Sound;
  }

  lemma HearsVote(c: Crypto, g: CMsg, r: CNode, r1: CNode, outs: seq<CMsg>, m: CMsg)
    requires r.view.nodesNum > 0 && r.curPhase == HALF_GENERIC
    requires Collecting(c, g, r, r1, outs) && r1.view.nodesNum > 0
    requires m.mType == GENERIC_VOTE && m.viewNumber == g.viewNumber && m.hsNodes == g.hsNodes
    ensures Collecting(c, g, r, HandleCMsg(c, r1, m, 0).0, outs + HandleCMsg(c, r1, m, 0).1)
  {
    VoteCounted(c, r1, m);
    var (r2, sent) := CHandleGenericVote(c, r1, m);
    AfterSendKeeps(r2, sent);
    if r1.curPhase != HALF_GENERIC {
      assert sent == [] && r2 == r1;
    }
    hide CHandleGenericVote, CHandleGeneric, CHandleNewView, View.NextView, CMsg.ChainedMessage2Byte, Crypto.Sound, Crypto.ThresholdSignVerify;
  }

  lemma {:induction false} FeedVotes(c: Crypto, g: CMsg, r: CNode, ms: seq<CMsg>)
    requires r.view.nodesNum > 0 && r.curPhase == HALF_GENERIC
    requires forall m <- ms :: m.mType == GENERIC_VOTE && m.viewNumber == g.viewNumber && m.hsNodes == g.hsNodes
    ensures Collecting(c, g, r, Feed(c, r, ms).0, Feed(c, r, ms).1)
    decreases |ms|
  {
    hide HandleCMsg, MadeFor;
    if ms != [] {
      var before, m := ms[..|ms| - 1], ms[|ms| - 1];
      FeedVotes(c, g, r, before);
      assert m in ms;
      hide Collecting;
      HearsVote(c, g, r, Feed(c, r, before).0, Feed(c, r, before).1, m);
    }
  }

  /* Refinement */

  // Every vote for the proposal g names the nodes of g.
  lemma VotesName(c: Crypto, n: nat, hist: seq<Block>, s: Sys, cmds: seq<Bytes>, l2: CNode, g: CMsg, m: CMsg)
    requires IsDigest(c.sum) && SysOk(c, n, hist, s) && IsHistory(c, hist + [g.blk])
    requires Proposes(c, hist, cmds, g) && LeaderHalf(c, n, hist, g, l2) && IsVote(c, s, LeaderAt(|hist|, n), l2, g, m)
    ensures m.mType == GENERIC_VOTE && m.viewNumber == |hist| && m.hsNodes == g.hsNodes
  {
    var lead := LeaderAt(|hist|, n);
    var i: nat :| i < n && |Answers(c, s, lead, l2, g, i)| > 0 && m == Answers(c, s, lead, l2, g, i)[0];
    if i == lead {
      LeaderAccepts(c, n, hist, cmds, l2, g);
    } else {
      FollowerSends(c, n, hist, cmds, i, s.nodes[i], g);
    }
  }

  lemma FollowerReports(c: Crypto, n: nat, hist: seq<Block>, s: Sys, cmds: seq<Bytes>, l2: CNode, g: CMsg, m: CMsg)
    requires IsDigest(c.sum) && SysOk(c, n, hist, s) && IsHistory(c, hist + [g.blk])
    requires Proposes(c, hist, cmds, g) && l2.view.nodesNum > 0 && IsNewView(c, s, LeaderAt(|hist|, n), l2, g, m)
    ensures NewViewMsgOk(c, n, hist + [g.blk], m)
  {
    var lead := LeaderAt(|hist|, n);
    hide LeaderAt, HandleCMsg, IsHistory, NodesOk, BlocksOk, StoreOk, Proposes, NewViewMsgOk;
    var i: nat :| i < n && i != lead && |Answers(c, s, lead, l2, g, i)| > 1 && m == Answers(c, s, lead, l2, g, i)[1];
    assert NodeOk(c, n, hist, i, s.nodes[i]) && Answers(c, s, lead, l2, g, i) == HandleCMsg(c, s.nodes[i], g, 0).1;
    hide NodeOk, Answers;
    FollowerSends(c, n, hist, cmds, i, s.nodes[i], g);
  }

  // A certificate over the proposal itself is one for the newest node.
  lemma OwnCertExtends(c: Crypto, hist: seq<Block>, cmds: seq<Bytes>, g: CMsg, qc: ChainedQC)
    requires Proposes(c, hist, cmds, g) && MadeFor(c, g, g, qc)
    ensures ExtendsTip(c, hist + [g.blk], qc)
  {
    assert g.ChainedMessage2Byte() == CertBytes(|hist|, g.hsNodes);
    hide CMsg.ChainedMessage2Byte, Block.Hash, CutFrom, IsMade;
  }

  // The leader moves on with the certificate for its own proposal.
  lemma LeaderCertifies(c: Crypto, n: nat, hist: seq<Block>, cmds: seq<Bytes>, l2: CNode, g: CMsg, votes: seq<CMsg>)
    requires n > 0 && IsDigest(c.sum) && IsHistory(c, hist) && IsHistory(c, hist + [g.blk])
    requires Proposes(c, hist, cmds, g) && LeaderHalf(c, n, hist, g, l2)
    requires forall m <- votes :: m.mType == GENERIC_VOTE && m.viewNumber == |hist| && m.hsNodes == g.hsNodes
    requires HandleCMsg(c, l2, g, 0).0.view.nodesNum == n
    requires Feed(c, HandleCMsg(c, l2, g, 0).0, votes).0.view.viewNumber == |hist| + 1
    ensures var (l4, outs) := Feed(c, HandleCMsg(c, l2, g, 0).0, votes);
      NodeOk(c, n, hist + [g.blk], LeaderAt(|hist|, n), l4) && forall m <- outs :: NewViewMsgOk(c, n, hist + [g.blk], m)
  {
    hide HandleCMsg, Feed, StoreOk, IsHistory, NodesOk, BlocksOk, CutFrom, IsMade, LeaderAt;
    LeaderAccepts(c, n, hist, cmds, l2, g);
    var l3 := HandleCMsg(c, l2, g, 0).0;
    assert l3.view == ViewAt(|hist|, n) && l3.consId == LeaderAt(|hist|, n) && g.viewNumber == |hist| && ExtendsTip(c, hist, g.justify);
    FeedVotes(c, g, l3, votes);
    ViewAtNext(|hist|, n);
    var (l4, outs) := Feed(c, l3, votes);
    hide MadeFor;
    OwnCertExtends(c, hist, cmds, g, l4.genericQC);
    hide Proposes, LeaderHalf, ExtendsTip;
    var h := hist + [g.blk];
    assert h[..|h| - 1] == hist;
    assert CertsOk(c, n, h, LeaderAt(|hist|, n), l4);
    hide CertsOk;
    BetweenViews(c, n, h, LeaderAt(|hist|, n), l4);
  }

  lemma NodesFollow(c: Crypto, n: nat, hist: seq<Block>, s: Sys, cmds: seq<Bytes>, l2: CNode, g: CMsg, votes: seq<CMsg>, s': Sys)
    requires IsDigest(c.sum) && SysOk(c, n, hist, s) && IsHistory(c, hist + [g.blk]) && Proposes(c, hist, cmds, g) && LeaderHalf(c, n, hist, g, l2)
    requires l2.view.nodesNum == n && forall i :: 0 <= i < n ==> s.nodes[i].view.nodesNum == n
    requires Certified(c, n, |hist|, s, l2, g, votes, s')
    ensures |s'.nodes| == n && forall i :: 0 <= i < n ==> NodeOk(c, n, hist + [g.blk], i, s'.nodes[i])
    ensures forall m <- s'.newViews :: NewViewMsgOk(c, n, hist + [g.blk], m)
  {
    hide HandleCMsg, Feed, IsNewView, NewViewMsgOk, NodeOk, IsHistory, LeaderHalf, Proposes, IsVote;
    var lead := LeaderAt(|hist|, n);
    assert 0 <= lead < n;
    hide LeaderAt;
    forall m | m in votes ensures m.mType == GENERIC_VOTE && m.viewNumber == |hist| && m.hsNodes == g.hsNodes {
      VotesName(c, n, hist, s, cmds, l2, g, m);
    }
    HandlingKeepsNodesNum(c, l2, g);
    LeaderCertifies(c, n, hist, cmds, l2, g, votes);
    forall i | 0 <= i < n ensures NodeOk(c, n, hist + [g.blk], i, s'.nodes[i]) {
      if i != lead { FollowerMoves(c, n, hist, cmds, i, s.nodes[i], g); }
    }
    forall m | m in s'.newViews ensures NewViewMsgOk(c, n, hist + [g.blk], m) {
      if m !in Feed(c, HandleCMsg(c, l2, g, 0).0, votes).1 {
        FollowerReports(c, n, hist, s, cmds, l2, g, m);
      }
    }
  }

  // One view adds one block to the log, and every node follows.
  lemma RoundExtends(c: Crypto, n: nat, hist: seq<Block>, s: Sys, inp: Input, s': Sys) returns (blk: Block)
    requires IsDigest(c.sum) && n >= 4 && SysOk(c, n, hist, s) && (|hist| == 0 ==> s.newViews == [])
    requires Round(c, n, |hist|, s, inp, s')
    ensures SysOk(c, n, hist + [blk], s')
    ensures CutFrom(blk.blkData.trans, inp.cmds)
  {
    assert forall i :: 0 <= i < n ==> s.nodes[i].view.nodesNum == n;
    var lead := LeaderAt(|hist|, n);
    assert 0 <= lead < n && NodeOk(c, n, hist, lead, s.nodes[lead]);
    hide HandleCMsg, AfterRequest, Feed, NewViewMsgOk, NodeOk, IsHistory, LeaderHalf, CutFrom, IsMade, NodesOk, ExtendsTip, LeaderAt, Certified;
    var (l2, proposal) := AfterRequest(c, s.nodes[lead], inp);
    var g := proposal.value;
    blk := g.blk;
    assert inp.delivered != [] ==> inp.delivered[0] in s.newViews;
    LeaderProposes(c, n, hist, s.nodes[lead], inp, l2, g);
    assert CutFrom(blk.blkData.trans, inp.cmds);
    hide Proposes;
    HistoryGrows(c, hist, inp.cmds, g);
    hide SysOk, AfterRequest;
    NodesFollow(c, n, hist, s, inp.cmds, l2, g, inp.votes, s');
    Together(c, n, hist + [blk], s');
  }

  lemma Together(c: Crypto, n: nat, hist: seq<Block>, s: Sys)
    requires 0 < n && |s.nodes| == n && IsHistory(c, hist)
    requires (forall i :: 0 <= i < n ==> NodeOk(c, n, hist, i, s.nodes[i])) && forall m <- s.newViews :: NewViewMsgOk(c, n, hist, m)
    ensures SysOk(c, n, hist, s)
  {
    hide IsHistory, NodeOk, NewViewMsgOk;
  }

  lemma InitOk(c: Crypto, n: nat)
    requires n > 0
    ensures SysOk(c, n, [], Init(c, n))
  {
  }

  ghost predicate Lockstep(c: Crypto, n: nat, trace: seq<Sys>, inputs: seq<Input>) {
    && n >= 4 && |trace| == |inputs| + 1 && trace[0] == Init(c, n)
    && forall v :: 0 <= v < |inputs| ==>
         && |trace[v].nodes| == n && (forall i :: 0 <= i < n ==> trace[v].nodes[i].view.nodesNum == n)
         && Round(c, n, v, trace[v], inputs[v], trace[v + 1])
  }

  lemma {:induction false} LockstepKeeps(c: Crypto, n: nat, trace: seq<Sys>, inputs: seq<Input>, v: nat) returns (hist: seq<Block>)
    requires IsDigest(c.sum) && Lockstep(c, n, trace, inputs) && v <= |inputs|
    ensures |hist| == v && SysOk(c, n, hist, trace[v])
    ensures forall k :: 0 <= k < v ==> CutFrom(hist[k].blkData.trans, inputs[k].cmds)
  {
    hide Round, NodeOk, NewViewMsgOk;
    if v == 0 {
      InitOk(c, n);
      hist := [];
    } else {
      hist := LockstepKeeps(c, n, trace, inputs, v - 1);
      var blk := RoundExtends(c, n, hist, trace[v - 1], inputs[v - 1], trace[v - 1 + 1]);
      hist := hist + [blk];
    }
  }

  // In every fault-free lockstep run, after the generic message of view v each node has
  // stored exactly the proposals of views 0 to v-3, in order and at those heights.
  lemma StoredIsProposedThreeViewsAgo(c: Crypto, n: nat, trace: seq<Sys>, inputs: seq<Input>, v: nat, i: nat)
    requires IsDigest(c.sum) && Lockstep(c, n, trace, inputs) && v < |inputs| && i < n
    ensures |trace[v + 1].nodes| == n
    ensures var written := trace[v + 1].nodes[i].blkStore.written;
      && |written| == (if v >= 2 then v - 2 else 0)
      && forall k :: 0 <= k < |written| ==>
           && CutFrom(written[k].blkData.trans, inputs[k].cmds)
           && written[k].blkHdr.height == k && written[k].blkHdr.viewNumber == k
  {
    hide Round, NewViewMsgOk, NodesOk, BlocksOk;
    var hist := LockstepKeeps(c, n, trace, inputs, v + 1);
    var r := trace[v + 1].nodes[i];
    assert NodeOk(c, n, hist, i, r);
    var written := r.blkStore.written;
    assert |written| == |BareAll(written)|;
    forall k | 0 <= k < |written| ensures written[k].Bare() == hist[k] {
      assert BareAll(written)[k] == hist[k];
    }
  }

  // So all nodes store the same blocks, validations aside, and are never out of step.
  lemma NodesStoreTheSame(c: Crypto, n: nat, trace: seq<Sys>, inputs: seq<Input>, v: nat, i: nat, j: nat)
    requires IsDigest(c.sum) && Lockstep(c, n, trace, inputs) && v <= |inputs| && i < n && j < n
    ensures |trace[v].nodes| == n
    ensures BareAll(trace[v].nodes[i].blkStore.written) == BareAll(trace[v].nodes[j].blkStore.written)
    ensures trace[v].nodes[i].view == trace[v].nodes[j].view == ViewAt(v, n)
  {
    hide Round, NewViewMsgOk, NodesOk, BlocksOk;
    var hist := LockstepKeeps(c, n, trace, inputs, v);
    assert NodeOk(c, n, hist, i, trace[v].nodes[i]) && NodeOk(c, n, hist, j, trace[v].nodes[j]);
  }

  // And the window matches: every filled slot holds the block its node names.
  lemma WindowMatches(c: Crypto, n: nat, trace: seq<Sys>, inputs: seq<Input>, v: nat, i: nat)
    requires IsDigest(c.sum) && Lockstep(c, n, trace, inputs) && v <= |inputs| && i < n
    ensures |trace[v].nodes| == n
    ensures var r := trace[v].nodes[i];
      && (!r.blocks.s0.IsEmpty() ==> r.blocks.s0.Hash(c.sum) == r.hsNodes.s0.curHash)
      && (!r.blocks.s1.IsEmpty() ==> r.blocks.s1.Hash(c.sum) == r.hsNodes.s1.curHash)
      && (!r.blocks.s2.IsEmpty() ==> r.blocks.s2.Hash(c.sum) == r.hsNodes.s2.curHash)
      && (!r.blocks.s3.IsEmpty() ==> r.blocks.s3.Hash(c.sum) == r.hsNodes.s3.curHash)
  {
    hide Round, NewViewMsgOk;
    var hist := LockstepKeeps(c, n, trace, inputs, v);
    var r := trace[v].nodes[i];
    assert NodeOk(c, n, hist, i, r);
    ValidationNotHashed(r.blocks.s3, NoSign);
    assert r.blocks.s3.Bare().blkData == r.blocks.s3.blkData;
  }

  // What is stored is linked, but not to the block before: each block names the hash of the one
  // four heights below, the last that was stored when it was proposed.
  lemma StoredLinkFourBack(c: Crypto, n: nat, trace: seq<Sys>, inputs: seq<Input>, v: nat, i: nat, k: nat)
    requires IsDigest(c.sum) && Lockstep(c, n, trace, inputs) && v <= |inputs| && i < n
    requires |trace[v].nodes| == n && k < |trace[v].nodes[i].blkStore.written|
    ensures var written := trace[v].nodes[i].blkStore.written;
      && IsMade(c.sum, written[k])
      && written[k].blkHdr.preBlkHash == (if k >= 4 then written[k - 4].Hash(c.sum) else [])
  {
    hide Round, NewViewMsgOk, NodesOk, BlocksOk, IsMade, Block.HashedBytes;
    var hist := LockstepKeeps(c, n, trace, inputs, v);
    assert NodeOk(c, n, hist, i, trace[v].nodes[i]);
    var written := trace[v].nodes[i].blkStore.written;
    assert BareAll(written) == Written(hist);
    BareIsMade(c, written[k]);
    assert BareAll(written)[k] == written[k].Bare() == hist[k];
    if k >= 4 {
      BareIsMade(c, written[k - 4]);
      assert BareAll(written)[k - 4] == written[k - 4].Bare() == hist[k - 4];
    }
    hide BareAll, Written, NodeOk, Lockstep, Block.Bare;
  }

  lemma BareIsMade(c: Crypto, b: Block)
    ensures IsMade(c.sum, b.Bare()) == IsMade(c.sum, b) && b.Bare().Hash(c.sum) == b.Hash(c.sum) && b.Bare().blkHdr.preBlkHash == b.blkHdr.preBlkHash
  {
    ValidationNotHashed(b, NoSign);
  }

  // Each stored block carries a certificate as its validation: a signature that verifies on the
  // window of the view two later, whose third node has the block's hash and whose newer nodes
  // extend it one after the other.
  lemma StoredBlocksAreCertified(c: Crypto, n: nat, trace: seq<Sys>, inputs: seq<Input>, v: nat, i: nat, k: nat) returns (nodes: Four<HsNode>)
    requires c.Sound() && Lockstep(c, n, trace, inputs) && v <= |inputs| && i < n
    requires |trace[v].nodes| == n && k < |trace[v].nodes[i].blkStore.written|
    ensures var blk := trace[v].nodes[i].blkStore.written[k];
      && c.ThresholdSignVerify(CertBytes(k + 2, nodes), blk.blkHdr.validation)
      && nodes.s2.curHash == blk.Hash(c.sum)
      && nodes.s1.parentHash == nodes.s2.curHash && nodes.s0.parentHash == nodes.s1.curHash
  {
    hide Round, NewViewMsgOk, BlocksOk;
    var hist := LockstepKeeps(c, n, trace, inputs, v);
    assert NodeOk(c, n, hist, i, trace[v].nodes[i]);
    var written := trace[v].nodes[i].blkStore.written;
    assert CertifiedAt(c, hist, k, written[k].blkHdr.validation);
    nodes :| Certifies(c, hist, k, nodes, written[k].blkHdr.validation);
    assert BareAll(written)[k] == hist[k];
    ValidationNotHashed(written[k], NoSign);
  }

  // After each view every node is locked on the second node of its window, with the certificate
  // of the view before the last; the last leader alone has one for the newest node.
  lemma LocksFollow(c: Crypto, n: nat, trace: seq<Sys>, inputs: seq<Input>, v: nat, i: nat)
    requires c.Sound() && Lockstep(c, n, trace, inputs) && 0 < v <= |inputs| && i < n
    ensures |trace[v].nodes| == n
    ensures var r := trace[v].nodes[i];
      && r.lockedQC.viewNumber == v - 2 && r.lockedQC.hsNodes.s0.curHash == r.hsNodes.s1.curHash
      && (v >= 2 ==> c.ThresholdSignVerify(CertBytes(v - 2, r.lockedQC.hsNodes), r.lockedQC.sign))
      && (i != LeaderAt(v - 1, n) ==> r.genericQC == r.lockedQC)
      && (i == LeaderAt(v - 1, n) ==>
            && r.genericQC.viewNumber == v - 1 && r.genericQC.hsNodes.s0.curHash == r.hsNodes.s0.curHash
            && c.ThresholdSignVerify(CertBytes(v - 1, r.genericQC.hsNodes), r.genericQC.sign))
  {
    hide Round, NewViewMsgOk, BlocksOk;
    var hist := LockstepKeeps(c, n, trace, inputs, v);
    assert NodeOk(c, n, hist, i, trace[v].nodes[i]);
    hide CMsg.ChainedMessage2Byte, Block.Hash, LeaderAt, IsHistory;
    assert CertsOk(c, n, hist, i, trace[v].nodes[i]);
    assert SlotHash(c, hist[..|hist| - 1], 0) == SlotHash(c, hist, 1);
  }

  predicate WindowOfDigests(nodes: Four<HsNode>) {
    && |nodes.s0.curHash| == |nodes.s1.curHash| == |nodes.s2.curHash| == |nodes.s3.curHash| == DIGEST_LENGTH
    && |nodes.s0.parentHash| == |nodes.s1.parentHash| == |nodes.s2.parentHash| == |nodes.s3.parentHash| == DIGEST_LENGTH
  }

  // The signed bytes fix view and window.
  lemma CertBytesDetermine(v: int, a: Four<HsNode>, w: int, b: Four<HsNode>)
    requires WindowOfDigests(a) && WindowOfDigests(b)
    ensures CertBytes(v, a) == CertBytes(w, b) <==> v % 256 == w % 256 && a == b
  {
    CertBytesParts(v, a);
    CertBytesParts(w, b);
    if v % 256 == w % 256 { assert ToByte(v) == ToByte(w); }
    hide CertBytes, CMsg.ChainedMessage2Byte;
    if v % 256 == w % 256 && a == b { SameCertBytes(v, w, a); }
  }

  lemma SameCertBytes(v: int, w: int, a: Four<HsNode>)
    requires v % 256 == w % 256
    ensures CertBytes(v, a) == CertBytes(w, a)
  {
  }

  lemma CertBytesParts(v: int, a: Four<HsNode>)
    requires WindowOfDigests(a)
    ensures var s := CertBytes(v, a);
      && |s| == 258 && s[1] == v % 256
      && s[2..34] == a.s0.curHash && s[34..66] == a.s0.parentHash && s[66..98] == a.s1.curHash && s[98..130] == a.s1.parentHash
      && s[130..162] == a.s2.curHash && s[162..194] == a.s2.parentHash && s[194..226] == a.s3.curHash && s[226..258] == a.s3.parentHash
  {
  }
}
