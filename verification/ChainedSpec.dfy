/** What each handler of chained HotStuff does to the state of one node, as functions on values. */
module ChainedSpec {
  import opened Common
  import opened Blockchain
  import opened HotstuffTypes
  import BasicHotstuffSpec
  import Merkle

  const HALF_GENERIC: StateType := 9
  const GENERIC: StateType := 10
  const GENERIC_VOTE: StateType := 11

  // The four slots of a node: newest first.
  datatype Four<T> = Four(s0: T, s1: T, s2: T, s3: T) {
    function Push(x: T): Four<T> {
      Four(x, s0, s1, s2)
    }
  }

  datatype ChainedQC = ChainedQC(qType: StateType, viewNumber: int, hsNodes: Four<HsNode>, sign: Signature)

  datatype CMsg = CMsg(
    mType: StateType, viewNumber: int, sendNode: Option<nat>, reciNode: Receiver, hsNodes: Four<HsNode>,
    justify: ChainedQC, partialSig: Signature, proposal: Proposal, blk: Block)
  {
    function ChainedMessage2Byte(): Bytes {
      [mType, ToByte(viewNumber)] + hsNodes.s0.Object2Byte() + hsNodes.s1.Object2Byte()
      + hsNodes.s2.Object2Byte() + hsNodes.s3.Object2Byte()
    }
  }

  const NO_NODES := Four(NO_NODE, NO_NODE, NO_NODE, NO_NODE)
  const NO_CQC := ChainedQC(NEW_VIEW, 0, NO_NODES, NoSign)
  const NO_CMSG := CMsg(NEW_VIEW, 0, None, Nobody, NO_NODES, NO_CQC, NoSign, NO_PROPOSAL, EMPTY_BLOCK)

  // The fields of CHotstuff.
  datatype CNode = CNode(
    consId: nat, curPhase: StateType, view: View, executeState: bool, lastLeaderState: bool, viewChangeFlag: bool,
    hsNodes: Four<HsNode>, blocks: Four<Block>, genericQC: ChainedQC, lockedQC: ChainedQC,
    curProposal: Proposal, curRoundMsg: CMsg, newViewMsgs: seq<CMsg>, genericVoteMsgs: seq<CMsg>, blkStore: Store)
  {
    predicate IsLeader() {
      consId == view.leader
    }

    function LastLeader(): nat
      requires view.nodesNum > 0
    {
      (view.leader + view.nodesNum - 1) % view.nodesNum
    }
  }

  function Same<T>(x: T): Four<T> {
    Four(x, x, x, x)
  }

  function NewCNode(c: Crypto, consId: nat, nodesNum: nat): CNode {
    var empty := Merkle.EmptyHash(c.sum);
    var nodes := Same(HsNode(empty, empty));
    CNode(consId, NEW_VIEW, View(0, 0, nodesNum), false, false, false,
      nodes, Same(EMPTY_BLOCK), ChainedQC(NEW_VIEW, -1, nodes, NoSign), ChainedQC(NEW_VIEW, -1, nodes, NoSign),
      NO_PROPOSAL, NO_CMSG, [], [], Store(0, 0, [], [], EMPTY_BLOCK, []))
  }

  function InitMsg(c: Crypto): CMsg {
    var empty := Merkle.EmptyHash(c.sum);
    var nodes := Four(HsNode(empty, empty), NO_NODE, NO_NODE, NO_NODE);
    NO_CMSG.(sendNode := Some(0), reciNode := Node(0), hsNodes := nodes, justify := ChainedQC(NEW_VIEW, -1, nodes, NoSign))
  }

  function InitLeader(c: Crypto, r: CNode): CNode {
    r.(newViewMsgs := r.newViewMsgs + seq(VoteBound(r.view.nodesNum), _ => InitMsg(c)), curPhase := WAITING)
  }

  predicate MatchingCMsg(m: CMsg, code: StateType, curView: int) {
    m.mType == code && m.viewNumber == curView
  }

  function JustifyViews(msgs: seq<CMsg>): seq<int> {
    seq(|msgs|, i requires 0 <= i < |msgs| => msgs[i].justify.viewNumber)
  }

  // The first message with the highest justify view.
  function GetHighChainedQC(msgs: seq<CMsg>): CMsg
    requires msgs != []
  {
    msgs[FirstMaxUpTo(JustifyViews(msgs), |msgs|)]
  }

  function UpdateBlock(c: Crypto, r: CNode, blk: Block): CNode {
    var store := if blk.IsEmpty() then r.blkStore.(curBlkHash := Merkle.EmptyHash(c.sum)) else r.blkStore;
    r.(blocks := r.blocks.Push(blk), blkStore := store.(generatedHeight := blk.blkHdr.height + 1))
  }

  function GenBlock(c: Crypto, r: CNode, heightStep: int, timeStamp: int): Store {
    if r.curProposal.commands == [] then
      var s := r.blkStore.GenEmptyBlock(c.sum);
      s.(height := s.height + 1)
    else
      var s := r.blkStore.GenNewBlockAt(c.sum, r.view.viewNumber, BasicHotstuffSpec.CutOff(r.curProposal.commands, 128), r.blkStore.generatedHeight, timeStamp);
      s.(height := s.height + heightStep)
  }

  // The part common to CHandleNewView and GenProposal. A proposal made straight from the
  // new-view messages also counts the store's height up.
  function Propose(c: Crypto, r: CNode, heightStep: int, timeStamp: int): (CNode, CMsg)
    requires r.newViewMsgs != []
  {
    var high := GetHighChainedQC(r.newViewMsgs).justify;
    var store := GenBlock(c, r, heightStep, timeStamp);
    var leaf := HsNode(store.curBlkHash, high.hsNodes.s0.curHash);
    var r1 := UpdateBlock(c, r.(genericQC := high, blkStore := store), store.curProposalBlk);
    (r1.(curPhase := HALF_GENERIC, lastLeaderState := false, executeState := false, newViewMsgs := [], genericVoteMsgs := []),
     NO_CMSG.(mType := GENERIC, viewNumber := r.view.viewNumber, reciNode := Broadcast, hsNodes := r.hsNodes.Push(leaf),
              proposal := r.curProposal, blk := store.curProposalBlk, justify := high))
  }

  function LogNewView(r: CNode, m: CMsg): CNode
    requires r.view.nodesNum > 0
  {
    if MatchingCMsg(m, NEW_VIEW, r.view.viewNumber)
    then r.(newViewMsgs := r.newViewMsgs + [m], lastLeaderState := r.lastLeaderState || m.sendNode == Some(r.LastLeader()))
    else r
  }

  function CHandleNewView(c: Crypto, r: CNode, m: CMsg, timeStamp: int): (CNode, seq<CMsg>)
    requires r.view.nodesNum > 0
  {
    if r.curPhase != NEW_VIEW then (r, [])
    else
      var r1 := LogNewView(r, m);
      if !r1.IsLeader() || |r1.newViewMsgs| <= VoteBound(r.view.nodesNum) || (!r1.lastLeaderState && !r1.viewChangeFlag) then (r1, [])
      else
        var r2 := r1.(lastLeaderState := false, viewChangeFlag := false, curPhase := WAITING);
        if r2.curProposal.IsEmpty() then (r2, [])
        else
          var (r3, generic) := Propose(c, r2, 1, timeStamp);
          (r3, [generic])
  }

  function GenProposal(c: Crypto, r: CNode, timeStamp: int): (CNode, Option<CMsg>)
    requires r.newViewMsgs != []
  {
    if |r.newViewMsgs| <= VoteBound(r.view.nodesNum) && r.view.viewNumber != 0 then (r, None)
    else
      var (r1, generic) := Propose(c, r, 0, timeStamp);
      (r1, Some(generic.(sendNode := Some(r.consId))))
  }

  function HandleReq(c: Crypto, r: CNode, height: int, preHash: Bytes, cmds: seq<Bytes>, timeStamp: int): (CNode, Option<CMsg>)
    requires r.curPhase == WAITING ==> r.newViewMsgs != []
  {
    if r.curPhase != WAITING then (r, None)
    else
      var r1 := r.(curProposal := Proposal(height, preHash, Merkle.MerkleTreeHash(c.sum, cmds), cmds, []));
      var (r2, generic) := GenProposal(c, r1, timeStamp);
      if generic.Some? then (r2.(curRoundMsg := generic.value), generic) else (r2, None)
  }

  predicate SafeNode(r: CNode, nodes: Four<HsNode>, qc: ChainedQC) {
    qc.hsNodes.s0.curHash == nodes.s0.parentHash || qc.viewNumber > r.lockedQC.viewNumber
  }

  predicate CheckNewCHsNode(r: CNode, m: CMsg) {
    && m.hsNodes.s0.parentHash != [] && m.hsNodes.s1.curHash != []
    && m.hsNodes.s0.parentHash == m.hsNodes.s1.curHash
    && SafeNode(r, m.hsNodes, m.justify)
  }

  function StoreOldest(c: Crypto, r: CNode, sign: Signature): CNode {
    var blk := r.blocks.s3.WithValidation(sign);
    var store := r.blkStore.(curBlkHash := blk.Hash(c.sum)).StoreBlock(blk);
    r.(blocks := r.blocks.(s3 := blk), blkStore := store.(height := store.height - 1))
  }

  // The pipeline rules, after the window moved on: one, two, three links up to the oldest node.
  function Advance(c: Crypto, r: CNode, m: CMsg): CNode {
    if m.hsNodes.s0.parentHash != m.hsNodes.s1.curHash then r
    else
      var r1 := r.(genericQC := m.justify);
      if m.hsNodes.s1.parentHash != m.hsNodes.s2.curHash then r1
      else
        var r2 := r1.(lockedQC := m.justify);
        if m.hsNodes.s2.parentHash != m.hsNodes.s3.curHash then r2
        else
          var r3 := r2.(executeState := true);
          if r3.blocks.s3.IsEmpty() || r3.blocks.s3.Hash(c.sum) != r3.hsNodes.s3.curHash then r3
          else StoreOldest(c, r3, m.justify.sign)
  }

  // A generic message that passed the checks moves the window on; the leader moved its
  // blocks when it proposed.
  function Accept(c: Crypto, r: CNode, m: CMsg): CNode {
    var r0 := r.(viewChangeFlag := false);
    var r1 := if r.IsLeader() then r0 else UpdateBlock(c, r0, m.blk);
    Advance(c, r1.(hsNodes := m.hsNodes), m).(newViewMsgs := [])
  }

  function GenericVote(c: Crypto, r: CNode, m: CMsg): CMsg {
    NO_CMSG.(mType := GENERIC_VOTE, viewNumber := m.viewNumber, reciNode := Node(r.view.leader),
             hsNodes := m.hsNodes, partialSig := c.ThresholdSign(r.consId, m.ChainedMessage2Byte()))
  }

  function CHandleGeneric(c: Crypto, r: CNode, m: CMsg): (CNode, seq<CMsg>)
    requires r.view.nodesNum > 0
  {
    if m.viewNumber != r.view.viewNumber || !CheckNewCHsNode(r, m) then (r, [])
    else
      var r2 := Accept(c, r, m);
      var vote := GenericVote(c, r, m);
      if r.IsLeader() then (r2, [vote])
      else
        var v := r.view.NextView();
        var r3 := r2.(view := v);
        var newView := NO_CMSG.(mType := NEW_VIEW, viewNumber := v.viewNumber, hsNodes := r2.hsNodes, justify := r2.genericQC, reciNode := Node(v.leader));
        (if r3.IsLeader() then r3.(lastLeaderState := false) else r3, [vote, newView])
  }

  function Shares(votes: seq<CMsg>): seq<Signature> {
    seq(|votes|, i requires 0 <= i < |votes| => votes[i].partialSig)
  }

  function CHandleGenericVote(c: Crypto, r: CNode, m: CMsg): (CNode, seq<CMsg>)
    requires r.view.nodesNum > 0
  {
    if r.curPhase != HALF_GENERIC then (r, [])
    else
      var r1 := if MatchingCMsg(m, GENERIC_VOTE, r.view.viewNumber) then r.(genericVoteMsgs := r.genericVoteMsgs + [m]) else r;
      if |r1.genericVoteMsgs| <= VoteBound(r.view.nodesNum) then (r1, [])
      else
        var sign := c.combineSig(r1.curRoundMsg.ChainedMessage2Byte(), Shares(r1.genericVoteMsgs));
        if sign == NoSign then (r1, [])
        else
          var qc := ChainedQC(GENERIC, m.viewNumber, m.hsNodes, sign);
          var v := r1.view.NextView();
          (r1.(genericQC := qc, view := v, curPhase := NEW_VIEW, curProposal := NO_PROPOSAL),
           [NO_CMSG.(mType := NEW_VIEW, hsNodes := r1.hsNodes, reciNode := Node(v.leader), viewNumber := v.viewNumber, justify := qc)])
  }

  function RouteCMsg(c: Crypto, r: CNode, m: CMsg, timeStamp: int): (CNode, seq<CMsg>)
    requires r.view.nodesNum > 0
  {
    if m.mType == NEW_VIEW then CHandleNewView(c, r, m, timeStamp)
    else if m.mType == GENERIC then CHandleGeneric(c, r, m)
    else if m.mType == GENERIC_VOTE then CHandleGenericVote(c, r, m)
    else (r, [])
  }

  // Bookkeeping of HandleCMsg for one returned message.
  function AfterSend(r: CNode, out: CMsg): CNode {
    var sent := out.(sendNode := Some(r.consId));
    var r1 := if out.mType == GENERIC then r.(curRoundMsg := sent) else r;
    if out.mType == NEW_VIEW && r1.executeState && r1.blocks.s3.blkHdr.validation != NoSign then r1.(executeState := false) else r1
  }

  function AfterSendAll(r: CNode, outs: seq<CMsg>): CNode {
    if outs == [] then r else AfterSend(AfterSendAll(r, outs[..|outs| - 1]), outs[|outs| - 1])
  }

  function Signed(consId: nat, outs: seq<CMsg>): seq<CMsg> {
    seq(|outs|, i requires 0 <= i < |outs| => outs[i].(sendNode := Some(consId)))
  }

  function HandleCMsg(c: Crypto, r: CNode, m: CMsg, timeStamp: int): (CNode, seq<CMsg>)
    requires r.view.nodesNum > 0
  {
    var (r1, outs) := RouteCMsg(c, r, m, timeStamp);
    (AfterSendAll(r1, outs), Signed(r.consId, outs))
  }
}
