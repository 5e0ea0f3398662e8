/** Messages and message logs of PBFT (orderer/consensus/pbft/types). */
module PbftTypes {
  import opened Common
  import opened Blockchain

  type StateType = Byte

  const NEW_VIEW: StateType := 0
  const PREPREPARE: StateType := 1
  const PREPARE: StateType := 2
  const COMMIT: StateType := 3
  const REPLY: StateType := 4
  const VIEW_CHANGE: StateType := 5
  const CHECKPOINT: StateType := 6
  const WAITING: StateType := 10

  const CHECKPOINTNUM := 10

  // A proposal without commands is empty only if its command list was never made.
  datatype Proposal = Proposal(height: int, command: Option<seq<Bytes>>) {
    predicate IsEmpty() {
      height == 0 && command == None
    }
  }

  const NO_PROPOSAL := Proposal(0, None)

  // A message inside a view-change message.
  datatype VCMsg = VCMsg(mType: StateType, viewNumber: int, seqNum: int, digest: Bytes, signature: Bytes, proposal: Proposal, sendNode: nat) {
    function VCMsg2Byte(): Bytes {
      [ToByte(mType), ToByte(viewNumber), ToByte(seqNum)] + digest
    }
  }

  datatype Pm = Pm(prePrepareMsg: VCMsg, prepareMsgs: seq<VCMsg>) {
    function Pm2Byte(signer: Signer): Bytes {
      prePrepareMsg.VCMsg2Byte()
      + Concat(seq(|prepareMsgs|, i requires 0 <= i < |prepareMsgs| => prepareMsgs[i].VCMsg2Byte() + signer.name(prepareMsgs[i].sendNode)))
    }
  }

  datatype PMsg = PMsg(
    mType: StateType, viewNumber: int, seqNum: int, digest: Bytes, signature: Bytes, proposal: Proposal, block: Block,
    sendNode: nat, cSet: seq<PMsg>, pSet: seq<Pm>, vSet: seq<PMsg>, oSet: seq<PMsg>)
  {
    function PMsg2VCMsg(): VCMsg {
      VCMsg(mType, viewNumber, seqNum, digest, signature, proposal, sendNode)
    }

    // Message2Byte(0): what a pre-prepare is signed on.
    function Header(): Bytes {
      [ToByte(mType), ToByte(viewNumber), ToByte(seqNum)] + digest
    }

    // Message2Byte(1): what a vote is signed on.
    function VoteBytes(signer: Signer): Bytes {
      Header() + signer.name(sendNode)
    }

    // Message2Byte(2): what a view-change message is signed on.
    function ViewChangeBytes(signer: Signer): Bytes {
      Header()
      + Concat(seq(|cSet|, i requires 0 <= i < |cSet| => cSet[i].VoteBytes(signer)))
      + Concat(seq(|pSet|, i requires 0 <= i < |pSet| => pSet[i].Pm2Byte(signer)))
      + signer.name(sendNode)
    }

    // Message2Byte(3): what a new-view message is signed on.
    function NewViewBytes(): Bytes {
      [ToByte(mType), ToByte(viewNumber)]
      + Concat(seq(|vSet|, i requires 0 <= i < |vSet| => vSet[i].Header()))
      + Concat(seq(|oSet|, i requires 0 <= i < |oSet| => oSet[i].Header()))
    }

    predicate SignedOn(signer: Signer, content: Bytes) {
      signer.verifySign(sendNode, signature, content)
    }
  }

  const NO_PMSG := PMsg(0, 0, 0, [], [], NO_PROPOSAL, EMPTY_BLOCK, 0, [], [], [], [])

  // Foreign calls: the hash, signing and its check, the name bytes of a node, and the
  // commit messages of a block written as its validation.
  datatype Signer = Signer(
    sum: Hasher, sign: (nat, Bytes) -> Bytes, verifySign: (nat, Bytes, Bytes) -> bool, name: nat -> Bytes,
    validation: seq<PMsg> -> Signature)

  datatype MsgsLog = MsgsLog(preprepareMsg: Option<PMsg>, prepareMsgs: seq<PMsg>, commitMsgs: seq<PMsg>) {
    predicate IsEmpty() {
      preprepareMsg.None? || preprepareMsg.value.proposal.IsEmpty() || |prepareMsgs| == 0
    }

    function Add(m: PMsg): MsgsLog {
      if m.mType == PREPREPARE then this.(preprepareMsg := Some(m))
      else if m.mType == PREPARE then this.(prepareMsgs := prepareMsgs + [m])
      else if m.mType == COMMIT then this.(commitMsgs := commitMsgs + [m])
      else this
    }
  }

  const NO_LOG := MsgsLog(None, [], [])

  /* What signatures cover */

  // View, number and digest as they are signed, one byte each for the first two.
  predicate SameHead(t: StateType, v: int, s: int, d: Bytes, t': StateType, v': int, s': int, d': Bytes) {
    t == t' && v % 256 == v' % 256 && s % 256 == s' % 256 && d == d'
  }

  predicate SameMsg(a: PMsg, b: PMsg) {
    SameHead(a.mType, a.viewNumber, a.seqNum, a.digest, b.mType, b.viewNumber, b.seqNum, b.digest)
  }

  predicate SameVC(a: VCMsg, b: VCMsg) {
    SameHead(a.mType, a.viewNumber, a.seqNum, a.digest, b.mType, b.viewNumber, b.seqNum, b.digest)
  }

  // Digests have one length, and names of nodes have one.
  ghost predicate Uniform(signer: Signer, m: PMsg, len: nat) {
    && (forall who :: |signer.name(who)| == len) && |m.digest| == DIGEST_LENGTH
    && (forall i :: 0 <= i < |m.cSet| ==> |m.cSet[i].digest| == DIGEST_LENGTH)
    && (forall i :: 0 <= i < |m.pSet| ==> UniformPm(m.pSet[i]))
  }

  predicate UniformPm(p: Pm) {
    |p.prePrepareMsg.digest| == DIGEST_LENGTH && forall j :: 0 <= j < |p.prepareMsgs| ==> |p.prepareMsgs[j].digest| == DIGEST_LENGTH
  }

  // As many messages in each set.
  predicate SameShape(a: PMsg, b: PMsg) {
    |a.cSet| == |b.cSet| && |a.pSet| == |b.pSet| && forall i :: 0 <= i < |a.pSet| ==> |a.pSet[i].prepareMsgs| == |b.pSet[i].prepareMsgs|
  }

  // Rows of equal lengths that join to the same bytes are equal, and so is what follows them.
  lemma JoinedRows(a: seq<Bytes>, x: Bytes, b: seq<Bytes>, y: Bytes)
    requires SameRowLengths(a, b) && Concat(a) + x == Concat(b) + y
    ensures a == b && x == y
  {
    SameJoinedLength(a, b);
    assert Concat(a) == (Concat(a) + x)[..|Concat(a)|] && Concat(b) == (Concat(b) + y)[..|Concat(b)|];
    assert x == (Concat(a) + x)[|Concat(a)|..] && y == (Concat(b) + y)[|Concat(b)|..];
    ConcatFixesRows(a, b);
  }

  lemma {:induction false} SameJoinedLength(a: seq<Bytes>, b: seq<Bytes>)
    requires SameRowLengths(a, b)
    ensures |Concat(a)| == |Concat(b)|
  {
    if a != [] { SameJoinedLength(a[1..], b[1..]); }
  }

  lemma HeadsAgree(t: StateType, v: int, s: int, d: Bytes, x: Bytes, t': StateType, v': int, s': int, d': Bytes, x': Bytes)
    requires |d| == |d'| && [t, ToByte(v), ToByte(s)] + d + x == [t', ToByte(v'), ToByte(s')] + d' + x'
    ensures SameHead(t, v, s, d, t', v', s', d') && x == x'
  {
    var a, b := [t, ToByte(v), ToByte(s)] + d + x, [t', ToByte(v'), ToByte(s')] + d' + x';
    assert a[0] == t && a[1] == ToByte(v) && a[2] == ToByte(s) && a[3..3 + |d|] == d && a[3 + |d|..] == x;
    assert b[0] == t' && b[1] == ToByte(v') && b[2] == ToByte(s') && b[3..3 + |d|] == d' && b[3 + |d|..] == x';
  }

  // A certificate's bytes fix its pre-prepare, its prepares and their senders' names.
  lemma PmBytesBind(signer: Signer, a: Pm, b: Pm, len: nat)
    requires (forall who :: |signer.name(who)| == len) && UniformPm(a) && UniformPm(b) && |a.prepareMsgs| == |b.prepareMsgs|
    requires a.Pm2Byte(signer) == b.Pm2Byte(signer)
    ensures SameVC(a.prePrepareMsg, b.prePrepareMsg)
    ensures forall j :: 0 <= j < |a.prepareMsgs| ==>
      && SameVC(a.prepareMsgs[j], b.prepareMsgs[j])
      && signer.name(a.prepareMsgs[j].sendNode) == signer.name(b.prepareMsgs[j].sendNode)
  {
    var p, q := a.prePrepareMsg, b.prePrepareMsg;
    var xs := seq(|a.prepareMsgs|, i requires 0 <= i < |a.prepareMsgs| => a.prepareMsgs[i].VCMsg2Byte() + signer.name(a.prepareMsgs[i].sendNode));
    var ys := seq(|b.prepareMsgs|, i requires 0 <= i < |b.prepareMsgs| => b.prepareMsgs[i].VCMsg2Byte() + signer.name(b.prepareMsgs[i].sendNode));
    HeadsAgree(p.mType, p.viewNumber, p.seqNum, p.digest, Concat(xs), q.mType, q.viewNumber, q.seqNum, q.digest, Concat(ys));
    assert Concat(xs) + [] == Concat(xs) && Concat(ys) + [] == Concat(ys);
    JoinedRows(xs, [], ys, []);
    forall j | 0 <= j < |a.prepareMsgs|
      ensures SameVC(a.prepareMsgs[j], b.prepareMsgs[j]) && signer.name(a.prepareMsgs[j].sendNode) == signer.name(b.prepareMsgs[j].sendNode)
    {
      var m, n := a.prepareMsgs[j], b.prepareMsgs[j];
      assert xs[j] == ys[j];
      HeadsAgree(m.mType, m.viewNumber, m.seqNum, m.digest, signer.name(m.sendNode), n.mType, n.viewNumber, n.seqNum, n.digest, signer.name(n.sendNode));
    }
  }

  lemma ViewChangeParts(signer: Signer, m: PMsg)
    ensures m.ViewChangeBytes(signer) == m.Header() + (Concat(VoteRows(signer, m.cSet)) + (Concat(PmRows(signer, m.pSet)) + signer.name(m.sendNode)))
  {
    assert VoteRows(signer, m.cSet) == seq(|m.cSet|, i requires 0 <= i < |m.cSet| => m.cSet[i].VoteBytes(signer));
    assert PmRows(signer, m.pSet) == seq(|m.pSet|, i requires 0 <= i < |m.pSet| => m.pSet[i].Pm2Byte(signer));
  }

  lemma NewViewParts(m: PMsg)
    ensures m.NewViewBytes() == [m.mType, ToByte(m.viewNumber)] + (Concat(Headers(m.vSet)) + Concat(Headers(m.oSet)))
  {
    assert Headers(m.vSet) == seq(|m.vSet|, i requires 0 <= i < |m.vSet| => m.vSet[i].Header());
    assert Headers(m.oSet) == seq(|m.oSet|, i requires 0 <= i < |m.oSet| => m.oSet[i].Header());
  }

  // The signature of a view-change message covers its C set and its P set.
  lemma ViewChangeBytesBind(signer: Signer, a: PMsg, b: PMsg, len: nat)
    requires Uniform(signer, a, len) && Uniform(signer, b, len) && SameShape(a, b)
    requires a.ViewChangeBytes(signer) == b.ViewChangeBytes(signer)
    ensures SameMsg(a, b) && signer.name(a.sendNode) == signer.name(b.sendNode)
    ensures forall i :: 0 <= i < |a.cSet| ==> SameMsg(a.cSet[i], b.cSet[i]) && signer.name(a.cSet[i].sendNode) == signer.name(b.cSet[i].sendNode)
    ensures forall i :: 0 <= i < |a.pSet| ==> a.pSet[i].Pm2Byte(signer) == b.pSet[i].Pm2Byte(signer)
  {
    var ca, cb := VoteRows(signer, a.cSet), VoteRows(signer, b.cSet);
    var pa, pb := PmRows(signer, a.pSet), PmRows(signer, b.pSet);
    var xa, xb := Concat(pa) + signer.name(a.sendNode), Concat(pb) + signer.name(b.sendNode);
    hide Concat, Pm.Pm2Byte, PMsg.ViewChangeBytes;
    ViewChangeParts(signer, a);
    ViewChangeParts(signer, b);
    HeadsAgree(a.mType, a.viewNumber, a.seqNum, a.digest, Concat(ca) + xa, b.mType, b.viewNumber, b.seqNum, b.digest, Concat(cb) + xb);
    JoinedRows(ca, xa, cb, xb);
    PmRowLengths(signer, a.pSet, b.pSet, len);
    hide Concat, Pm.Pm2Byte, PMsg.ViewChangeBytes;
    JoinedRows(pa, signer.name(a.sendNode), pb, signer.name(b.sendNode));
    forall i | 0 <= i < |a.cSet| ensures SameMsg(a.cSet[i], b.cSet[i]) && signer.name(a.cSet[i].sendNode) == signer.name(b.cSet[i].sendNode) {
      var m, n := a.cSet[i], b.cSet[i];
      assert ca[i] == cb[i];
      HeadsAgree(m.mType, m.viewNumber, m.seqNum, m.digest, signer.name(m.sendNode), n.mType, n.viewNumber, n.seqNum, n.digest, signer.name(n.sendNode));
    }
    forall i | 0 <= i < |a.pSet| ensures a.pSet[i].Pm2Byte(signer) == b.pSet[i].Pm2Byte(signer) {
      assert pa[i] == pb[i];
    }
  }

  function VoteRows(signer: Signer, msgs: seq<PMsg>): seq<Bytes> {
    seq(|msgs|, i requires 0 <= i < |msgs| => msgs[i].VoteBytes(signer))
  }

  function PmRows(signer: Signer, pms: seq<Pm>): seq<Bytes> {
    seq(|pms|, i requires 0 <= i < |pms| => pms[i].Pm2Byte(signer))
  }

  lemma PmRowLengths(signer: Signer, a: seq<Pm>, b: seq<Pm>, len: nat)
    requires (forall who :: |signer.name(who)| == len) && |a| == |b|
    requires forall i :: 0 <= i < |a| ==> UniformPm(a[i]) && UniformPm(b[i]) && |a[i].prepareMsgs| == |b[i].prepareMsgs|
    ensures SameRowLengths(PmRows(signer, a), PmRows(signer, b))
  {
    forall i | 0 <= i < |a| ensures |a[i].Pm2Byte(signer)| == |b[i].Pm2Byte(signer)| {
      var xs := seq(|a[i].prepareMsgs|, j requires 0 <= j < |a[i].prepareMsgs| => a[i].prepareMsgs[j].VCMsg2Byte() + signer.name(a[i].prepareMsgs[j].sendNode));
      var ys := seq(|b[i].prepareMsgs|, j requires 0 <= j < |b[i].prepareMsgs| => b[i].prepareMsgs[j].VCMsg2Byte() + signer.name(b[i].prepareMsgs[j].sendNode));
      SameJoinedLength(xs, ys);
    }
  }

  // The signature of a new-view message covers the headers of its V set and its O set.
  lemma NewViewBytesBind(a: PMsg, b: PMsg)
    requires |a.vSet| == |b.vSet| && |a.oSet| == |b.oSet|
    requires forall i :: 0 <= i < |a.vSet| ==> |a.vSet[i].digest| == |b.vSet[i].digest|
    requires forall i :: 0 <= i < |a.oSet| ==> |a.oSet[i].digest| == |b.oSet[i].digest|
    requires a.NewViewBytes() == b.NewViewBytes()
    ensures a.mType == b.mType && a.viewNumber % 256 == b.viewNumber % 256
    ensures forall i :: 0 <= i < |a.vSet| ==> a.vSet[i].Header() == b.vSet[i].Header()
    ensures forall i :: 0 <= i < |a.oSet| ==> a.oSet[i].Header() == b.oSet[i].Header()
  {
    var va, vb, oa, ob := Headers(a.vSet), Headers(b.vSet), Headers(a.oSet), Headers(b.oSet);
    var x, y := [a.mType, ToByte(a.viewNumber)] + (Concat(va) + Concat(oa)), [b.mType, ToByte(b.viewNumber)] + (Concat(vb) + Concat(ob));
    NewViewParts(a);
    NewViewParts(b);
    assert x[0] == a.mType && x[1] == ToByte(a.viewNumber) && x[2..] == Concat(va) + Concat(oa);
    assert y[0] == b.mType && y[1] == ToByte(b.viewNumber) && y[2..] == Concat(vb) + Concat(ob);
    JoinedRows(va, Concat(oa), vb, Concat(ob));
    ConcatFixesRows(oa, ob);
    forall i | 0 <= i < |a.vSet| ensures a.vSet[i].Header() == b.vSet[i].Header() { assert va[i] == vb[i]; }
    forall i | 0 <= i < |a.oSet| ensures a.oSet[i].Header() == b.oSet[i].Header() { assert oa[i] == ob[i]; }
  }

  function Headers(msgs: seq<PMsg>): seq<Bytes> {
    seq(|msgs|, i requires 0 <= i < |msgs| => msgs[i].Header())
  }
}
