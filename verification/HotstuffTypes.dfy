/** Messages, certificates and the bytes that are signed (orderer/consensus/hotstuff/types). */
module HotstuffTypes {
  import opened Common
  import opened Blockchain

  /* Message types and phases share one numbering. */
  type StateType = Byte

  const NEW_VIEW: StateType := 0
  const PREPARE: StateType := 1
  const PREPARE_VOTE: StateType := 2
  const PRE_COMMIT: StateType := 3
  const PRE_COMMIT_VOTE: StateType := 4
  const COMMIT: StateType := 5
  const COMMIT_VOTE: StateType := 6
  const DECIDE: StateType := 7
  const WAITING: StateType := 12

  // The phases in which replicas vote.
  predicate VoteType(t: StateType) {
    t == PREPARE || t == PRE_COMMIT || t == COMMIT
  }

  datatype HsNode = HsNode(curHash: Bytes, parentHash: Bytes) {
    function Object2Byte(): Bytes {
      curHash + parentHash
    }
  }

  datatype QC = QC(qType: StateType, viewNumber: int, hsNode: HsNode, sign: Signature) {
    function QC2SignMsgByte(): Bytes {
      SignedBytes(qType, viewNumber, hsNode)
    }
  }

  datatype Proposal = Proposal(height: int, preBlkHash: Bytes, rootHash: Bytes, commands: seq<Bytes>, signs: seq<Bytes>) {
    predicate IsEmpty() {
      commands == [] && rootHash == [] && preBlkHash == []
    }
  }

  datatype Receiver = Nobody | Broadcast | Node(id: nat)

  datatype Msg = Msg(
    mType: StateType, viewNumber: int, hsNode: HsNode, justify: QC, partialSig: Signature,
    proposal: Proposal, block: Block, sendNode: Option<nat>, reciNode: Receiver)
  {
    function Message2Byte(): Bytes {
      SignedBytes(mType, viewNumber, hsNode)
    }
  }

  // Zero values.
  const NO_NODE := HsNode([], [])
  const NO_QC := QC(NEW_VIEW, 0, NO_NODE, NoSign)
  const NO_PROPOSAL := Proposal(0, [], [], [], [])
  const NO_MSG := Msg(NEW_VIEW, 0, NO_NODE, NO_QC, NoSign, NO_PROPOSAL, EMPTY_BLOCK, None, Nobody)

  // What a vote or a certificate of this type, view and node is a signature of.
  function SignedBytes(t: StateType, viewNumber: int, node: HsNode): Bytes {
    [t, ToByte(viewNumber)] + node.Object2Byte()
  }

  // Votes and certificates agree on the bytes exactly when the types agree, the views
  // agree modulo 256 and the two hashes agree as one string.
  lemma SignedBytesAgree(t: StateType, v: int, a: HsNode, t': StateType, v': int, b: HsNode)
    ensures SignedBytes(t, v, a) == SignedBytes(t', v', b)
      <==> t == t' && v % 256 == v' % 256 && a.curHash + a.parentHash == b.curHash + b.parentHash
  {
    var x, y := SignedBytes(t, v, a), SignedBytes(t', v', b);
    assert x[0] == t && x[1] == ToByte(v) && x[2..] == a.Object2Byte();
    assert y[0] == t' && y[1] == ToByte(v') && y[2..] == b.Object2Byte();
  }

  predicate OneByteView(viewNumber: int) {
    0 <= viewNumber < 256
  }

  predicate DigestNode(node: HsNode) {
    |node.curHash| == DIGEST_LENGTH
  }

  // For views of one byte and current hashes of digest length the bytes fix everything.
  lemma SignedBytesDetermine(t: StateType, v: int, a: HsNode, t': StateType, v': int, b: HsNode)
    requires SignedBytes(t, v, a) == SignedBytes(t', v', b)
    requires OneByteView(v) && OneByteView(v') && DigestNode(a) && DigestNode(b)
    ensures t == t' && v == v' && a == b
  {
    SignedBytesAgree(t, v, a, t', v', b);
    var s := a.curHash + a.parentHash;
    assert a.curHash == s[..DIGEST_LENGTH] && a.parentHash == s[DIGEST_LENGTH..];
    assert b.curHash == s[..DIGEST_LENGTH] && b.parentHash == s[DIGEST_LENGTH..];
  }

  // Neither bound can go: views 256 apart, and hashes cut at another place, sign alike.
  lemma SignedBytesCollide(t: StateType, v: int, x: Byte, node: HsNode)
    ensures SignedBytes(t, v, node) == SignedBytes(t, v + 256, node)
    ensures var a, b := HsNode(node.curHash + [x], node.parentHash), HsNode(node.curHash, [x] + node.parentHash);
      a != b && SignedBytes(t, v, a) == SignedBytes(t, v, b)
  {
    SignedBytesAgree(t, v, node, t, v + 256, node);
    var a, b := HsNode(node.curHash + [x], node.parentHash), HsNode(node.curHash, [x] + node.parentHash);
    assert |a.curHash| == |b.curHash| + 1;
    assert a.Object2Byte() == b.Object2Byte();
  }

  /* The ideal threshold signature */

  // The hash function, the threshold of the signer and the recovery of a combined
  // signature from shares; recovery yields NoSign where the source gets an error.
  datatype Crypto = Crypto(sum: Hasher, threshold: nat, combineSig: (Bytes, seq<Signature>) -> Signature) {
    function ThresholdSign(signer: nat, content: Bytes): Signature {
      Share(signer, content)
    }

    predicate ThresholdSignVerify(content: Bytes, sign: Signature) {
      sign.Combined? && sign.content == content && |sign.signers| >= threshold
    }

    // Recovery is sound: it only ever combines the shares of enough distinct signers.
    ghost predicate Sound() {
      && IsDigest(sum)
      && forall content: Bytes, shares: seq<Signature> :: RecoversFrom(combineSig(content, shares), content, shares)
    }

    ghost predicate RecoversFrom(sign: Signature, content: Bytes, shares: seq<Signature>) {
      sign == NoSign
      || (ThresholdSignVerify(content, sign) && forall who <- sign.signers :: Share(who, content) in shares)
    }

    // Recovery is complete on lists of valid shares of distinct signers.
    ghost predicate Complete() {
      forall content: Bytes, shares: seq<Signature> :: DistinctShares(content, shares) ==> combineSig(content, shares) != NoSign
    }

    ghost predicate DistinctShares(content: Bytes, shares: seq<Signature>) {
      && |shares| == threshold
      && (forall i :: 0 <= i < |shares| ==> shares[i].Share? && shares[i].content == content)
      && (forall i, j :: 0 <= i < j < |shares| ==> shares[i] != shares[j])
    }
  }

  /* Such a signature exists */

  function ValidSigners(content: Bytes, shares: seq<Signature>): set<nat> {
    set i | 0 <= i < |shares| && shares[i].Share? && shares[i].content == content :: shares[i].signer
  }

  // Recovers a signature of all signers with a valid share, if they are enough.
  function IdealCrypto(sum: Hasher, threshold: nat): Crypto {
    Crypto(sum, threshold, (content, shares) =>
      if |ValidSigners(content, shares)| >= threshold then Combined(ValidSigners(content, shares), content) else NoSign)
  }

  lemma IdealIsSoundAndComplete(sum: Hasher, threshold: nat)
    requires IsDigest(sum)
    ensures IdealCrypto(sum, threshold).Sound() && IdealCrypto(sum, threshold).Complete()
  {
    var c := IdealCrypto(sum, threshold);
    forall content: Bytes, shares: seq<Signature> ensures c.RecoversFrom(c.combineSig(content, shares), content, shares) {
      forall who | who in ValidSigners(content, shares) ensures Share(who, content) in shares {
        var i :| 0 <= i < |shares| && shares[i].Share? && shares[i].content == content && shares[i].signer == who;
        assert shares[i] == Share(who, content);
      }
    }
    forall content: Bytes, shares: seq<Signature> | c.DistinctShares(content, shares) ensures c.combineSig(content, shares) != NoSign {
      DistinctSigners(content, shares);
    }
  }

  lemma {:induction false} DistinctSigners(content: Bytes, shares: seq<Signature>)
    requires forall i :: 0 <= i < |shares| ==> shares[i].Share? && shares[i].content == content
    requires forall i, j :: 0 <= i < j < |shares| ==> shares[i] != shares[j]
    ensures |ValidSigners(content, shares)| == |shares|
  {
    if shares != [] {
      var n := |shares| - 1;
      DistinctSigners(content, shares[..n]);
      assert ValidSigners(content, shares) == ValidSigners(content, shares[..n]) + {shares[n].signer};
    }
  }
}
