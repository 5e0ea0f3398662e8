/** The view change of PBFT: the P set a replica reports, the sequence bounds and the O set
    the new leader builds (orderer/consensus/pbft). */
module PbftViewChange {
  import opened Common
  import opened Blockchain
  import opened PbftTypes

  /* Sequence bounds */

  ghost predicate Checkpointed(msgs: seq<PMsg>, y: int) {
    exists i :: 0 <= i < |msgs| && InCSet(msgs[i].cSet, y)
  }

  ghost predicate PreparedAt(msgs: seq<PMsg>, y: int) {
    exists i :: 0 <= i < |msgs| && InPSet(msgs[i].pSet, y)
  }

  ghost predicate InCSet(cSet: seq<PMsg>, y: int) {
    exists j :: 0 <= j < |cSet| && cSet[j].seqNum == y
  }

  ghost predicate InPSet(pSet: seq<Pm>, y: int) {
    exists k, l :: 0 <= k < |pSet| && 0 <= l < |pSet[k].prepareMsgs| && pSet[k].prepareMsgs[l].seqNum == y
  }

  // min-s and max-s: the true maxima over all C and P sets and -1, but only if the first
  // message has a checkpoint at all.
  ghost predicate SeqBounds(msgs: seq<PMsg>, minS: int, maxS: int)
    requires msgs != []
  {
    if msgs[0].cSet == [] then minS == -1 && maxS == -1
    else
      && minS >= -1 && (minS == -1 || Checkpointed(msgs, minS)) && (forall y :: Checkpointed(msgs, y) ==> y <= minS)
      && maxS >= -1 && (maxS == -1 || PreparedAt(msgs, maxS)) && (forall y :: PreparedAt(msgs, y) ==> y <= maxS)
  }

  // The source panics on an empty list.
  method GetSeq(msgs: seq<PMsg>) returns (minS: int, maxS: int)
    requires msgs != []
    ensures SeqBounds(msgs, minS, maxS)
  {
    minS, maxS := -1, -1;
    if |msgs[0].cSet| == 0 {
      return;
    }
    for i := 0 to |msgs|
      invariant minS >= -1 && (minS == -1 || Checkpointed(msgs, minS))
      invariant forall a, y :: 0 <= a < i && InCSet(msgs[a].cSet, y) ==> y <= minS
      invariant maxS >= -1 && (maxS == -1 || PreparedAt(msgs, maxS))
      invariant forall a, y :: 0 <= a < i && InPSet(msgs[a].pSet, y) ==> y <= maxS
    {
      minS := MaxCheckpoint(msgs[i].cSet, minS);
      maxS := MaxPrepared(msgs[i].pSet, maxS);
    }
  }

  // The inner loop over one C set.
  method MaxCheckpoint(cSet: seq<PMsg>, bound: int) returns (x: int)
    ensures x >= bound && (x == bound || InCSet(cSet, x))
    ensures forall y :: InCSet(cSet, y) ==> y <= x
  {
    x := bound;
    for j := 0 to |cSet|
      invariant x >= bound && (x == bound || InCSet(cSet, x))
      invariant forall b :: 0 <= b < j ==> cSet[b].seqNum <= x
    {
      if x < cSet[j].seqNum {
        x := cSet[j].seqNum;
      }
    }
  }

  // The inner loops over one P set.
  method MaxPrepared(pSet: seq<Pm>, bound: int) returns (x: int)
    ensures x >= bound && (x == bound || InPSet(pSet, x))
    ensures forall y :: InPSet(pSet, y) ==> y <= x
  {
    x := bound;
    for k := 0 to |pSet|
      invariant x >= bound && (x == bound || InPSet(pSet, x))
      invariant forall b, d :: 0 <= b < k && 0 <= d < |pSet[b].prepareMsgs| ==> pSet[b].prepareMsgs[d].seqNum <= x
    {
      for l := 0 to |pSet[k].prepareMsgs|
        invariant x >= bound && (x == bound || InPSet(pSet, x))
        invariant forall b, d :: 0 <= b < k && 0 <= d < |pSet[b].prepareMsgs| ==> pSet[b].prepareMsgs[d].seqNum <= x
        invariant forall d :: 0 <= d < l ==> pSet[k].prepareMsgs[d].seqNum <= x
      {
        if x < pSet[k].prepareMsgs[l].seqNum {
          x := pSet[k].prepareMsgs[l].seqNum;
        }
      }
    }
  }

  /* The O set */

  // pm is a certificate for s: more than bound prepares beside its pre-prepare.
  predicate CertifiesSeq(pm: Pm, s: int, bound: nat) {
    pm.prePrepareMsg.seqNum == s && |pm.prepareMsgs| > bound
  }

  ghost predicate HasCertificate(msgs: seq<PMsg>, s: int, d: Bytes, bound: nat) {
    exists i, k :: 0 <= i < |msgs| && 0 <= k < |msgs[i].pSet| && CertifiesSeq(msgs[i].pSet[k], s, bound) && msgs[i].pSet[k].prePrepareMsg.digest == d
  }

  // No certificate for s comes before entry k of the P set of message i.
  ghost predicate NoneBefore(msgs: seq<PMsg>, s: int, bound: nat, i: nat, k: nat)
    requires i < |msgs|
  {
    && (forall a, b :: 0 <= a < i && 0 <= b < |msgs[a].pSet| ==> !CertifiesSeq(msgs[a].pSet[b], s, bound))
    && (forall b :: 0 <= b < k && b < |msgs[i].pSet| ==> !CertifiesSeq(msgs[i].pSet[b], s, bound))
  }

  // The digest proposed for s: that of the first certificate for s if there is one, else nil.
  ghost predicate DigestFor(msgs: seq<PMsg>, s: int, bound: nat, d: Bytes) {
    || (exists i, k :: 0 <= i < |msgs| && 0 <= k < |msgs[i].pSet| && CertifiesSeq(msgs[i].pSet[k], s, bound)
          && msgs[i].pSet[k].prePrepareMsg.digest == d && NoneBefore(msgs, s, bound, i, k))
    || (d == [] && forall x :: !HasCertificate(msgs, s, x, bound))
  }

  // O holds exactly one pre-prepare per number from min-s to max-s, in order.
  ghost predicate IsOSet(signer: Signer, leader: nat, viewNumber: int, msgs: seq<PMsg>, bound: nat, minS: int, maxS: int, oSet: seq<PMsg>) {
    if minS == -1 || maxS == -1 || minS > maxS then oSet == []
    else
      && |oSet| == maxS - minS + 1
      && forall k :: 0 <= k < |oSet| ==>
           && oSet[k].mType == PREPREPARE && oSet[k].viewNumber == viewNumber && oSet[k].seqNum == minS + k
           && DigestFor(msgs, minS + k, bound, oSet[k].digest)
           && oSet[k].signature == signer.sign(leader, oSet[k].Header())
  }

  // The two loops that end at the first certificate found.
  method FindDigest(msgs: seq<PMsg>, s: int, bound: nat) returns (d: Bytes)
    ensures DigestFor(msgs, s, bound, d)
  {
    d := [];
    for i := 0 to |msgs|
      invariant forall a, b :: 0 <= a < i && 0 <= b < |msgs[a].pSet| ==> !CertifiesSeq(msgs[a].pSet[b], s, bound)
    {
      var pSet := msgs[i].pSet;
      for k := 0 to |pSet|
        invariant forall b :: 0 <= b < k ==> !CertifiesSeq(pSet[b], s, bound)
      {
        if CertifiesSeq(pSet[k], s, bound) {
          d := pSet[k].prePrepareMsg.digest;
          assert NoneBefore(msgs, s, bound, i, k) && CertifiesSeq(msgs[i].pSet[k], s, bound);
          return;
        }
      }
    }
  }

  method GenOSet(signer: Signer, leader: nat, viewNumber: int, msgs: seq<PMsg>, bound: nat, minS: int, maxS: int) returns (oSet: seq<PMsg>)
    ensures IsOSet(signer, leader, viewNumber, msgs, bound, minS, maxS, oSet)
  {
    oSet := [];
    if minS != -1 && maxS != -1 {
      var i := minS;
      while i <= maxS
        invariant |oSet| == i - minS && (minS <= maxS ==> i <= maxS + 1) && (minS > maxS ==> i == minS)
        invariant forall k :: 0 <= k < |oSet| ==>
          && oSet[k].mType == PREPREPARE && oSet[k].viewNumber == viewNumber && oSet[k].seqNum == minS + k
          && DigestFor(msgs, minS + k, bound, oSet[k].digest)
          && oSet[k].signature == signer.sign(leader, oSet[k].Header())
      {
        var d := FindDigest(msgs, i, bound);
        var prePrepareMsg := NO_PMSG.(mType := PREPREPARE, viewNumber := viewNumber, seqNum := i, digest := d);
        assert prePrepareMsg.(signature := signer.sign(leader, prePrepareMsg.Header())).Header() == prePrepareMsg.Header();
        oSet := oSet + [prePrepareMsg.(signature := signer.sign(leader, prePrepareMsg.Header()))];
        i := i + 1;
      }
    }
  }

  /* New-view safety */

  ghost predicate DistinctSenders(msgs: seq<PMsg>) {
    forall i, j :: 0 <= i < j < |msgs| ==> msgs[i].sendNode != msgs[j].sendNode
  }

  function Senders(msgs: seq<PMsg>): set<nat> {
    set i | 0 <= i < |msgs| :: msgs[i].sendNode
  }

  lemma SendersSplit(msgs: seq<PMsg>)
    requires msgs != []
    ensures Senders(msgs) == Senders(msgs[..|msgs| - 1]) + {msgs[|msgs| - 1].sendNode}
  {
    var before := msgs[..|msgs| - 1];
    forall x | x in Senders(msgs) && x != msgs[|msgs| - 1].sendNode ensures x in Senders(before) {
      var i :| 0 <= i < |msgs| && msgs[i].sendNode == x;
      assert before[i].sendNode == x;
    }
    forall x | x in Senders(before) ensures x in Senders(msgs) {
      var i :| 0 <= i < |before| && before[i].sendNode == x;
      assert msgs[i].sendNode == x;
    }
  }

  lemma {:induction false} SendersCounted(msgs: seq<PMsg>)
    requires DistinctSenders(msgs)
    ensures |Senders(msgs)| == |msgs|
  {
    if msgs != [] {
      SendersCounted(msgs[..|msgs| - 1]);
      SendersSplit(msgs);
    }
  }

  // m reports that d prepared at s: a certificate whose prepares are all for s.
  ghost predicate Reports(m: PMsg, s: int, d: Bytes, bound: nat) {
    exists k :: 0 <= k < |m.pSet| && CertifiesSeq(m.pSet[k], s, bound) && m.pSet[k].prePrepareMsg.digest == d
      && forall p <- m.pSet[k].prepareMsgs :: p.seqNum == s
  }

  ghost predicate Proposes(oSet: seq<PMsg>, s: int, d: Bytes) {
    exists k :: 0 <= k < |oSet| && oSet[k].seqNum == s && oSet[k].digest == d
  }

  lemma ReporterAmong(f: nat, msgs: seq<PMsg>, reporters: set<nat>) returns (i: nat)
    requires |msgs| == 2 * f + 1 && DistinctSenders(msgs) && forall m <- msgs :: m.sendNode < 3 * f + 1
    requires |reporters| >= 2 * f + 1 && forall r <- reporters :: r < 3 * f + 1
    ensures i < |msgs| && msgs[i].sendNode in reporters
  {
    SendersCounted(msgs);
    forall x | x in Senders(msgs) + reporters ensures x < 3 * f + 1 {
      if x in Senders(msgs) {
        var i :| 0 <= i < |msgs| && msgs[i].sendNode == x;
        assert msgs[i] in msgs;
      }
    }
    SetIsBounded(Senders(msgs) + reporters, 3 * f + 1);
    assert |Senders(msgs) + reporters| == |Senders(msgs)| + |reporters| - |Senders(msgs) * reporters|;
    assert Senders(msgs) * reporters != {};
    var x :| x in Senders(msgs) * reporters;
    i :| 0 <= i < |msgs| && msgs[i].sendNode == x;
  }

  lemma DigestIsCertified(msgs: seq<PMsg>, s: int, bound: nat, d: Bytes, other: Bytes)
    requires DigestFor(msgs, s, bound, d) && HasCertificate(msgs, s, other, bound)
    ensures HasCertificate(msgs, s, d, bound)
  {
  }

  // If 2f+1 replicas report that d prepared at s, and the certificates for s among any 2f+1
  // view-change messages of distinct senders agree, then O proposes d at s exactly when the
  // first message carries a checkpoint and min-s is not above s.
  lemma NewViewKeepsPrepared(f: nat, signer: Signer, leader: nat, viewNumber: int, msgs: seq<PMsg>, reporters: set<nat>, s: int, d: Bytes, minS: int, maxS: int, oSet: seq<PMsg>)
    requires |msgs| == 2 * f + 1 && DistinctSenders(msgs) && forall m <- msgs :: m.sendNode < 3 * f + 1
    requires |reporters| >= 2 * f + 1 && forall r <- reporters :: r < 3 * f + 1
    requires forall m <- msgs :: m.sendNode in reporters ==> Reports(m, s, d, 2 * f)
    requires forall x :: HasCertificate(msgs, s, x, 2 * f) ==> x == d
    requires s >= 0 && forall i, j :: 0 <= i < |msgs| && 0 <= j < |msgs[i].cSet| ==> msgs[i].cSet[j].seqNum >= 0
    requires SeqBounds(msgs, minS, maxS) && IsOSet(signer, leader, viewNumber, msgs, 2 * f, minS, maxS, oSet)
    ensures Proposes(oSet, s, d) <==> msgs[0].cSet != [] && minS <= s
  {
    var i := ReporterAmong(f, msgs, reporters);
    assert msgs[i] in msgs;
    var k :| 0 <= k < |msgs[i].pSet| && CertifiesSeq(msgs[i].pSet[k], s, 2 * f) && msgs[i].pSet[k].prePrepareMsg.digest == d
      && forall p <- msgs[i].pSet[k].prepareMsgs :: p.seqNum == s;
    assert HasCertificate(msgs, s, d, 2 * f);
    if msgs[0].cSet != [] {
      assert msgs[i].pSet[k].prepareMsgs[0] in msgs[i].pSet[k].prepareMsgs;
      assert msgs[i].pSet[k].prepareMsgs[0].seqNum == s;
      assert InPSet(msgs[i].pSet, s);
      assert PreparedAt(msgs, s);
      assert InCSet(msgs[0].cSet, msgs[0].cSet[0].seqNum);
      assert Checkpointed(msgs, msgs[0].cSet[0].seqNum);
      if minS <= s {
        assert DigestFor(msgs, s, 2 * f, oSet[s - minS].digest);
        DigestIsCertified(msgs, s, 2 * f, oSet[s - minS].digest, d);
      }
    }
  }

  /* The P set a replica reports */

  predicate PreparedSlot(slot: MsgsLog, bound: nat) {
    !slot.IsEmpty() && |slot.prepareMsgs| > bound
  }

  function CertificateOf(slot: MsgsLog): Pm
    requires !slot.IsEmpty()
  {
    Pm(slot.preprepareMsg.value.PMsg2VCMsg(),
       seq(|slot.prepareMsgs|, i requires 0 <= i < |slot.prepareMsgs| => slot.prepareMsgs[i].PMsg2VCMsg()))
  }

  // The certificates of the longest run of prepared slots at the start of the log.
  ghost predicate IsReport(msgLog: seq<MsgsLog>, bound: nat, pm: seq<Pm>) {
    && |pm| <= |msgLog|
    && (forall i :: 0 <= i < |pm| ==> PreparedSlot(msgLog[i], bound) && pm[i] == CertificateOf(msgLog[i]))
    && (|pm| < |msgLog| ==> !PreparedSlot(msgLog[|pm|], bound))
  }

  method GetValidMsgs(msgLog: seq<MsgsLog>, nodesNum: nat) returns (pm: seq<Pm>)
    ensures IsReport(msgLog, VoteBound(nodesNum), pm)
  {
    pm := [];
    var threshold := VoteBound(nodesNum);
    var i := 0;
    while i < |msgLog|
      invariant 0 <= i <= |msgLog| && |pm| == i
      invariant forall j :: 0 <= j < i ==> PreparedSlot(msgLog[j], threshold) && pm[j] == CertificateOf(msgLog[j])
    {
      if msgLog[i].IsEmpty() || |msgLog[i].prepareMsgs| <= threshold {
        break;
      }
      var prepares := [];
      for l := 0 to |msgLog[i].prepareMsgs|
        invariant |prepares| == l
        invariant forall j :: 0 <= j < l ==> prepares[j] == msgLog[i].prepareMsgs[j].PMsg2VCMsg()
      {
        prepares := prepares + [msgLog[i].prepareMsgs[l].PMsg2VCMsg()];
      }
      pm := pm + [Pm(msgLog[i].preprepareMsg.value.PMsg2VCMsg(), prepares)];
      i := i + 1;
    }
  }

  // A prepared slot is reported exactly when every slot before it is prepared too.
  lemma ReportedIffNoGap(msgLog: seq<MsgsLog>, bound: nat, pm: seq<Pm>, i: nat)
    requires IsReport(msgLog, bound, pm) && i < |msgLog| && PreparedSlot(msgLog[i], bound)
    ensures i < |pm| <==> forall j :: 0 <= j < i ==> PreparedSlot(msgLog[j], bound)
  {
  }

  // A replica that prepared (s, d) in slot i, with no gap before, reports it to the leader.
  lemma PreparedSlotIsReported(msgLog: seq<MsgsLog>, bound: nat, m: PMsg, i: nat)
    requires IsReport(msgLog, bound, m.pSet) && i < |msgLog|
    requires forall j :: 0 <= j <= i ==> PreparedSlot(msgLog[j], bound)
    requires forall p <- msgLog[i].prepareMsgs :: p.seqNum == msgLog[i].preprepareMsg.value.seqNum
    ensures Reports(m, msgLog[i].preprepareMsg.value.seqNum, msgLog[i].preprepareMsg.value.digest, bound)
  {
    ReportedIffNoGap(msgLog, bound, m.pSet, i);
    assert m.pSet[i] == CertificateOf(msgLog[i]);
  }

  // So an empty first slot hides all that prepared after it.
  lemma GapHidesPrepared(msgLog: seq<MsgsLog>, bound: nat, pm: seq<Pm>, i: nat)
    requires |msgLog| == CHECKPOINTNUM && msgLog[0] == NO_LOG && i < |msgLog| && PreparedSlot(msgLog[i], bound)
    requires IsReport(msgLog, bound, pm)
    ensures pm == [] && i > 0
  {
    ReportedIffNoGap(msgLog, bound, pm, i);
  }
}
