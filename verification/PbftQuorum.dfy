/** Votes of PBFT: what makes a replica reply, and that the votes of 2f+1 replicas do. */
module PbftQuorum {
  import opened Common
  import opened Blockchain
  import opened PbftTypes
  import opened PbftSpec
  import opened PbftNormalCase

  /* A reply needs a quorum */

  // A vote that r accepts: not of an old view nor far ahead of the checkpoint, signed with its
  // sender's name, and matching the pre-prepare logged for its view.
  predicate Accepts(signer: Signer, r: Replica, m: PMsg)
    requires r.Valid()
  {
    var pp := r.msgLog[m.viewNumber % CHECKPOINTNUM].preprepareMsg;
    && r.view.viewNumber <= m.viewNumber && m.seqNum <= r.checkSeq + 10
    && signer.verifySign(m.sendNode, m.signature, [m.mType, ToByte(m.viewNumber), ToByte(m.seqNum)] + m.digest + signer.name(m.sendNode))
    && pp.Some? && m.viewNumber == pp.value.viewNumber && m.seqNum == pp.value.seqNum && m.digest == pp.value.digest
  }

  predicate IsReply(out: Option<PMsg>) {
    out.Some? && out.value.mType == REPLY
  }

  // A commit makes a replica reply exactly when it accepts it, the slot of its view holds more
  // than (n-1)/3*2 prepares, and with this one more than (n-1)/3*2 commits.
  lemma CommitRepliesIff(signer: Signer, r: Replica, m: PMsg)
    requires r.Valid() && m.mType == COMMIT
    ensures var slot, bound := r.msgLog[r.view.viewNumber % CHECKPOINTNUM], (r.view.nodesNum - 1) / 3 * 2;
      && (IsReply(HandlePMsg(signer, r, m).1) <==>
            r.curPhase != VIEW_CHANGE && Accepts(signer, r, m) && |slot.prepareMsgs| > bound && |slot.commitMsgs| + 1 > bound)
      && (HandlePMsg(signer, r, m).1.Some? ==> IsReply(HandlePMsg(signer, r, m).1))
  {
    hide Block.Hash, AdvanceTo;
  }

  // A prepare makes a replica commit exactly when it accepts it, has not committed itself, and
  // the slot of its view holds, with this one, more than (n-1)/3*2 prepares; it never replies.
  lemma PrepareCommitsIff(signer: Signer, r: Replica, m: PMsg)
    requires r.Valid() && m.mType == PREPARE
    ensures var slot, bound := r.msgLog[r.view.viewNumber % CHECKPOINTNUM], (r.view.nodesNum - 1) / 3 * 2;
      && (HandlePMsg(signer, r, m).1.Some? <==>
            r.curPhase != VIEW_CHANGE && r.curPhase != PREPARE && Accepts(signer, r, m) && |slot.prepareMsgs| + 1 > bound)
      && (HandlePMsg(signer, r, m).1.Some? ==> HandlePMsg(signer, r, m).1.value.mType == COMMIT)
  {
    hide Block.Hash, AdvanceTo;
  }

  // Which of the votes match the pre-prepare.
  ghost function MatchingVotes(votes: seq<PMsg>, pp: PMsg): set<nat> {
    set i: nat | i < |votes| && votes[i].viewNumber == pp.viewNumber && votes[i].seqNum == pp.seqNum && votes[i].digest == pp.digest
  }

  lemma {:induction false} FilterCounts(votes: seq<PMsg>, pp: PMsg)
    ensures |Filter(votes, pp)| == |MatchingVotes(votes, pp)|
  {
    if votes != [] {
      var n := |votes| - 1;
      FilterCounts(votes[..n], pp);
      assert MatchingVotes(votes, pp) == MatchingVotes(votes[..n], pp) + (if Matches(votes[n], pp) then {n} else {});
    }
  }

  // A pre-prepare is adopted if none is logged for its view, and it is of the replica's view,
  // not behind its number and signed on its header.
  predicate Adopts(signer: Signer, r: Replica, m: PMsg)
    requires r.Valid()
  {
    && r.msgLog[m.viewNumber % CHECKPOINTNUM].preprepareMsg.None?
    && m.viewNumber == r.view.viewNumber && r.sequenceNum <= m.seqNum
    && signer.verifySign(m.sendNode, m.signature, [m.mType, ToByte(m.viewNumber), ToByte(m.seqNum)] + m.digest)
  }

  lemma EarlyRepliesIff(signer: Signer, r: Replica, m: PMsg)
    requires r.Valid() && m.mType == PREPREPARE
    ensures Adopt(signer, r, m).Valid()
    ensures var slot, out := r.msgLog[r.view.viewNumber % CHECKPOINTNUM], CheckPrepareAndCommit(signer, Adopt(signer, r, m), m).1;
      && (out.Some? <==> slot.prepareMsgs != [] && |Filter(slot.commitMsgs, m)| > (r.view.nodesNum - 1) / 3 * 2)
      && (out.Some? ==> IsReply(out))
  {
    var r1 := Adopt(signer, r, m);
    assert r1.Valid() && r1.Slot().prepareMsgs == r.Slot().prepareMsgs && r1.Slot().commitMsgs == r.Slot().commitMsgs && r1.view == r.view;
    hide Adopt, Filter, AdvanceTo;
  }

  // It makes a replica reply at once exactly when it is adopted, there is a prepare already, and
  // more than (n-1)/3*2 of the commits match it; otherwise it makes it prepare.
  lemma PrePrepareRepliesIff(signer: Signer, r: Replica, m: PMsg)
    requires r.Valid() && m.mType == PREPREPARE
    ensures var slot, bound, out := r.msgLog[r.view.viewNumber % CHECKPOINTNUM], (r.view.nodesNum - 1) / 3 * 2, HandlePMsg(signer, r, m).1;
      && (out.Some? <==> Adopts(signer, r, m))
      && (IsReply(out) <==> Adopts(signer, r, m) && slot.prepareMsgs != [] && |MatchingVotes(slot.commitMsgs, m)| > bound)
      && (out.Some? && !IsReply(out) ==> out.value.mType == PREPARE)
  {
    FilterCounts(r.msgLog[r.view.viewNumber % CHECKPOINTNUM].commitMsgs, m);
    EarlyRepliesIff(signer, r, m);
    hide Adopt, CheckPrepareAndCommit, Filter, MatchingVotes;
  }

  /* What is logged */

  // A vote that may be logged: one that is accepted, or would be if the pre-prepare were there.
  predicate Logs(signer: Signer, r: Replica, m: PMsg)
    requires r.Valid()
  {
    && r.curPhase != VIEW_CHANGE && r.view.viewNumber <= m.viewNumber && m.seqNum <= r.checkSeq + 10
    && signer.verifySign(m.sendNode, m.signature, [m.mType, ToByte(m.viewNumber), ToByte(m.seqNum)] + m.digest + signer.name(m.sendNode))
    && (r.msgLog[m.viewNumber % CHECKPOINTNUM].preprepareMsg.None? || Accepts(signer, r, m))
  }

  // A vote goes to the slot of the replica's view exactly when it may be logged, and once.
  lemma VoteIsLoggedIff(signer: Signer, r: Replica, m: PMsg)
    requires r.Valid() && (m.mType == PREPARE || m.mType == COMMIT)
    ensures var k := r.view.viewNumber % CHECKPOINTNUM;
      HandlePMsg(signer, r, m).0.msgLog == (if Logs(signer, r, m) then r.msgLog[k := r.msgLog[k].Add(m)] else r.msgLog)
  {
    hide Block.Hash, AdvanceTo;
  }

  // A vote that comes before its pre-prepare changes nothing but the log.
  lemma EarlyVote(signer: Signer, r: Replica, m: PMsg)
    requires r.Valid() && (m.mType == PREPARE || m.mType == COMMIT) && r.msgLog[m.viewNumber % CHECKPOINTNUM].preprepareMsg.None?
    ensures HandlePMsg(signer, r, m) == (r.(msgLog := HandlePMsg(signer, r, m).0.msgLog), None)
  {
    hide Block.Hash;
  }

  /* Over everything a replica is sent */

  // The messages of one type among the events.
  function Received(events: seq<Event>, t: StateType): seq<PMsg> {
    if events == [] then []
    else
      var before, e := Received(events[..|events| - 1], t), events[|events| - 1];
      if e.Message? && e.m.mType == t then before + [e.m] else before
  }

  // The vote that an event brings, if it is one of type t.
  function Brings(e: Event, t: StateType): multiset<PMsg> {
    if e.Message? && e.m.mType == t then multiset{e.m} else multiset{}
  }

  lemma ReceivedNext(events: seq<Event>, k: nat, t: StateType)
    requires k < |events|
    ensures multiset(Received(events[..k + 1], t)) == multiset(Received(events[..k], t)) + Brings(events[k], t)
  {
    assert events[..k + 1][..k] == events[..k];
  }

  lemma {:induction false} FilterKeepsFewer(votes: seq<PMsg>, pp: PMsg)
    ensures multiset(Filter(votes, pp)) <= multiset(votes)
  {
    if votes != [] {
      FilterKeepsFewer(votes[..|votes| - 1], pp);
      assert votes == votes[..|votes| - 1] + [votes[|votes| - 1]];
    }
  }

  // What one message adds to a slot.
  ghost predicate AddsAtMost(r: Replica, r1: Replica, e: Event, j: nat)
    requires j < |r.msgLog| && j < |r1.msgLog|
  {
    && multiset(r1.msgLog[j].prepareMsgs) <= multiset(r.msgLog[j].prepareMsgs) + Brings(e, PREPARE)
    && multiset(r1.msgLog[j].commitMsgs) <= multiset(r.msgLog[j].commitMsgs) + Brings(e, COMMIT)
  }

  lemma LoggingAdds(r: Replica, m: PMsg, j: nat)
    requires r.Valid() && j < |r.msgLog|
    ensures |LogMsg(r, m).msgLog| == |r.msgLog| && AddsAtMost(r, LogMsg(r, m), Message(m), j)
  {
  }

  lemma VoteAdds(signer: Signer, r: Replica, m: PMsg, j: nat)
    requires r.Valid() && j < |r.msgLog| && (m.mType == PREPARE || m.mType == COMMIT)
    ensures var r1 := HandlePMsg(signer, r, m).0; |r1.msgLog| == |r.msgLog| && AddsAtMost(r, r1, Message(m), j)
  {
    LoggingAdds(r, m, j);
    var r1 := HandlePMsg(signer, r, m).0;
    assert r1.msgLog == r.msgLog || r1.msgLog == LogMsg(r, m).msgLog by {
      hide Block.Hash, AdvanceTo, LogMsg;
    }
    hide HandlePMsg, LogMsg;
  }

  lemma PrePrepareAdds(signer: Signer, r: Replica, m: PMsg, j: nat)
    requires r.Valid() && j < |r.msgLog| && m.mType == PREPREPARE
    ensures var r1 := HandlePMsg(signer, r, m).0; |r1.msgLog| == |r.msgLog| && AddsAtMost(r, r1, Message(m), j)
  {
    FilterKeepsFewer(r.Slot().commitMsgs, m);
    PrePrepareLogs(signer, r, m);
    hide HandlePMsg, Filter;
  }

  // An adopted pre-prepare is logged, and may drop commits that do not match it.
  lemma PrePrepareLogs(signer: Signer, r: Replica, m: PMsg)
    requires r.Valid() && m.mType == PREPREPARE
    ensures var slot, log := r.Slot(), HandlePMsg(signer, r, m).0.msgLog;
      || log == r.msgLog
      || log == r.msgLog[r.view.viewNumber % CHECKPOINTNUM := MsgsLog(Some(m), slot.prepareMsgs, slot.commitMsgs)]
      || log == r.msgLog[r.view.viewNumber % CHECKPOINTNUM := MsgsLog(Some(m), slot.prepareMsgs, Filter(slot.commitMsgs, m))]
  {
    hide Block.Hash, AdvanceTo, Filter;
  }

  lemma EventAdds(signer: Signer, r: Replica, e: Event, j: nat)
    requires r.Valid() && j < |r.msgLog| && j < |Handle(signer, r, e).msgLog|
    ensures AddsAtMost(r, Handle(signer, r, e), e, j)
  {
    if e.Request? {
      LoggingAdds(r, HandleReq(signer, r, e.height, e.cmds, e.timeStamp).1, j);
    } else if e.Message? {
      if e.m.mType == PREPARE || e.m.mType == COMMIT { VoteAdds(signer, r, e.m, j); }
      if e.m.mType == PREPREPARE { PrePrepareAdds(signer, r, e.m, j); }
      hide HandlePrePrepareMsg, HandlePrepareMsg, HandleCommitMsg;
    }
  }

  lemma {:induction false} LogLength(signer: Signer, i: nat, n: nat, states: seq<Replica>, events: seq<Event>, k: nat)
    requires Life(signer, i, n, states, events) && k <= |events|
    ensures |states[k].msgLog| == CHECKPOINTNUM
  {
    if k > 0 {
      LogLength(signer, i, n, states, events, k - 1);
      assert states[k - 1 + 1] == Handle(signer, states[k - 1], events[k - 1]);
      hide Block.Hash, AdvanceTo, Filter;
    }
  }

  // The votes of slot j are among those received in the first k events.
  ghost predicate WereReceived(r: Replica, events: seq<Event>, k: nat, j: nat)
    requires k <= |events| && j < |r.msgLog|
  {
    && multiset(r.msgLog[j].prepareMsgs) <= multiset(Received(events[..k], PREPARE))
    && multiset(r.msgLog[j].commitMsgs) <= multiset(Received(events[..k], COMMIT))
  }

  lemma OneMoreReceived(signer: Signer, r: Replica, events: seq<Event>, k: nat, j: nat)
    requires r.Valid() && k < |events| && j < |r.msgLog| && j < |Handle(signer, r, events[k]).msgLog| && WereReceived(r, events, k, j)
    ensures WereReceived(Handle(signer, r, events[k]), events, k + 1, j)
  {
    EventAdds(signer, r, events[k], j);
    ReceivedNext(events, k, PREPARE);
    ReceivedNext(events, k, COMMIT);
    hide Handle, Received, Brings;
    var r1, e := Handle(signer, r, events[k]), events[k];
    StillWithin(r.msgLog[j].prepareMsgs, r1.msgLog[j].prepareMsgs, Received(events[..k], PREPARE), Received(events[..k + 1], PREPARE), Brings(e, PREPARE));
    StillWithin(r.msgLog[j].commitMsgs, r1.msgLog[j].commitMsgs, Received(events[..k], COMMIT), Received(events[..k + 1], COMMIT), Brings(e, COMMIT));
  }

  // Every vote in the log was received, and is logged at most as often as it was.
  lemma {:induction false} LoggedWereReceived(signer: Signer, i: nat, n: nat, states: seq<Replica>, events: seq<Event>, k: nat, j: nat)
    requires Life(signer, i, n, states, events) && k <= |events| && j < CHECKPOINTNUM
    ensures |states[k].msgLog| == CHECKPOINTNUM && WereReceived(states[k], events, k, j)
  {
    LogLength(signer, i, n, states, events, k);
    if k > 0 {
      LoggedWereReceived(signer, i, n, states, events, k - 1, j);
      assert states[k - 1 + 1] == Handle(signer, states[k - 1], events[k - 1]) && states[k - 1].Valid();
      hide Life, Handle, WereReceived;
      OneMoreReceived(signer, states[k - 1], events, k - 1, j);
    }
  }

  lemma StillWithin(logged: seq<PMsg>, logged': seq<PMsg>, received: seq<PMsg>, received': seq<PMsg>, more: multiset<PMsg>)
    requires multiset(logged) <= multiset(received) && multiset(logged') <= multiset(logged) + more
    requires multiset(received') == multiset(received) + more
    ensures multiset(logged') <= multiset(received')
  {
  }

  lemma ReplyIsLogged(signer: Signer, r: Replica, e: Event)
    requires r.Valid()
    ensures Handle(signer, r, e).replyMsgs == r.replyMsgs
      || (e.Message? && IsReply(HandlePMsg(signer, r, e.m).1) && Handle(signer, r, e).replyMsgs == r.replyMsgs + [HandlePMsg(signer, r, e.m).1.value])
  {
    hide Block.Hash, AdvanceTo, Filter;
  }

  // Whenever a replica replies, a commit or a pre-prepare made it, and by then it was sent more
  // than (n-1)/3*2 commits, and as many prepares, or one if its pre-prepare came after them.
  lemma ReplyNeedsQuorum(signer: Signer, i: nat, n: nat, states: seq<Replica>, events: seq<Event>, k: nat)
    requires n > 0 && Life(signer, i, n, states, events) && k < |events| && states[k + 1].replyMsgs != states[k].replyMsgs
    ensures states[k].Valid() && states[k].view.nodesNum == n && events[k].Message?
    ensures var (r, m, bound) := (states[k], events[k].m, (n - 1) / 3 * 2);
      var slot := r.msgLog[r.view.viewNumber % CHECKPOINTNUM];
      || (&& m.mType == COMMIT && Accepts(signer, r, m) && |slot.prepareMsgs| > bound && |slot.commitMsgs| + 1 > bound
          && |Received(events[..k], PREPARE)| > bound && |Received(events[..k + 1], COMMIT)| > bound)
      || (&& m.mType == PREPREPARE && Adopts(signer, r, m) && |MatchingVotes(slot.commitMsgs, m)| > bound
          && |Received(events[..k], PREPARE)| > 0 && |Received(events[..k], COMMIT)| > bound)
  {
    var r, m := states[k], events[k].m;
    NodesNumStays(signer, i, n, states, events, k);
    ReplyIsLogged(signer, r, events[k]);
    LoggedWereReceived(signer, i, n, states, events, k, r.view.viewNumber % CHECKPOINTNUM);
    var slot := r.msgLog[r.view.viewNumber % CHECKPOINTNUM];
    Fewer(slot.prepareMsgs, Received(events[..k], PREPARE));
    Fewer(slot.commitMsgs, Received(events[..k], COMMIT));
    ReceivedNext(events, k, COMMIT);
    Same(Received(events[..k + 1], COMMIT), Received(events[..k], COMMIT), Brings(events[k], COMMIT));
    if m.mType == COMMIT { CommitRepliesIff(signer, r, m); }
    if m.mType == PREPARE { PrepareCommitsIff(signer, r, m); }
    if m.mType == PREPREPARE {
      PrePrepareRepliesIff(signer, r, m);
      SomeMatch(slot.commitMsgs, m);
    }
    OtherTypes(signer, r, m);
    hide HandlePMsg, Life, Accepts, Adopts, MatchingVotes, Received;
  }

  lemma OtherTypes(signer: Signer, r: Replica, m: PMsg)
    requires r.Valid()
    ensures HandlePMsg(signer, r, m).1.Some? ==> m.mType == PREPREPARE || m.mType == PREPARE || m.mType == COMMIT
  {
    hide HandlePrePrepareMsg, HandlePrepareMsg, HandleCommitMsg;
  }

  lemma Fewer(a: seq<PMsg>, b: seq<PMsg>)
    requires multiset(a) <= multiset(b)
    ensures |a| <= |b|
  {
    var rest := multiset(b) - multiset(a);
    assert multiset(b) == multiset(a) + rest && |multiset(a)| == |a| && |multiset(b)| == |b|;
  }

  lemma Same(a: seq<PMsg>, b: seq<PMsg>, c: multiset<PMsg>)
    requires multiset(a) == multiset(b) + c
    ensures |a| == |b| + |c|
  {
    assert |multiset(a)| == |a| && |multiset(b)| == |b|;
  }

  lemma SomeMatch(votes: seq<PMsg>, pp: PMsg)
    ensures |MatchingVotes(votes, pp)| <= |votes|
  {
    SetIsBounded(MatchingVotes(votes, pp), |votes|);
  }

  lemma NodesNumStays(signer: Signer, i: nat, n: nat, states: seq<Replica>, events: seq<Event>, k: nat)
    requires n > 0 && Life(signer, i, n, states, events) && k <= |events|
    ensures states[k].view.nodesNum == n
  {
    if k > 0 {
      NodesNumStays(signer, i, n, states, events, k - 1);
      assert states[k - 1 + 1] == Handle(signer, states[k - 1], events[k - 1]);
      HandlingKeepsNodes(signer, states[k - 1], events[k - 1]);
    }
  }

  lemma HandlingKeepsNodes(signer: Signer, r: Replica, e: Event)
    requires r.Valid()
    ensures Handle(signer, r, e).view.nodesNum == r.view.nodesNum && Handle(signer, r, e).consId == r.consId
  {
    if e.Message? {
      AdvanceKeepsValid(r.view, e.m.viewNumber);
    }
    hide Block.Hash, AdvanceTo, Filter;
  }

  /* Votes are accepted */

  // Signatures verify under the name of their signer.
  ghost predicate Honest(signer: Signer) {
    forall who, content :: signer.verifySign(who, signer.sign(who, content), content)
  }

  // r is in the view of pp, holds it, and its number is not too far ahead.
  predicate HoldsPrePrepare(r: Replica, pp: PMsg)
    requires r.Valid()
  {
    var own := r.msgLog[r.view.viewNumber % CHECKPOINTNUM].preprepareMsg;
    && r.view.viewNumber == pp.viewNumber && pp.seqNum <= r.checkSeq + 10
    && own.Some? && own.value.viewNumber == pp.viewNumber && own.value.seqNum == pp.seqNum && own.value.digest == pp.digest
  }

  // The prepare that a replica sends on a pre-prepare is accepted by all that hold it.
  lemma PrepareIsAccepted(signer: Signer, r: Replica, pp: PMsg, q: Replica)
    requires Honest(signer) && r.Valid() && q.Valid() && pp.mType == PREPREPARE && HoldsPrePrepare(q, pp)
    requires HandlePMsg(signer, r, pp).1.Some? && HandlePMsg(signer, r, pp).1.value.mType == PREPARE
    ensures var m := HandlePMsg(signer, r, pp).1.value; m.sendNode == r.consId && Accepts(signer, q, m)
  {
    PrepareIsVote(signer, r, pp);
    hide HandlePMsg;
  }

  lemma PrepareIsVote(signer: Signer, r: Replica, pp: PMsg)
    requires r.Valid() && pp.mType == PREPREPARE && HandlePMsg(signer, r, pp).1.Some? && HandlePMsg(signer, r, pp).1.value.mType == PREPARE
    ensures HandlePMsg(signer, r, pp).1.value == Vote(signer, r, PREPARE, pp.seqNum, pp.digest) && r.view.viewNumber == pp.viewNumber
  {
    hide Block.Hash, AdvanceTo, Filter;
  }

  // And so is the commit that it sends on a completing prepare.
  lemma CommitIsAccepted(signer: Signer, r: Replica, m: PMsg, pp: PMsg, q: Replica)
    requires Honest(signer) && r.Valid() && q.Valid() && m.mType == PREPARE && HandlePMsg(signer, r, m).1.Some?
    requires HoldsPrePrepare(r, pp) && r.sequenceNum == pp.seqNum && m.viewNumber == r.view.viewNumber && HoldsPrePrepare(q, pp)
    ensures var v := HandlePMsg(signer, r, m).1.value; v.mType == COMMIT && v.sendNode == r.consId && Accepts(signer, q, v)
  {
    CommitIsVote(signer, r, m);
    PrepareCommitsIff(signer, r, m);
    hide HandlePMsg;
  }

  lemma CommitIsVote(signer: Signer, r: Replica, m: PMsg)
    requires r.Valid() && m.mType == PREPARE && m.viewNumber == r.view.viewNumber && HandlePMsg(signer, r, m).1.Some?
    ensures HandlePMsg(signer, r, m).1.value == Vote(signer, r, COMMIT, r.sequenceNum, m.digest)
  {
    hide Block.Hash, Filter;
  }

  /* One view replies */

  lemma HandlingKeepsValid(signer: Signer, r: Replica, m: PMsg)
    requires r.Valid()
    ensures HandlePMsg(signer, r, m).0.Valid()
  {
    AdvanceKeepsValid(r.view, m.viewNumber);
    hide Block.Hash, AdvanceTo, Filter;
  }

  // A replica gets messages one after another; all that it sends.
  function Feed(signer: Signer, r: Replica, ms: seq<PMsg>): (Replica, seq<PMsg>)
    requires r.Valid()
    ensures Feed(signer, r, ms).0.Valid()
  {
    if ms == [] then (r, [])
    else
      var (r1, sent) := Feed(signer, r, ms[..|ms| - 1]);
      HandlingKeepsValid(signer, r1, ms[|ms| - 1]);
      var (r2, out) := HandlePMsg(signer, r1, ms[|ms| - 1]);
      (r2, if out.Some? then sent + [out.value] else sent)
  }

  lemma FeedLast(signer: Signer, r: Replica, before: seq<PMsg>, m: PMsg)
    requires r.Valid()
    ensures Feed(signer, r, before).0.Valid()
    ensures var (r1, sent) := Feed(signer, r, before);
      var (r2, out) := HandlePMsg(signer, r1, m);
      Feed(signer, r, before + [m]) == (r2, if out.Some? then sent + [out.value] else sent)
  {
    assert (before + [m])[..|before|] == before;
    hide HandlePMsg;
  }

  function Bound(r: Replica): (b: int)
    ensures r.view.nodesNum > 0 ==> b >= 0
  {
    (r.view.nodesNum - 1) / 3 * 2
  }

  // r adopted pp and has the votes given.
  function Adopted(signer: Signer, r: Replica, pp: PMsg, prepares: seq<PMsg>, commits: seq<PMsg>): Replica
    requires r.Valid()
  {
    r.WithSlot(MsgsLog(Some(pp), prepares, commits)).(
      curPhase := if |prepares| > Bound(r) then PREPARE else PREPREPARE, curProposal := pp.proposal, sequenceNum := pp.seqNum,
      blkStore := r.blkStore.(curProposalBlk := pp.block, curBlkHash := pp.block.Hash(signer.sum)))
  }

  // A backup about to get the pre-prepare of its view, which nobody voted for yet.
  predicate Awaits(signer: Signer, r: Replica, pp: PMsg) {
    && r.Valid() && !r.IsLeader() && r.msgLog[r.view.viewNumber % CHECKPOINTNUM] == NO_LOG && pp.mType == PREPREPARE
    && pp.viewNumber == r.view.viewNumber && r.sequenceNum <= pp.seqNum <= r.checkSeq + 10 && pp.SignedOn(signer, pp.Header())
  }

  lemma AdoptsAndPrepares(signer: Signer, r: Replica, pp: PMsg)
    requires Awaits(signer, r, pp)
    ensures HandlePMsg(signer, r, pp) == (Adopted(signer, r, pp, [], []), Some(Vote(signer, r, PREPARE, pp.seqNum, pp.digest)))
    ensures Adopted(signer, r, pp, [], []).Valid() && HoldsPrePrepare(Adopted(signer, r, pp, [], []), pp)
  {
    hide Block.Hash;
  }

  // What one accepted prepare of its view does to a replica.
  lemma PrepareStep(signer: Signer, r: Replica, m: PMsg)
    requires r.Valid() && m.mType == PREPARE && r.curPhase != VIEW_CHANGE && Accepts(signer, r, m) && m.viewNumber == r.view.viewNumber
    ensures LogMsg(r, m).Valid()
    ensures var enough := |r.Slot().prepareMsgs| + 1 > (r.view.nodesNum - 1) / 3 * 2;
      HandlePMsg(signer, r, m) == (
        LogMsg(r, m).(curPhase := if enough then PREPARE else r.curPhase),
        if enough && r.curPhase != PREPARE then Some(Vote(signer, r, COMMIT, r.sequenceNum, m.digest)) else None)
  {
    assert CheckMsg(signer, r, m) == (r, true);
    hide CheckMsg, Accepts;
  }

  // And one accepted commit.
  lemma CommitStep(signer: Signer, r: Replica, m: PMsg)
    requires r.Valid() && m.mType == COMMIT && r.curPhase != VIEW_CHANGE && Accepts(signer, r, m) && m.viewNumber == r.view.viewNumber
    requires |r.Slot().prepareMsgs| > (r.view.nodesNum - 1) / 3 * 2
    ensures var r1 := LogMsg(r, m);
      && r1.Valid()
      && (|r.Slot().commitMsgs| + 1 <= (r.view.nodesNum - 1) / 3 * 2 ==> HandlePMsg(signer, r, m) == (r1, None))
      && (|r.Slot().commitMsgs| + 1 > (r.view.nodesNum - 1) / 3 * 2 ==>
            var (r2, out) := HandlePMsg(signer, r, m);
            var (r3, reply) := Reply(signer, r1, m.digest);
            out == Some(reply) && r2 == (if r3.IsLeader() && r3.curPhase != CHECKPOINT then r3.(curPhase := WAITING) else r3))
  {
    assert CheckMsg(signer, r, m) == (r, true);
    hide CheckMsg, Accepts, Block.Hash;
  }

  lemma WithSlotTwice(r: Replica, slot: MsgsLog, slot': MsgsLog)
    requires r.Valid()
    ensures r.WithSlot(slot).Valid() && r.WithSlot(slot).Slot() == slot && r.WithSlot(slot).WithSlot(slot') == r.WithSlot(slot')
  {
  }

  lemma AdoptedLogs(signer: Signer, r: Replica, pp: PMsg, prepares: seq<PMsg>, commits: seq<PMsg>, m: PMsg)
    requires Awaits(signer, r, pp)
    ensures var r1 := Adopted(signer, r, pp, prepares, commits);
      && r1.Valid() && r1.Slot() == MsgsLog(Some(pp), prepares, commits) && r1.curPhase != VIEW_CHANGE
      && r1.view == r.view && r1.consId == r.consId && r1.sequenceNum == pp.seqNum
      && (m.mType == PREPARE ==> LogMsg(r1, m).(curPhase := Adopted(signer, r, pp, prepares + [m], commits).curPhase) == Adopted(signer, r, pp, prepares + [m], commits))
      && (m.mType == COMMIT ==> LogMsg(r1, m) == Adopted(signer, r, pp, prepares, commits + [m]))
  {
    WithSlotTwice(r, MsgsLog(Some(pp), prepares, commits), MsgsLog(Some(pp), prepares, commits).Add(m));
    hide Block.Hash;
  }

  lemma AcceptsAdopted(signer: Signer, r: Replica, pp: PMsg, prepares: seq<PMsg>, commits: seq<PMsg>, m: PMsg)
    requires Awaits(signer, r, pp) && Adopted(signer, r, pp, [], []).Valid() && Adopted(signer, r, pp, prepares, commits).Valid()
    requires Accepts(signer, Adopted(signer, r, pp, [], []), m) && (m.mType == PREPARE || m.mType == COMMIT)
    requires m.viewNumber == pp.viewNumber
    ensures Accepts(signer, Adopted(signer, r, pp, prepares, commits), m) && m.digest == pp.digest
  {
    hide Block.Hash;
  }

  lemma PrepareIsLogged(signer: Signer, r: Replica, pp: PMsg, prepares: seq<PMsg>, m: PMsg)
    requires Awaits(signer, r, pp) && m.mType == PREPARE && m.viewNumber == pp.viewNumber
    requires Adopted(signer, r, pp, [], []).Valid() && Accepts(signer, Adopted(signer, r, pp, [], []), m)
    ensures var r1 := Adopted(signer, r, pp, prepares, []);
      && r1.Valid()
      && HandlePMsg(signer, r1, m) == (Adopted(signer, r, pp, prepares + [m], []),
           if |prepares| == Bound(r) then Some(Vote(signer, r, COMMIT, pp.seqNum, pp.digest)) else None)
  {
    var r1 := Adopted(signer, r, pp, prepares, []);
    AdoptedLogs(signer, r, pp, prepares, [], m);
    AcceptsAdopted(signer, r, pp, prepares, [], m);
    PrepareStep(signer, r1, m);
    hide HandlePMsg, LogMsg, Accepts;
  }

  // The commit that the quorum of prepares makes it send, if ms is one.
  function CommitOn(signer: Signer, r: Replica, pp: PMsg, ms: seq<PMsg>): seq<PMsg> {
    if |ms| > Bound(r) then [Vote(signer, r, COMMIT, pp.seqNum, pp.digest)] else []
  }

  lemma CommitOnNext(signer: Signer, r: Replica, pp: PMsg, before: seq<PMsg>, m: PMsg)
    ensures CommitOn(signer, r, pp, before + [m])
      == (if |before| == Bound(r) then CommitOn(signer, r, pp, before) + [Vote(signer, r, COMMIT, pp.seqNum, pp.digest)] else CommitOn(signer, r, pp, before))
  {
    hide Bound, Vote;
  }

  lemma {:induction false} PreparesMakeCommit(signer: Signer, r: Replica, pp: PMsg, ms: seq<PMsg>)
    requires Awaits(signer, r, pp) && Adopted(signer, r, pp, [], []).Valid()
    requires forall m <- ms :: m.mType == PREPARE && m.viewNumber == pp.viewNumber && Accepts(signer, Adopted(signer, r, pp, [], []), m)
    ensures Feed(signer, Adopted(signer, r, pp, [], []), ms) == (Adopted(signer, r, pp, ms, []), CommitOn(signer, r, pp, ms))
  {
    var start := Adopted(signer, r, pp, [], []);
    if ms == [] {
      hide HandlePMsg, Adopted, Vote;
    } else {
      var before, m := ms[..|ms| - 1], ms[|ms| - 1];
      assert before + [m] == ms && m in ms && forall x <- before :: x in ms;
      PreparesMakeCommit(signer, r, pp, before);
      FeedLast(signer, start, before, m);
      PrepareIsLogged(signer, r, pp, before, m);
      CommitOnNext(signer, r, pp, before, m);
      hide Feed, HandlePMsg, Adopted, Vote, Awaits, Accepts, Bound, CommitOn;
    }
  }

  lemma CommitIsLogged(signer: Signer, r: Replica, pp: PMsg, prepares: seq<PMsg>, commits: seq<PMsg>, m: PMsg)
    requires Awaits(signer, r, pp) && m.mType == COMMIT && m.viewNumber == pp.viewNumber
    requires Adopted(signer, r, pp, [], []).Valid() && Accepts(signer, Adopted(signer, r, pp, [], []), m)
    requires |prepares| > Bound(r) > |commits|
    ensures var r1 := Adopted(signer, r, pp, prepares, commits);
      r1.Valid() && HandlePMsg(signer, r1, m) == (Adopted(signer, r, pp, prepares, commits + [m]), None)
  {
    AdoptedLogs(signer, r, pp, prepares, commits, m);
    AcceptsAdopted(signer, r, pp, prepares, commits, m);
    CommitStep(signer, Adopted(signer, r, pp, prepares, commits), m);
    hide HandlePMsg, LogMsg, Accepts, Reply;
  }

  lemma {:induction false} CommitsAreLogged(signer: Signer, r: Replica, pp: PMsg, prepares: seq<PMsg>, ms: seq<PMsg>)
    requires Awaits(signer, r, pp) && Adopted(signer, r, pp, [], []).Valid()
    requires forall m <- ms :: m.mType == COMMIT && m.viewNumber == pp.viewNumber && Accepts(signer, Adopted(signer, r, pp, [], []), m)
    requires |prepares| > Bound(r) >= |ms|
    ensures Adopted(signer, r, pp, prepares, []).Valid()
    ensures Feed(signer, Adopted(signer, r, pp, prepares, []), ms) == (Adopted(signer, r, pp, prepares, ms), [])
  {
    if ms != [] {
      var before, m := ms[..|ms| - 1], ms[|ms| - 1];
      assert before + [m] == ms && m in ms && forall x <- before :: x in ms;
      CommitsAreLogged(signer, r, pp, prepares, before);
      AdoptedLogs(signer, r, pp, prepares, [], m);
      FeedLast(signer, Adopted(signer, r, pp, prepares, []), before, m);
      hide Feed, HandlePMsg, Adopted, Awaits, Accepts, Bound;
      CommitIsLogged(signer, r, pp, prepares, before, m);
    }
  }

  // r replied to pp, stored its block with the commits as validation, and is in the next view:
  // at a checkpoint, waiting for a request if it leads, or ready for a pre-prepare.
  ghost predicate Replied(signer: Signer, r: Replica, pp: PMsg, commits: seq<PMsg>, r1: Replica, out: PMsg) {
    && out.mType == REPLY && out.viewNumber == pp.viewNumber && out.seqNum == pp.seqNum && out.digest == pp.digest
    && r1.replyMsgs == r.replyMsgs + [out] && r1.view.viewNumber == pp.viewNumber + 1 && r1.sequenceNum == pp.seqNum + 1
    && r1.curProposal == NO_PROPOSAL
    && r1.curPhase == (if (pp.seqNum + 1) % 10 == 0 then CHECKPOINT else if r1.IsLeader() then WAITING else NEW_VIEW)
    && r1.blkStore.written == r.blkStore.written + [pp.block.WithValidation(signer.validation(commits))]
    && r1.blkStore.preBlkHash == pp.block.Hash(signer.sum)
  }

  lemma AdoptedReplies(signer: Signer, r: Replica, pp: PMsg, prepares: seq<PMsg>, commits: seq<PMsg>)
    requires Awaits(signer, r, pp)
    ensures var r1 := Adopted(signer, r, pp, prepares, commits);
      && r1.Valid()
      && var (r3, reply) := Reply(signer, r1, pp.digest);
      Replied(signer, r, pp, commits, if r3.IsLeader() && r3.curPhase != CHECKPOINT then r3.(curPhase := WAITING) else r3, reply)
  {
    WithSlotTwice(r, MsgsLog(Some(pp), prepares, commits), NO_LOG);
    hide Block.Hash;
  }

  lemma LastCommitReplies(signer: Signer, r: Replica, pp: PMsg, prepares: seq<PMsg>, commits: seq<PMsg>, m: PMsg)
    requires Awaits(signer, r, pp) && m.mType == COMMIT && m.viewNumber == pp.viewNumber
    requires Adopted(signer, r, pp, [], []).Valid() && Accepts(signer, Adopted(signer, r, pp, [], []), m)
    requires |prepares| > Bound(r) == |commits|
    ensures var r1 := Adopted(signer, r, pp, prepares, commits);
      r1.Valid() && var (r2, out) := HandlePMsg(signer, r1, m); out.Some? && Replied(signer, r, pp, commits + [m], r2, out.value)
  {
    AdoptedLogs(signer, r, pp, prepares, commits, m);
    AcceptsAdopted(signer, r, pp, prepares, commits, m);
    CommitStep(signer, Adopted(signer, r, pp, prepares, commits), m);
    AdoptedReplies(signer, r, pp, prepares, commits + [m]);
    hide HandlePMsg, LogMsg, Accepts, Block.Hash, Adopted, Reply, Replied;
  }

  lemma CommitsMakeReply(signer: Signer, r: Replica, pp: PMsg, prepares: seq<PMsg>, ms: seq<PMsg>)
    requires Awaits(signer, r, pp) && Adopted(signer, r, pp, [], []).Valid()
    requires forall m <- ms :: m.mType == COMMIT && m.viewNumber == pp.viewNumber && Accepts(signer, Adopted(signer, r, pp, [], []), m)
    requires |prepares| > Bound(r) == |ms| - 1
    ensures Adopted(signer, r, pp, prepares, []).Valid()
    ensures var (r1, sent) := Feed(signer, Adopted(signer, r, pp, prepares, []), ms);
      |sent| == 1 && Replied(signer, r, pp, ms, r1, sent[0])
  {
    hide Feed, HandlePMsg, Adopted, Replied, Accepts, Bound, LogMsg, Replica.Slot;
    var n := |ms| - 1;
    var before, m, start := ms[..n], ms[n], Adopted(signer, r, pp, prepares, []);
    assert ms == before + [m] && m in ms;
    AdoptedLogs(signer, r, pp, prepares, [], m);
    assert Feed(signer, start, before) == (Adopted(signer, r, pp, prepares, before), []) by {
      assert forall x <- before :: x in ms;
      CommitsAreLogged(signer, r, pp, prepares, before);
    }
    LastCommitReplies(signer, r, pp, prepares, before, m);
    FeedLast(signer, start, before, m);
  }

  // Backups that are given one pre-prepare: their states, and the prepares that they send.
  ghost predicate AllAwait(signer: Signer, n: nat, rs: seq<Replica>, pp: PMsg) {
    forall i :: 0 <= i < |rs| ==> rs[i].Valid() && rs[i].view.nodesNum == n && Awaits(signer, rs[i], pp)
  }

  ghost predicate FromPrepares(signer: Signer, n: nat, rs: seq<Replica>, pp: PMsg, ms: seq<PMsg>)
    requires AllAwait(signer, n, rs, pp)
  {
    forall m <- ms :: exists i :: 0 <= i < |rs| && HandlePMsg(signer, rs[i], pp).1 == Some(m)
  }

  // Replica i after the pre-prepare and the prepares ms.
  ghost function Prepared(signer: Signer, n: nat, rs: seq<Replica>, pp: PMsg, i: nat, ms: seq<PMsg>): (Replica, seq<PMsg>)
    requires AllAwait(signer, n, rs, pp) && i < |rs|
  {
    HandlingKeepsValid(signer, rs[i], pp);
    Feed(signer, HandlePMsg(signer, rs[i], pp).0, ms)
  }

  // Whatever prepares of the others each of them gets, if they are more than (n-1)/3*2 it sends
  // one commit.
  lemma BackupsCommit(signer: Signer, n: nat, rs: seq<Replica>, pp: PMsg, i: nat, ms: seq<PMsg>)
    requires Honest(signer) && AllAwait(signer, n, rs, pp) && i < |rs|
    requires |ms| > (n - 1) / 3 * 2 && FromPrepares(signer, n, rs, pp, ms)
    ensures Prepared(signer, n, rs, pp, i, ms) == (Adopted(signer, rs[i], pp, ms, []), [Vote(signer, rs[i], COMMIT, pp.seqNum, pp.digest)])
  {
    var r := rs[i];
    AdoptsAndPrepares(signer, r, pp);
    var r1 := Adopted(signer, r, pp, [], []);
    forall m | m in ms ensures m.mType == PREPARE && m.viewNumber == pp.viewNumber && Accepts(signer, r1, m) {
      var j :| 0 <= j < |rs| && HandlePMsg(signer, rs[j], pp).1 == Some(m);
      AdoptsAndPrepares(signer, rs[j], pp);
      PrepareIsAccepted(signer, rs[j], pp, r1);
    }
    hide HandlePMsg, Adopted, Feed, Accepts, HoldsPrePrepare, Honest, Vote;
    PreparesMakeCommit(signer, r, pp, ms);
  }

  // 2f+1 backups that are given one pre-prepare make each other reply to it: whatever prepares of
  // theirs each gets, more than (n-1)/3*2 and in whatever order, it sends one commit, and whatever
  // commits of theirs it gets then, it replies on the one that completes more than (n-1)/3*2.
  lemma BackupsReply(signer: Signer, n: nat, rs: seq<Replica>, pp: PMsg, ps: seq<seq<PMsg>>, i: nat, ms: seq<PMsg>)
    requires Honest(signer) && AllAwait(signer, n, rs, pp) && i < |rs| == |ps|
    requires forall j :: 0 <= j < |rs| ==> |ps[j]| > (n - 1) / 3 * 2 && FromPrepares(signer, n, rs, pp, ps[j])
    requires |ms| == (n - 1) / 3 * 2 + 1
    requires forall m <- ms :: exists j :: 0 <= j < |rs| && Prepared(signer, n, rs, pp, j, ps[j]).1 == [m]
    ensures forall j :: 0 <= j < |rs| ==> |Prepared(signer, n, rs, pp, j, ps[j]).1| == 1
    ensures var (r1, sent) := Feed(signer, Prepared(signer, n, rs, pp, i, ps[i]).0, ms);
      |sent| == 1 && Replied(signer, rs[i], pp, ms, r1, sent[0])
  {
    forall j | 0 <= j < |rs|
      ensures Prepared(signer, n, rs, pp, j, ps[j]) == (Adopted(signer, rs[j], pp, ps[j], []), [Vote(signer, rs[j], COMMIT, pp.seqNum, pp.digest)])
    {
      BackupsCommit(signer, n, rs, pp, j, ps[j]);
    }
    var r := rs[i];
    AdoptsAndPrepares(signer, r, pp);
    hide HandlePMsg, Adopted, Feed, Prepared, Replied, FromPrepares;
    forall m | m in ms ensures m.mType == COMMIT && m.viewNumber == pp.viewNumber && Accepts(signer, Adopted(signer, r, pp, [], []), m) {
      var j :| 0 <= j < |rs| && Prepared(signer, n, rs, pp, j, ps[j]).1 == [m];
      VoteIsAccepted(signer, rs[j], COMMIT, pp, Adopted(signer, r, pp, [], []));
    }
    CommitsMakeReply(signer, r, pp, ps[i], ms);
  }

  lemma VoteIsAccepted(signer: Signer, r: Replica, t: StateType, pp: PMsg, q: Replica)
    requires Honest(signer) && q.Valid() && HoldsPrePrepare(q, pp) && r.view.viewNumber == pp.viewNumber
    ensures var m := Vote(signer, r, t, pp.seqNum, pp.digest); m.mType == t && m.viewNumber == pp.viewNumber && Accepts(signer, q, m)
  {
  }

  /* From a request to its replies */

  // What a backup, and what a leader, makes of a pre-prepare that it adopts: a backup takes over
  // block and number, a leader only logs it.
  lemma AdoptionTakesOver(signer: Signer, r: Replica, m: PMsg)
    requires r.Valid() && m.mType == PREPREPARE && Adopts(signer, r, m) && !IsReply(HandlePMsg(signer, r, m).1)
    ensures var r1 := HandlePMsg(signer, r, m).0;
      && r1.Valid() && r1.view == r.view && r1.Slot().preprepareMsg == Some(m) && r1.replyMsgs == r.replyMsgs
      && (r.IsLeader() ==> r1 == r.(msgLog := r1.msgLog))
      && (!r.IsLeader() ==>
            && r1.curPhase == PREPREPARE && r1.sequenceNum == m.seqNum && r1.curProposal == m.proposal
            && r1.blkStore == r.blkStore.(curProposalBlk := m.block, curBlkHash := m.block.Hash(signer.sum)))
  {
    hide Block.Hash, AdvanceTo, Filter;
  }

  // What a leader proposes on a request: a block made of its commands, on top of the last one, and
  // a signed pre-prepare that every backup takes in that awaits one of this view and number.
  lemma RequestIsFollowed(signer: Signer, r: Replica, height: int, cmds: seq<Bytes>, timeStamp: int, q: Replica)
    requires Honest(signer) && r.Valid() && q.Valid() && !q.IsLeader() && q.view.viewNumber == r.view.viewNumber
    requires q.msgLog[q.view.viewNumber % CHECKPOINTNUM] == NO_LOG && q.sequenceNum <= r.sequenceNum <= q.checkSeq + 10
    ensures var (r1, pp) := HandleReq(signer, r, height, cmds, timeStamp);
      && Awaits(signer, q, pp) && pp.seqNum == r.sequenceNum && pp.sendNode == r.consId
      && pp.proposal == Proposal(height, Some(cmds)) && pp.digest == pp.block.Hash(signer.sum)
      && IsMade(signer.sum, pp.block) && pp.block.blkData.trans == cmds && pp.block.blkHdr.viewNumber == r.view.viewNumber
      && pp.block.blkHdr.height == r.blkStore.height && pp.block.blkHdr.preBlkHash == r.blkStore.preBlkHash
      && r1.Valid() && r1.Slot().preprepareMsg == Some(pp) && r1.curPhase == PREPREPARE && r1.blkStore.curProposalBlk == pp.block && r1.sequenceNum == pp.seqNum
  {
    hide Block.HashedBytes;
  }

  // A stable checkpoint at s empties the log and opens the ten numbers after s: a backup then awaits
  // any signed pre-prepare of its view with one of them, and a leader waits for a request.
  lemma CheckpointOpens(signer: Signer, r: Replica, s: int, pp: PMsg)
    requires r.Valid() && pp.mType == PREPREPARE && pp.viewNumber == r.view.viewNumber && pp.SignedOn(signer, pp.Header())
    requires r.sequenceNum <= pp.seqNum
    ensures var r1 := Checkpointed(r, s);
      && r1.Valid() && (Awaits(signer, r1, pp) <==> !r.IsLeader() && pp.seqNum <= s + 10)
      && r1.curPhase == (if r.IsLeader() then WAITING else NEW_VIEW)
  {
  }

  /* Votes that come early */

  function OfType(ms: seq<PMsg>, t: StateType): seq<PMsg> {
    if ms == [] then []
    else if ms[|ms| - 1].mType == t then OfType(ms[..|ms| - 1], t) + [ms[|ms| - 1]]
    else OfType(ms[..|ms| - 1], t)
  }

  // Votes for pp, signed by their senders.
  predicate VotesFor(signer: Signer, pp: PMsg, ms: seq<PMsg>) {
    forall m <- ms ::
      && (m.mType == PREPARE || m.mType == COMMIT) && m.viewNumber == pp.viewNumber && m.seqNum == pp.seqNum && m.digest == pp.digest
      && signer.verifySign(m.sendNode, m.signature, [m.mType, ToByte(m.viewNumber), ToByte(m.seqNum)] + m.digest + signer.name(m.sendNode))
  }

  lemma {:induction false} EarlyVotesAreLogged(signer: Signer, r: Replica, pp: PMsg, ms: seq<PMsg>)
    requires Awaits(signer, r, pp) && r.curPhase != VIEW_CHANGE && VotesFor(signer, pp, ms)
    ensures Feed(signer, r, ms) == (r.WithSlot(MsgsLog(None, OfType(ms, PREPARE), OfType(ms, COMMIT))), [])
  {
    if ms == [] {
      assert r.msgLog == r.msgLog[r.view.viewNumber % CHECKPOINTNUM := NO_LOG];
    } else {
      var before, m := ms[..|ms| - 1], ms[|ms| - 1];
      assert before + [m] == ms && m in ms && forall x <- before :: x in ms;
      EarlyVotesAreLogged(signer, r, pp, before);
      var slot := MsgsLog(None, OfType(before, PREPARE), OfType(before, COMMIT));
      WithSlotTwice(r, slot, slot.Add(m));
      var r1 := r.WithSlot(slot);
      assert Logs(signer, r1, m) && r1.msgLog[m.viewNumber % CHECKPOINTNUM].preprepareMsg.None?;
      VoteIsLoggedIff(signer, r1, m);
      EarlyVote(signer, r1, m);
      FeedLast(signer, r, before, m);
      hide HandlePMsg, Feed, Logs, Awaits, VotesFor;
    }
  }

  // If votes for it came before, the pre-prepare is replied to at once exactly when there is a
  // prepare among them and more than (n-1)/3*2 commits.
  lemma EarlyVotesReplyIff(signer: Signer, r: Replica, pp: PMsg, ms: seq<PMsg>)
    requires Awaits(signer, r, pp) && r.curPhase != VIEW_CHANGE && VotesFor(signer, pp, ms)
    ensures IsReply(HandlePMsg(signer, Feed(signer, r, ms).0, pp).1)
      <==> OfType(ms, PREPARE) != [] && |OfType(ms, COMMIT)| > (r.view.nodesNum - 1) / 3 * 2
  {
    EarlyVotesAreLogged(signer, r, pp, ms);
    var slot := MsgsLog(None, OfType(ms, PREPARE), OfType(ms, COMMIT));
    WithSlotTwice(r, slot, slot);
    var r1 := r.WithSlot(slot);
    PrePrepareRepliesIff(signer, r1, pp);
    AllMatch(signer, pp, ms);
    assert Adopts(signer, r1, pp);
    hide HandlePMsg, Feed, Adopts, Awaits, VotesFor;
  }

  lemma {:induction false} AllMatch(signer: Signer, pp: PMsg, ms: seq<PMsg>)
    requires VotesFor(signer, pp, ms)
    ensures forall m <- OfType(ms, COMMIT) :: m.viewNumber == pp.viewNumber && m.seqNum == pp.seqNum && m.digest == pp.digest
    ensures |MatchingVotes(OfType(ms, COMMIT), pp)| == |OfType(ms, COMMIT)|
  {
    if ms != [] {
      assert forall x <- ms[..|ms| - 1] :: x in ms;
      AllMatch(signer, pp, ms[..|ms| - 1]);
      assert ms[|ms| - 1] in ms;
    }
    var votes := OfType(ms, COMMIT);
    EveryVote(votes, pp);
  }

  lemma EveryVote(votes: seq<PMsg>, pp: PMsg)
    requires forall m <- votes :: m.viewNumber == pp.viewNumber && m.seqNum == pp.seqNum && m.digest == pp.digest
    ensures |MatchingVotes(votes, pp)| == |votes|
  {
    assert forall m <- votes :: Matches(m, pp);
    FilterCounts(votes, pp);
    FilterAll(votes, pp);
  }

  lemma {:induction false} FilterAll(votes: seq<PMsg>, pp: PMsg)
    requires forall m <- votes :: Matches(m, pp)
    ensures Filter(votes, pp) == votes
  {
    if votes != [] {
      assert forall x <- votes[..|votes| - 1] :: x in votes;
      FilterAll(votes[..|votes| - 1], pp);
      assert votes[|votes| - 1] in votes;
    }
  }
}
