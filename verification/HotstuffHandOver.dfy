/** From one view to the next: what deciding replicas report makes the next leader propose, and
    they vote for what it proposes. */
module HotstuffHandOver {
  import opened Common
  import opened Blockchain
  import opened HotstuffTypes
  import opened BasicHotstuffSpec
  import opened HotstuffRoundTrip
  import Merkle

  // The replica gets the messages one after another; all that it sends.
  function Gather(c: Crypto, r: Replica, ms: seq<Msg>): (Replica, seq<Msg>)
    requires r.view.nodesNum > 0
    ensures Gather(c, r, ms).0.view.nodesNum == r.view.nodesNum
  {
    if ms == [] then (r, [])
    else
      var (r1, sent) := Gather(c, r, ms[..|ms| - 1]);
      HandlingKeepsNodesNum(c, r1, ms[|ms| - 1]);
      var (r2, out) := HandleBMsg(c, r1, ms[|ms| - 1], 0);
      (r2, if out.Some? then sent + [out.value] else sent)
  }

  // The leader of view w to whom nothing was reported yet; its last round was view v.
  predicate Opens(r: Replica, w: int, v: int) {
    && r.view.nodesNum > 0 && r.IsLeader() && r.view.viewNumber == w && LastRoundView(r) == v
    && r.curPhase == NEW_VIEW && r.newViewMsgs == []
  }

  // It logged exactly the messages ms.
  function Logged(r: Replica, ms: seq<Msg>): Replica {
    r.(newViewMsgs := ms,
       curPhase := if |ms| > VoteBound(r.view.nodesNum) && r.curProposal.commands == [] && !r.viewChangeSendFlag then WAITING else NEW_VIEW)
  }

  lemma ReportIsLogged(c: Crypto, r: Replica, w: int, v: int, node: HsNode, ms: seq<Msg>, m: Msg)
    requires Opens(r, w, v) && ReportsNode(c, w, v, node, m)
    requires r.curProposal.commands == [] || |ms| + 1 <= VoteBound(r.view.nodesNum)
    ensures HandleBMsg(c, Logged(r, ms), m, 0) == (Logged(r, ms + [m]), None)
  {
    assert Logged(r, ms).newViewMsgs == ms && LastRoundView(Logged(r, ms)) == v;
    hide SignedBytes, Propose;
  }

  // All reports are logged, in whatever order they come; with more than (n-1)/3*2 of them the
  // leader waits for a request, unless it has one or has forwarded a timeout.
  lemma {:induction false} ReportsAreLogged(c: Crypto, r: Replica, w: int, v: int, node: HsNode, ms: seq<Msg>)
    requires Opens(r, w, v) && forall m <- ms :: ReportsNode(c, w, v, node, m)
    requires r.curProposal.commands == [] || |ms| <= VoteBound(r.view.nodesNum)
    ensures Gather(c, r, ms) == (Logged(r, ms), [])
  {
    if ms == [] {
      assert Logged(r, []) == r;
    } else {
      var before, m := ms[..|ms| - 1], ms[|ms| - 1];
      assert m in ms && before + [m] == ms && forall x <- before :: x in ms;
      ReportsAreLogged(c, r, w, v, node, before);
      hide HandleBMsg, Logged, ReportsNode;
      ReportIsLogged(c, r, w, v, node, before, m);
    }
  }

  // A proposal of view w that extends node, on its certificate of view v.
  ghost predicate ExtendsNode(c: Crypto, w: int, v: int, node: HsNode, m: Msg) {
    && m.mType == PREPARE && m.viewNumber == w && m.hsNode.parentHash == node.curHash
    && m.hsNode.curHash == m.block.Hash(c.sum) && Names(c, m.justify, PREPARE, v, node)
  }

  // The leader made proposal m and is ready to collect the votes for it.
  ghost predicate Proposed(r: Replica, r1: Replica, m: Msg) {
    && r1.curPhase == PREPARE && r1.hsNode == m.hsNode && r1.view == r.view && r1.consId == r.consId
    && r1.prepareVotes == r.prepareVotes && r1.preCommitVotes == r.preCommitVotes && r1.commitVotes == r.commitVotes
  }

  lemma ProposesOn(c: Crypto, r: Replica, w: int, v: int, node: HsNode, commands: seq<Bytes>, timeStamp: int)
    requires r.newViewMsgs != [] && r.view.viewNumber == w && forall m <- r.newViewMsgs :: ReportsNode(c, w, v, node, m)
    ensures var (r1, out) := Propose(c, r, commands, timeStamp);
      && ExtendsNode(c, w, v, node, out) && Proposed(r, r1, out)
      && out.block.blkData.trans == commands && out.proposal == r.curProposal
  {
    FirstMaxIsMax(JustifyViews(r.newViewMsgs), |r.newViewMsgs|);
    var high := r.newViewMsgs[GetHighQCIndex(r.newViewMsgs)];
    assert high in r.newViewMsgs && ReportsNode(c, w, v, node, high);
    hide SignedBytes, FirstMaxUpTo, Merkle.HashFromByteSlices, Block.HashedBytes;
  }

  // A leader that waits with such reports proposes on a request, and its block holds the commands.
  lemma RequestIsProposed(c: Crypto, r: Replica, w: int, v: int, node: HsNode, ms: seq<Msg>, height: int, preHash: Bytes, cmds: seq<Bytes>, signs: seq<Bytes>, timeStamp: int)
    requires Opens(r, w, v) && r.view.Valid() && |ms| > VoteBound(r.view.nodesNum) && r.curProposal.commands == [] && !r.viewChangeSendFlag
    requires forall m <- ms :: ReportsNode(c, w, v, node, m)
    ensures Logged(r, ms).Valid()
    ensures var (r1, out) := HandleReq(c, Logged(r, ms), height, preHash, cmds, signs, timeStamp);
      && out.Some? && ExtendsNode(c, w, v, node, out.value) && Proposed(r, r1, out.value)
      && CutFrom(out.value.block.blkData.trans, cmds) && out.value.proposal.commands == cmds
  {
    var r1 := Logged(r, ms).(curProposal := Proposal(height, preHash, Merkle.MerkleTreeHash(c.sum, cmds), cmds, signs));
    CutOffCuts(cmds);
    ProposesOn(c, r1, w, v, node, CutOff(cmds, 128), timeStamp);
    hide Propose, CutOff, CutFrom, SignedBytes, ExtendsNode;
  }

  // The handler's result when the last report comes in while a request waits.
  lemma LastReport(c: Crypto, r: Replica, w: int, v: int, node: HsNode, before: seq<Msg>, m: Msg)
    requires Opens(r, w, v) && r.curProposal.commands != [] && |before| == VoteBound(r.view.nodesNum) && ReportsNode(c, w, v, node, m)
    ensures var (r1, out) := Propose(c, r.(newViewMsgs := before + [m]), r.curProposal.commands, 0);
      HandleBMsg(c, Logged(r, before), m, 0) == AfterSend(r1, out)
  {
    assert Logged(r, before) == r.(newViewMsgs := before) && LastRoundView(Logged(r, before)) == v;
    hide SignedBytes, AfterSend, GetHighQCIndex, Store.GenNewBlock;
  }

  // A leader that has a request already proposes it on the last report that it needs.
  lemma ReportCompletes(c: Crypto, r: Replica, w: int, v: int, node: HsNode, ms: seq<Msg>)
    requires Opens(r, w, v) && r.curProposal.commands != [] && |ms| == VoteBound(r.view.nodesNum) + 1
    requires forall m <- ms :: ReportsNode(c, w, v, node, m)
    ensures var (r1, sent) := Gather(c, r, ms);
      && |sent| == 1 && ExtendsNode(c, w, v, node, sent[0]) && Proposed(r, r1, sent[0])
      && sent[0].block.blkData.trans == r.curProposal.commands
  {
    var n := |ms| - 1;
    assert ms[n] in ms && ms[..n] + [ms[n]] == ms && forall x <- ms[..n] :: x in ms;
    ReportsAreLogged(c, r, w, v, node, ms[..n]);
    ProposesOn(c, r.(newViewMsgs := ms), w, v, node, r.curProposal.commands, 0);
    LastReport(c, r, w, v, node, ms[..n], ms[n]);
    hide Propose, SignedBytes, LogNewView, Names, HandleBMsg, Logged;
  }

  // A replica in view w, out of the phases, whose last decision was node in view v.
  ghost predicate Rests(c: Crypto, w: int, v: int, node: HsNode, r: Replica) {
    && r.view.Valid() && r.view.viewNumber == w && r.curPhase == NEW_VIEW && r.lastRoundMsg != [] && LastRoundView(r) == v
    && r.curProposal == NO_PROPOSAL && r.newViewMsgs == [] && r.prepareVotes == r.preCommitVotes == r.commitVotes == []
    && Names(c, r.prepareQC, PREPARE, v, node) && Names(c, r.lockedQC, PRE_COMMIT, v, node)
  }

  lemma DecidedRests(c: Crypto, v: int, proposal: Msg, voter: Replica, outcome: Outcome)
    requires voter.view.Valid() && voter.view.viewNumber == v && Decided(c, v, proposal, voter, outcome)
    ensures Rests(c, v + 1, v, proposal.hsNode, outcome.0)
    ensures outcome.0.view == voter.view.NextView() && outcome.0.consId == voter.consId && outcome.0.viewChangeSendFlag == voter.viewChangeSendFlag
    ensures outcome.1.Some? && ReportsNode(c, v + 1, v, proposal.hsNode, outcome.1.value)
  {
    hide Names;
  }

  // A timeout moves on to the next view, and reports the last decision there again.
  lemma TimeoutRests(c: Crypto, w: int, v: int, node: HsNode, r: Replica, forwards: bool, sends: bool)
    requires Rests(c, w, v, node, r)
    ensures var (r1, m) := StartViewChange(c, r, forwards, sends);
      && Rests(c, w + 1, v, node, r1) && ReportsNode(c, w + 1, v, node, m)
      && m.sendNode == Some(r.consId) && m.reciNode == Node(r.view.NextView().leader)
      && m.partialSig == Share(r.consId, SignedBytes(NEW_VIEW, w + 1, NO_NODE))
      && r1.curRoundMsg == (if sends then r.curRoundMsg + [m] else r.curRoundMsg)
      && r1.view == r.view.NextView() && r1.consId == r.consId && r1.viewChangeSendFlag == (r.viewChangeSendFlag || forwards)
  {
    hide SignedBytes;
  }

  // A resting replica that does not lead votes for a proposal on the node of its last decision.
  lemma RestingVotes(c: Crypto, w: int, v: int, node: HsNode, r: Replica, m: Msg)
    requires Rests(c, w, v, node, r) && w > 0 && !r.IsLeader()
    requires ExtendsNode(c, w, v, node, m) && m.proposal.commands != [] && node.curHash != []
    ensures var (r1, out) := HandleBMsg(c, r, m, 0);
      out.Some? && MatchingMsg(out.value, PREPARE_VOTE, w) && out.value.hsNode == m.hsNode && r1.curPhase == PREPARE
  {
    hide SignedBytes, Block.Hash;
  }

  // The leader among rs gathers ms and proposes cmds on node; all others vote for that.
  ghost predicate GoOn(c: Crypto, w: int, v: int, node: HsNode, rs: seq<Replica>, next: nat, ms: seq<Msg>, cmds: seq<Bytes>)
    requires next < |rs| && forall i :: 0 <= i < |rs| ==> rs[i].view.nodesNum > 0
  {
    var (r1, sent) := Gather(c, rs[next], ms);
    && sent == [] && r1.newViewMsgs == ms && r1.curPhase == WAITING && r1.Valid()
    && var (r2, out) := HandleReq(c, r1, 0, [], cmds, [], 0);
    && out.Some? && ExtendsNode(c, w, v, node, out.value) && CutFrom(out.value.block.blkData.trans, cmds) && Proposed(r1, r2, out.value)
    && forall i :: 0 <= i < |rs| && i != next ==>
         var vote := HandleBMsg(c, rs[i], out.value, 0).1;
         vote.Some? && MatchingMsg(vote.value, PREPARE_VOTE, w) && vote.value.hsNode == out.value.hsNode
  }

  // Resting replicas go on in view w, whatever more than (n-1)/3*2 reports of the last decision
  // reach the leader, and in whatever order.
  lemma RestingGoOn(c: Crypto, w: int, v: int, node: HsNode, rs: seq<Replica>, next: nat, ms: seq<Msg>, cmds: seq<Bytes>)
    requires next < |rs| && w > 0 && node.curHash != [] && cmds != []
    requires forall i :: 0 <= i < |rs| ==> rs[i].view.nodesNum > 0 && Rests(c, w, v, node, rs[i]) && (rs[i].IsLeader() <==> i == next)
    requires !rs[next].viewChangeSendFlag && |ms| > VoteBound(rs[next].view.nodesNum) && forall m <- ms :: ReportsNode(c, w, v, node, m)
    ensures GoOn(c, w, v, node, rs, next, ms, cmds)
  {
    hide HandleBMsg, Names, CutFrom;
    var r := rs[next];
    assert Opens(r, w, v) && r.curProposal == NO_PROPOSAL;
    ReportsAreLogged(c, r, w, v, node, ms);
    RequestIsProposed(c, r, w, v, node, ms, 0, [], cmds, [], 0);
    assert Logged(r, ms).newViewMsgs == ms && Logged(r, ms).curPhase == WAITING;
    var out := HandleReq(c, Logged(r, ms), 0, [], cmds, [], 0).1;
    hide HandleReq, ReportsNode, Rests;
    forall i | 0 <= i < |rs| && i != next
      ensures var vote := HandleBMsg(c, rs[i], out.value, 0).1;
        vote.Some? && MatchingMsg(vote.value, PREPARE_VOTE, w) && vote.value.hsNode == out.value.hsNode
    {
      RestingVotes(c, w, v, node, rs[i], out.value);
    }
  }

  // The hand-over. 2f+1 replicas vote on the proposal of view v, so they decide. Whichever of
  // their reports reach the one that leads view v+1, in whatever order and how often, it logs
  // them all; once it has more than (n-1)/3*2 it proposes on the next request, its proposal
  // extends the node decided in view v, and the others that decided vote for it.
  lemma HandOver(c: Crypto, leader: Replica, proposal: Msg, voters: seq<Replica>, next: nat, cmds: seq<Bytes>)
    returns (decide: Msg, last: seq<Replica>)
    requires c.Sound() && c.Complete() && |voters| == c.threshold == VoteBound(leader.view.nodesNum) + 1
    requires Collects(PREPARE, leader) && leader.preCommitVotes == leader.commitVotes == [] && leader.view.viewNumber >= 0
    requires AllVote(c, PREPARE, leader.view.viewNumber, proposal, voters) && proposal.hsNode == leader.hsNode && proposal.hsNode.curHash != []
    requires leader.view.Valid() && forall i :: 0 <= i < |voters| ==> voters[i].view == leader.view
    requires next < |voters| && !voters[next].viewChangeSendFlag && voters[next].consId == leader.view.NextView().leader && cmds != []
    ensures |last| == |voters|
    ensures forall i :: 0 <= i < |last| ==>
      && voters[i].view.nodesNum > 0 && last[i].view.nodesNum > 0
      && Decided(c, leader.view.viewNumber, proposal, voters[i], HandleBMsg(c, last[i], decide, 0))
    ensures var after := Moved(c, last, decide);
      && (forall i :: 0 <= i < |after| ==> after[i].view.nodesNum > 0)
      && forall ms: seq<Msg> :: |ms| > VoteBound(leader.view.nodesNum) && AreReports(c, last, decide, ms) ==>
           GoOn(c, leader.view.viewNumber + 1, leader.view.viewNumber, proposal.hsNode, after, next, ms, cmds)
  {
    var v, node := leader.view.viewNumber, proposal.hsNode;
    hide HandleBMsg, Names, VotedOn, WentThrough, VotesOn, AfterVoting, Collects, Decided, ReportsNode, Rests, GoOn;
    var _, _, d, l := ViewDecides(c, leader, proposal, voters);
    decide, last := d, l;
    var after := Moved(c, last, decide);
    forall i | 0 <= i < |after|
      ensures after[i].view.nodesNum > 0 && Rests(c, v + 1, v, node, after[i]) && (after[i].IsLeader() <==> i == next)
      ensures after[i].view.nodesNum == leader.view.nodesNum && after[i].viewChangeSendFlag == voters[i].viewChangeSendFlag
      ensures var out := HandleBMsg(c, last[i], decide, 0).1; out.Some? && ReportsNode(c, v + 1, v, node, out.value)
    {
      DecidedRests(c, v, proposal, voters[i], HandleBMsg(c, last[i], decide, 0));
      assert i < next ==> voters[i].consId != voters[next].consId;
      assert i > next ==> voters[next].consId != voters[i].consId;
    }
    hide AllVote;
    forall ms: seq<Msg> | |ms| > VoteBound(leader.view.nodesNum) && AreReports(c, last, decide, ms)
      ensures GoOn(c, v + 1, v, node, after, next, ms, cmds)
    {
      forall m | m in ms ensures ReportsNode(c, v + 1, v, node, m) {
        var i :| 0 <= i < |last| && HandleBMsg(c, last[i], decide, 0).1 == Some(m);
      }
      RestingGoOn(c, v + 1, v, node, after, next, ms, cmds);
    }
  }

  // The deciding replicas after the decision.
  ghost function Moved(c: Crypto, last: seq<Replica>, decide: Msg): seq<Replica>
    requires forall i :: 0 <= i < |last| ==> last[i].view.nodesNum > 0
  {
    seq(|last|, i requires 0 <= i < |last| => HandleBMsg(c, last[i], decide, 0).0)
  }

  // ms are messages that they sent.
  ghost predicate AreReports(c: Crypto, last: seq<Replica>, decide: Msg, ms: seq<Msg>)
    requires forall i :: 0 <= i < |last| ==> last[i].view.nodesNum > 0
  {
    forall m <- ms :: exists i :: 0 <= i < |last| && HandleBMsg(c, last[i], decide, 0).1 == Some(m)
  }

  // And if view w brings nothing: when resting replicas time out, the messages they send for
  // view w+1 make its leader go on there from the same decision, and the others with it.
  lemma TimeoutHandsOver(c: Crypto, w: int, v: int, node: HsNode, rs: seq<Replica>, next: nat, ms: seq<Msg>, cmds: seq<Bytes>)
    requires next < |rs| && w >= 0 && node.curHash != [] && cmds != []
    requires forall i :: 0 <= i < |rs| ==> rs[i].view.nodesNum > 0 && Rests(c, w, v, node, rs[i]) && (rs[i].consId == rs[i].view.NextView().leader <==> i == next)
    requires !rs[next].viewChangeSendFlag && |ms| > VoteBound(rs[next].view.nodesNum)
    requires forall m <- ms :: exists i, sends :: 0 <= i < |rs| && m == StartViewChange(c, rs[i], false, sends).1
    ensures var after := seq(|rs|, i requires 0 <= i < |rs| => StartViewChange(c, rs[i], false, true).0);
      && (forall i :: 0 <= i < |after| ==> after[i].view.nodesNum > 0)
      && GoOn(c, w + 1, v, node, after, next, ms, cmds)
  {
    hide GoOn, StartViewChange, View.NextView;
    var after := seq(|rs|, i requires 0 <= i < |rs| => StartViewChange(c, rs[i], false, true).0);
    forall i | 0 <= i < |after|
      ensures Rests(c, w + 1, v, node, after[i]) && (after[i].IsLeader() <==> i == next) && after[i].view.nodesNum > 0
      ensures after[i].viewChangeSendFlag == rs[i].viewChangeSendFlag && after[i].view == rs[i].view.NextView()
    {
      TimeoutRests(c, w, v, node, rs[i], false, true);
    }
    forall m | m in ms ensures ReportsNode(c, w + 1, v, node, m) {
      var i, sends :| 0 <= i < |rs| && m == StartViewChange(c, rs[i], false, sends).1;
      TimeoutRests(c, w, v, node, rs[i], false, sends);
    }
    assert after[next].view.nodesNum == rs[next].view.nodesNum by { NextKeepsNodes(rs[next].view); }
    hide Rests, ReportsNode;
    RestingGoOn(c, w + 1, v, node, after, next, ms, cmds);
  }

  lemma NextKeepsNodes(view: View)
    requires view.nodesNum > 0
    ensures view.NextView().nodesNum == view.nodesNum
  {
  }
}
