/** Lockstep runs of chained HotStuff exist for every list of requests: a fault-free round never gets stuck. */
module ChainedProgress {
  import opened Common
  import opened Blockchain
  import opened HotstuffTypes
  import opened ChainedSpec
  import opened ChainedPipeline

  // Every node has reported to the leader of the coming view.
  predicate AllReported(n: nat, v: nat, s: Sys) {
    if v == 0 then s.newViews == []
    else |s.newViews| == n && forall i: nat :: i < n ==> s.newViews[i].sendNode == Some(i)
  }

  // Until the leader has a quorum that includes the last leader, it keeps what it gets.
  predicate Gathered(n: nat, hist: seq<Block>, ms: seq<CMsg>, k: nat, r1: CNode)
    requires n > 0 && k <= |ms|
  {
    if r1.curPhase == WAITING then |r1.newViewMsgs| > VoteBound(n)
    else
      && r1.curPhase == NEW_VIEW && r1.newViewMsgs == ms[..k] && (r1.lastLeaderState <==> LeaderAt(|hist| - 1, n) < k)
      && (k <= VoteBound(n) || !r1.lastLeaderState)
  }

  lemma GathersOne(c: Crypto, n: nat, hist: seq<Block>, r: CNode, ms: seq<CMsg>, k: nat)
    requires n > 0 && |hist| > 0 && k < |ms| == n && Gathered(n, hist, ms, k, r)
    requires r.view == ViewAt(|hist|, n) && r.IsLeader() && !r.viewChangeFlag && r.curProposal == NO_PROPOSAL
    requires NewViewMsgOk(c, n, hist, ms[k]) && ms[k].sendNode == Some(k)
    ensures Gathered(n, hist, ms, k + 1, HandleCMsg(c, r, ms[k], 0).0)
  {
    LastLeaderIs(|hist|, n);
    assert r.LastLeader() == LeaderAt(|hist| - 1, n);
    assert ms[..k + 1] == ms[..k] + [ms[k]];
    hide CNode.LastLeader, LeaderAt, Propose, CHandleGeneric, CHandleGenericVote, SlotHash;
  }

  lemma {:induction false} LeaderGathers(c: Crypto, n: nat, hist: seq<Block>, r: CNode, ms: seq<CMsg>, k: nat)
    requires n > 0 && NodeOk(c, n, hist, LeaderAt(|hist|, n), r) && |hist| > 0 && |ms| == n && k <= n
    requires forall m <- ms :: NewViewMsgOk(c, n, hist, m)
    requires forall i: nat :: i < n ==> ms[i].sendNode == Some(i)
    ensures Gathered(n, hist, ms, k, Feed(c, r, ms[..k]).0)
  {
    if k > 0 {
      LeaderGathers(c, n, hist, r, ms, k - 1);
      assert forall m <- ms[..k - 1] :: m in ms;
      FeedNewViews(c, n, hist, r, ms[..k - 1]);
      assert ms[..k][..k - 1] == ms[..k - 1] && ms[k - 1] in ms;
      hide HandleCMsg, LeaderAt, NewViewMsgOk, NodesOk, BlocksOk, StoreOk;
      GathersOne(c, n, hist, Feed(c, r, ms[..k - 1]).0, ms, k - 1);
    }
  }

  lemma LeaderAnswers(c: Crypto, n: nat, hist: seq<Block>, r: CNode, inp: Input, s: Sys)
    requires n >= 4 && NodeOk(c, n, hist, LeaderAt(|hist|, n), r) && AllReported(n, |hist|, s)
    requires inp.delivered == s.newViews && forall m <- s.newViews :: NewViewMsgOk(c, n, hist, m)
    requires hist == [] ==> r.newViewMsgs != []
    ensures var (l2, proposal) := AfterRequest(c, r, inp);
      proposal.Some? && l2.curRoundMsg == proposal.value && l2.genericVoteMsgs == [] && l2.view == r.view
  {
    if hist != [] {
      LeaderGathers(c, n, hist, r, s.newViews, n);
      FeedNewViews(c, n, hist, r, s.newViews);
      assert s.newViews[..n] == s.newViews;
    }
    hide Feed, LeaderAt, GenBlock, NodesOk, BlocksOk, StoreOk, FirstMaxUpTo;
  }

  /* The votes combine */

  lemma LeaderVotes(c: Crypto, r: CNode, g: CMsg)
    requires r.view.nodesNum > 0 && r.IsLeader() && g.mType == GENERIC && g.viewNumber == r.view.viewNumber && CheckNewCHsNode(r, g)
    ensures var (r1, outs) := HandleCMsg(c, r, g, 0);
      && r1.curRoundMsg == r.curRoundMsg && r1.genericVoteMsgs == r.genericVoteMsgs
      && |outs| == 1 && outs[0] == GenericVote(c, r, g).(sendNode := Some(r.consId))
  {
    var (r1, outs) := CHandleGeneric(c, r, g);
    hide CheckNewCHsNode, Block.Hash;
    AfterSendKeeps(r1, outs);
  }

  predicate VoteOf(c: Crypto, hist: seq<Block>, g: CMsg, i: nat, m: CMsg) {
    && m.mType == GENERIC_VOTE && m.viewNumber == |hist| && m.hsNodes == g.hsNodes
    && m.partialSig == c.ThresholdSign(i, g.ChainedMessage2Byte())
  }

  // Votes of nodes 0, 1, ... for the nodes of g.
  predicate AreVotes(c: Crypto, hist: seq<Block>, g: CMsg, votes: seq<CMsg>) {
    forall i: nat :: i < |votes| ==> VoteOf(c, hist, g, i, votes[i])
  }

  lemma CountsVote(c: Crypto, n: nat, hist: seq<Block>, g: CMsg, r: CNode, votes: seq<CMsg>, k: nat)
    requires n > 0 && c.Complete() && c.threshold == VoteBound(n) + 1 == |votes| && k < |votes| && AreVotes(c, hist, g, votes)
    requires r.view == ViewAt(|hist|, n) && r.curPhase == HALF_GENERIC && r.genericVoteMsgs == votes[..k]
    requires r.curRoundMsg.ChainedMessage2Byte() == g.ChainedMessage2Byte()
    ensures var (r1, outs) := HandleCMsg(c, r, votes[k], 0);
      if k + 1 < |votes| then r1 == r.(genericVoteMsgs := votes[..k + 1]) && outs == []
      else r1.view == r.view.NextView() && |outs| == 1
  {
    assert votes[..k] + [votes[k]] == votes[..k + 1];
    if k + 1 == |votes| {
      var content, shares := g.ChainedMessage2Byte(), Shares(votes[..k + 1]);
      assert forall i: nat :: i < |shares| ==> shares[i] == Share(i, content);
      assert c.DistinctShares(content, shares);
      assert c.combineSig(content, shares) != NoSign;
      hide CMsg.ChainedMessage2Byte, LeaderAt, View.NextView;
      var (r2, outs) := CHandleGenericVote(c, r, votes[k]);
      AfterSendKeeps(r2, outs);
    }
  }

  lemma {:induction false} VotesCombine(c: Crypto, n: nat, hist: seq<Block>, g: CMsg, r: CNode, votes: seq<CMsg>, k: nat)
    requires n > 0 && c.Complete() && c.threshold == VoteBound(n) + 1 == |votes| && k <= |votes| && AreVotes(c, hist, g, votes)
    requires r.view == ViewAt(|hist|, n) && r.curPhase == HALF_GENERIC && r.genericVoteMsgs == []
    requires r.curRoundMsg.ChainedMessage2Byte() == g.ChainedMessage2Byte()
    ensures k < |votes| ==> Feed(c, r, votes[..k]) == (r.(genericVoteMsgs := votes[..k]), [])
    ensures k == |votes| ==> Feed(c, r, votes[..k]).0.view == r.view.NextView() && |Feed(c, r, votes[..k]).1| == 1
  {
    if k > 0 {
      VotesCombine(c, n, hist, g, r, votes, k - 1);
      assert votes[..k][..k - 1] == votes[..k - 1];
      hide HandleCMsg, AreVotes, Crypto.Complete, CMsg.ChainedMessage2Byte, LeaderAt, View.NextView;
      CountsVote(c, n, hist, g, r.(genericVoteMsgs := votes[..k - 1]), votes, k - 1);
      assert [] + HandleCMsg(c, r.(genericVoteMsgs := votes[..k - 1]), votes[k - 1], 0).1 == HandleCMsg(c, r.(genericVoteMsgs := votes[..k - 1]), votes[k - 1], 0).1;
      assert votes[..k][k - 1] == votes[k - 1];
    } else {
      assert votes[..0] == [] && r.(genericVoteMsgs := []) == r;
    }
  }

  /* A round always happens */

  // The votes of the first nodes, as many as the threshold asks for.
  function FirstVotes(c: Crypto, s: Sys, lead: nat, l2: CNode, g: CMsg): seq<CMsg>
    requires c.threshold <= |s.nodes| && l2.view.nodesNum > 0
    requires forall i :: 0 <= i < |s.nodes| ==> s.nodes[i].view.nodesNum > 0 && |Answers(c, s, lead, l2, g, i)| > 0
  {
    seq(c.threshold, i requires 0 <= i < c.threshold => Answers(c, s, lead, l2, g, i)[0])
  }

  lemma NodeVotes(c: Crypto, n: nat, hist: seq<Block>, s: Sys, cmds: seq<Bytes>, l2: CNode, g: CMsg, i: nat)
    requires n > 0 && IsDigest(c.sum) && SysOk(c, n, hist, s) && IsHistory(c, hist + [g.blk]) && i < n
    requires Proposes(c, hist, cmds, g) && LeaderHalf(c, n, hist, g, l2)
    ensures var outs := Answers(c, s, LeaderAt(|hist|, n), l2, g, i);
      && |outs| == (if i == LeaderAt(|hist|, n) then 1 else 2)
      && VoteOf(c, hist, g, i, outs[0]) && outs[0].reciNode == Node(LeaderAt(|hist|, n))
      && (i != LeaderAt(|hist|, n) ==> outs[1].sendNode == Some(i))
  {
    var r := s.nodes[i];
    assert NodeOk(c, n, hist, i, r);
    if i == LeaderAt(|hist|, n) {
      SlotsMove(c, hist, g.blk);
      hide LeaderAt, HandleCMsg, NodeOk, IsHistory, BlocksOk, CMsg.ChainedMessage2Byte;
      LeaderVotes(c, l2, g);
    } else {
      FollowerWindow(c, n, hist, cmds, i, r, g);
      hide LeaderAt, HandleCMsg, IsHistory, BlocksOk, NodesOk, StoreOk, Accept, CheckNewCHsNode, CMsg.ChainedMessage2Byte;
      FollowerAnswers(c, r, g);
    }
  }

  // All nodes handle the proposal g, and the leader the votes.
  function NextSys(c: Crypto, s: Sys, lead: nat, l2: CNode, g: CMsg, votes: seq<CMsg>): Sys
    requires l2.view.nodesNum > 0 && HandleCMsg(c, l2, g, 0).0.view.nodesNum > 0
    requires |Feed(c, HandleCMsg(c, l2, g, 0).0, votes).1| > 0
    requires forall i :: 0 <= i < |s.nodes| ==> s.nodes[i].view.nodesNum > 0
    requires forall i :: 0 <= i < |s.nodes| && i != lead ==> |Answers(c, s, lead, l2, g, i)| > 1
  {
    var (l4, outs) := Feed(c, HandleCMsg(c, l2, g, 0).0, votes);
    Sys(seq(|s.nodes|, i requires 0 <= i < |s.nodes| => if i == lead then l4 else HandleCMsg(c, s.nodes[i], g, 0).0),
        seq(|s.nodes|, i requires 0 <= i < |s.nodes| => if i == lead then outs[0] else Answers(c, s, lead, l2, g, i)[1]))
  }

  lemma LeaderMovesOn(c: Crypto, n: nat, hist: seq<Block>, cmds: seq<Bytes>, l2: CNode, g: CMsg, votes: seq<CMsg>)
    requires n > 0 && IsDigest(c.sum) && c.Complete() && c.threshold == VoteBound(n) + 1 == |votes|
    requires IsHistory(c, hist) && IsHistory(c, hist + [g.blk])
    requires Proposes(c, hist, cmds, g) && LeaderHalf(c, n, hist, g, l2) && AreVotes(c, hist, g, votes)
    requires l2.curRoundMsg == g && l2.genericVoteMsgs == []
    ensures HandleCMsg(c, l2, g, 0).0.view.nodesNum == n
    ensures var (l4, outs) := Feed(c, HandleCMsg(c, l2, g, 0).0, votes);
      l4.view.viewNumber == |hist| + 1 && |outs| == 1 && outs[0].sendNode == Some(LeaderAt(|hist|, n))
  {
    hide BlocksOk, StoreOk, Stored, CutFrom, IsMade, IsHistory;
    LeaderAccepts(c, n, hist, cmds, l2, g);
    SlotsMove(c, hist, g.blk);
    LeaderVotes(c, l2, g);
    var l3 := HandleCMsg(c, l2, g, 0).0;
    hide HandleCMsg, CMsg.ChainedMessage2Byte, LeaderAt;
    VotesCombine(c, n, hist, g, l3, votes, |votes|);
    assert votes[..|votes|] == votes;
    FeedVotes(c, g, l3, votes);
  }

  lemma EveryoneAnswers(c: Crypto, n: nat, hist: seq<Block>, s: Sys, cmds: seq<Bytes>, l2: CNode, g: CMsg)
    requires n > 0 && IsDigest(c.sum) && c.threshold == VoteBound(n) + 1
    requires SysOk(c, n, hist, s) && IsHistory(c, hist + [g.blk]) && Proposes(c, hist, cmds, g) && LeaderHalf(c, n, hist, g, l2)
    ensures forall i: nat :: i < n ==> |Answers(c, s, LeaderAt(|hist|, n), l2, g, i)| == if i == LeaderAt(|hist|, n) then 1 else 2
    ensures AreVotes(c, hist, g, FirstVotes(c, s, LeaderAt(|hist|, n), l2, g))
    ensures forall i: nat :: i < n ==> Answers(c, s, LeaderAt(|hist|, n), l2, g, i)[0].reciNode == Node(LeaderAt(|hist|, n))
    ensures forall i: nat :: i < n && i != LeaderAt(|hist|, n) ==> Answers(c, s, LeaderAt(|hist|, n), l2, g, i)[1].sendNode == Some(i)
  {
    hide LeaderAt, Answers, VoteOf, IsHistory, Proposes;
    var lead := LeaderAt(|hist|, n);
    forall i: nat | i < n
      ensures |Answers(c, s, lead, l2, g, i)| == if i == lead then 1 else 2
      ensures VoteOf(c, hist, g, i, Answers(c, s, lead, l2, g, i)[0]) && Answers(c, s, lead, l2, g, i)[0].reciNode == Node(lead)
      ensures i != lead ==> Answers(c, s, lead, l2, g, i)[1].sendNode == Some(i)
    {
      NodeVotes(c, n, hist, s, cmds, l2, g, i);
    }
  }

  lemma NextIsCertified(c: Crypto, n: nat, hist: seq<Block>, s: Sys, cmds: seq<Bytes>, l2: CNode, g: CMsg) returns (votes: seq<CMsg>, s': Sys)
    requires n > 0 && IsDigest(c.sum) && c.Complete() && c.threshold == VoteBound(n) + 1
    requires SysOk(c, n, hist, s) && IsHistory(c, hist + [g.blk]) && Proposes(c, hist, cmds, g) && LeaderHalf(c, n, hist, g, l2)
    requires l2.curRoundMsg == g && l2.genericVoteMsgs == []
    ensures Certified(c, n, |hist|, s, l2, g, votes, s') && AllReported(n, |hist| + 1, s')
  {
    hide HandleCMsg, Feed, VoteOf, LeaderAt, IsHistory, Proposes, BlocksOk, NodesOk, StoreOk, NewViewMsgOk;
    var lead := LeaderAt(|hist|, n);
    EveryoneAnswers(c, n, hist, s, cmds, l2, g);
    votes := FirstVotes(c, s, lead, l2, g);
    LeaderMovesOn(c, n, hist, cmds, l2, g, votes);
    s' := NextSys(c, s, lead, l2, g, votes);
    forall m | m in votes ensures IsVote(c, s, lead, l2, g, m) {
      var i :| 0 <= i < |votes| && votes[i] == m;
      assert m == Answers(c, s, lead, l2, g, i)[0];
    }
    var outs := Feed(c, HandleCMsg(c, l2, g, 0).0, votes).1;
    forall m | m in s'.newViews ensures m in outs || IsNewView(c, s, lead, l2, g, m) {
      var i :| 0 <= i < n && s'.newViews[i] == m;
      if i != lead { assert m == Answers(c, s, lead, l2, g, i)[1]; }
    }
  }

  lemma LeaderOpens(c: Crypto, n: nat, hist: seq<Block>, s: Sys, cmds: seq<Bytes>) returns (l2: CNode, g: CMsg)
    requires n >= 4 && SysOk(c, n, hist, s) && AllReported(n, |hist|, s) && (hist == [] ==> s.nodes[0].newViewMsgs != []) && cmds != []
    ensures forall votes :: AfterRequest(c, s.nodes[LeaderAt(|hist|, n)], Input(s.newViews, 0, [], cmds, 0, votes)) == (l2, Some(g))
    ensures Proposes(c, hist, cmds, g) && LeaderHalf(c, n, hist, g, l2) && IsHistory(c, hist + [g.blk])
    ensures l2.curRoundMsg == g && l2.genericVoteMsgs == []
  {
    var r, inp := s.nodes[LeaderAt(|hist|, n)], Input(s.newViews, 0, [], cmds, 0, []);
    assert NodeOk(c, n, hist, LeaderAt(|hist|, n), r);
    assert hist == [] ==> r.newViewMsgs != [];
    hide NodeOk, AfterRequest, LeaderAt, NewViewMsgOk, Proposes, LeaderHalf, IsHistory;
    LeaderAnswers(c, n, hist, r, inp, s);
    var (l, proposal) := AfterRequest(c, r, inp);
    l2, g := l, proposal.value;
    LeaderProposes(c, n, hist, r, inp, l2, g);
    forall votes ensures AfterRequest(c, r, inp.(votes := votes)) == (l2, Some(g)) {
      VotesComeLater(c, r, inp, votes);
    }
    HistoryGrows(c, hist, cmds, g);
  }

  lemma VotesComeLater(c: Crypto, r: CNode, inp: Input, votes: seq<CMsg>)
    requires r.view.nodesNum > 0
    ensures AfterRequest(c, r, inp.(votes := votes)) == AfterRequest(c, r, inp)
  {
  }

  // After any number of rounds, whatever is requested next is proposed, certified and
  // handed on to the next leader.
  lemma NextRound(c: Crypto, n: nat, hist: seq<Block>, s: Sys, cmds: seq<Bytes>) returns (inp: Input, s': Sys, blk: Block)
    requires n >= 4 && IsDigest(c.sum) && c.Complete() && c.threshold == VoteBound(n) + 1
    requires SysOk(c, n, hist, s) && AllReported(n, |hist|, s) && (hist == [] ==> s.nodes[0].newViewMsgs != []) && cmds != []
    ensures inp.cmds == cmds && Round(c, n, |hist|, s, inp, s')
    ensures SysOk(c, n, hist + [blk], s') && AllReported(n, |hist| + 1, s')
  {
    SameViews(c, n, hist, s);
    hide SysOk, AllReported, AfterRequest, Certified, NodeOk, Proposes, LeaderAt, IsHistory, NewViewMsgOk, LeaderHalf;
    var l2, g := LeaderOpens(c, n, hist, s, cmds);
    var votes, next := NextIsCertified(c, n, hist, s, cmds, l2, g);
    inp, s' := Input(s.newViews, 0, [], cmds, 0, votes), next;
    blk := RoundExtends(c, n, hist, s, inp, s');
  }

  lemma SameViews(c: Crypto, n: nat, hist: seq<Block>, s: Sys)
    requires SysOk(c, n, hist, s)
    ensures |s.nodes| == n && forall i :: 0 <= i < n ==> s.nodes[i].view.nodesNum == n
  {
  }

  // So lockstep runs exist for every list of requests.
  lemma LockstepRunsExist(c: Crypto, n: nat, reqs: seq<seq<Bytes>>) returns (trace: seq<Sys>, inputs: seq<Input>)
    requires n >= 4 && IsDigest(c.sum) && c.Complete() && c.threshold == VoteBound(n) + 1
    requires forall cmds <- reqs :: cmds != []
    ensures Lockstep(c, n, trace, inputs) && |inputs| == |reqs|
    ensures forall k :: 0 <= k < |reqs| ==> inputs[k].cmds == reqs[k]
  {
    var hist;
    trace, inputs, hist := Extend(c, n, reqs);
  }

  lemma {:induction false} Extend(c: Crypto, n: nat, reqs: seq<seq<Bytes>>) returns (trace: seq<Sys>, inputs: seq<Input>, hist: seq<Block>)
    requires n >= 4 && IsDigest(c.sum) && c.Complete() && c.threshold == VoteBound(n) + 1
    requires forall cmds <- reqs :: cmds != []
    ensures Lockstep(c, n, trace, inputs) && |inputs| == |reqs| == |hist|
    ensures forall k :: 0 <= k < |reqs| ==> inputs[k].cmds == reqs[k]
    ensures SysOk(c, n, hist, trace[|reqs|]) && AllReported(n, |reqs|, trace[|reqs|])
  {
    hide Round, NodeOk, NewViewMsgOk, IsHistory;
    if reqs == [] {
      InitOk(c, n);
      trace, inputs, hist := [Init(c, n)], [], [];
    } else {
      var before, cmds := reqs[..|reqs| - 1], reqs[|reqs| - 1];
      assert cmds in reqs && forall x <- before :: x in reqs;
      var trace0, inputs0, hist0 := Extend(c, n, before);
      var inp, s', blk := NextRound(c, n, hist0, trace0[|before|], cmds);
      trace, inputs, hist := trace0 + [s'], inputs0 + [inp], hist0 + [blk];
      forall v | 0 <= v < |inputs|
        ensures |trace[v].nodes| == n && (forall i :: 0 <= i < n ==> trace[v].nodes[i].view.nodesNum == n)
        ensures Round(c, n, v, trace[v], inputs[v], trace[v + 1])
      {
        if v == |before| {
          SameViews(c, n, hist0, trace0[v]);
        } else {
          assert trace[v] == trace0[v] && trace[v + 1] == trace0[v + 1];
        }
      }
    }
  }
}
