/** When a node votes to prepare and to commit (consensus_shard/pbft_all/messageHandle.go). */
module PbftVotes {
  import opened Pbft
  import opened PbftCatchUp
  import opened PbftQuorum

  // ---------- the pre-prepare handler ----------

  /**
   * Exactly when a pre-prepare is answered with a prepare message: it is for the height the node waits for, carries
   * its request's digest, and its block names the last block of the chain as parent and has the stated body.
   */
  lemma PrePrepareVotesIff(n: Node, m: Msg)
    requires m.PrePrepare?
    ensures HandlePrePrepare(n, m).sent != {}
       <==> && m.seqID == n.sequenceID && m.digest == Digest(m.request)
            && m.request.block.body == m.request.block.header.txRoot
            && m.request.block.header.parent
                 == if n.chain == [] then GenesisHash else HashOf(n.chain[|n.chain|-1].header)
    ensures HandlePrePrepare(n, m).sent <= {Prepare(m.digest, m.seqID, n.id)}
    ensures HandlePrePrepare(n, m).node.pbftStage == n.pbftStage + if HandlePrePrepare(n, m).sent != {} then 1 else 0
  {
  }

  /** On the leader's proposals: exactly for the next height after the chain, if that is the one waited for. */
  lemma ProposalVotedIff(n: Node, ps: seq<Request>, leader: nat, m: Msg)
    requires Handles(n, ps, leader, m) && m.PrePrepare?
    ensures HandlePrePrepare(n, m).sent != {}
       <==> m.seqID == n.sequenceID == |n.chain| + 1 && m.request.block.body == m.request.block.header.txRoot
  {
    PrePrepareVotesIff(n, m);
    FollowingNumbers(n.chain, ps);
    assert LinkedAt(ps, m.seqID - 1);
    if m.seqID >= 2 { assert LinkedAt(ps, m.seqID - 2); }
    if n.chain != [] { assert LinkedAt(ps, |n.chain| - 1); }
  }

  /** A node on the leader's chain that waits for the same height votes for what the leader proposes. */
  lemma ProposalVoted(l: Node, n: Node, body: seq<nat>, content: nat, reqTime: nat, m: Msg)
    requires m in Propose(l, body, content, reqTime).sent && n.chain == l.chain && n.sequenceID == l.sequenceID
    ensures m.PrePrepare? && m.request.block.body == body && HandlePrePrepare(n, m).sent != {}
  {
    PrePrepareVotesIff(n, m);
  }

  /** A request is kept unless it is out of date or does not match its digest, whether or not it is voted for. */
  lemma PrePrepareKept(n: Node, m: Msg)
    requires m.PrePrepare?
    ensures var out := HandlePrePrepare(n, m).node;
            if m.seqID >= n.sequenceID && m.digest == Digest(m.request) then
              && out.requestPool == n.requestPool[m.digest := m.request]
              && out.height2Digest == n.height2Digest[m.seqID := m.digest]
            else out == n
  {
  }

  /** Exactly when a block is added: its number is the next one and it names the last block as its parent. */
  lemma BlockAddedIff(chain: seq<Block>, b: Block)
    ensures AddBlock(chain, b) == chain + [b]
       <==> && b.header.number == (if chain == [] then 0 else chain[|chain|-1].header.number) + 1
            && b.header.parent == if chain == [] then GenesisHash else HashOf(chain[|chain|-1].header)
    ensures AddBlock(chain, b) == chain + [b] || AddBlock(chain, b) == chain
  {
    assert |chain + [b]| != |chain|;
  }

  // ---------- counted prepare messages ----------

  /** In step j node i counts a prepare message for d: it holds the request and waits for its height. */
  ghost predicate PrepareCountsAt(ss: seq<Sys>, acts: seq<Action>, j: nat, i: nat, d: Digest)
    requires |ss| == |acts| + 1 && j < |acts|
  {
    && acts[j].HandleAct? && acts[j].i == i < |ss[j].nodes|
    && acts[j].m.Prepare? && acts[j].m.digest == d
    && acts[j].m.seqID == ss[j].nodes[i].sequenceID && d in ss[j].nodes[i].requestPool
  }

  /** How many prepare messages for d node i counts in the first k steps. */
  ghost function PreparedTimes(ss: seq<Sys>, acts: seq<Action>, k: nat, i: nat, d: Digest): nat
    requires |ss| == |acts| + 1 && k <= |acts|
  {
    if k == 0 then 0
    else PreparedTimes(ss, acts, k - 1, i, d) + if PrepareCountsAt(ss, acts, k - 1, i, d) then 1 else 0
  }

  /** In step j node i sends a commit message for d. */
  ghost predicate DecidesAt(ss: seq<Sys>, acts: seq<Action>, j: nat, i: nat, d: Digest)
    requires |ss| == |acts| + 1 && j < |acts|
  {
    && acts[j].HandleAct? && acts[j].i == i < |ss[j].nodes|
    && exists c :: c in Handle(ss[j].nodes[i], ss[j].f, ss[j].leader, acts[j].m).sent && c.Commit? && c.digest == d
  }

  /** The votes of a node for d: the count so far, and a decision once it has reached 2f+1. */
  ghost predicate VotesCounted(n: Node, f: nat, d: Digest, times: nat) {
    CountOf(n.cntPrepareConfirm, d) == times && (d in n.isCommitBordcast <==> times >= 2 * f + 1)
  }

  predicate CountsPrepare(n: Node, m: Msg, d: Digest) {
    m.Prepare? && m.digest == d && m.seqID == n.sequenceID && d in n.requestPool
  }

  ghost predicate SendsCommit(sent: set<Msg>, d: Digest) {
    exists c :: c in sent && c.Commit? && c.digest == d
  }

  /** The prepare handler: the message that brings the count to 2f+1 is the one that decides. */
  lemma PrepareVotes(n: Node, f: nat, m: Msg, d: Digest, times: nat)
    requires m.Prepare? && VotesCounted(n, f, d, times)
    ensures var out := HandlePrepare(n, f, m);
            && VotesCounted(out.node, f, d, times + if CountsPrepare(n, m, d) then 1 else 0)
            && (SendsCommit(out.sent, d) <==> CountsPrepare(n, m, d) && times == 2 * f)
  {
    var out := HandlePrepare(n, f, m);
    PrepareKeeps(n, f, m);
    if m.seqID == n.sequenceID && m.digest in n.requestPool {
      var n1 := CountPrepare(n, m.digest);
      assert CountOf(n1.cntPrepareConfirm, d) == times + if CountsPrepare(n, m, d) then 1 else 0;
      assert out.node.cntPrepareConfirm == n1.cntPrepareConfirm;
      if m.digest == d && times == 2 * f { assert Commit(d, m.seqID, n.id) in out.sent; }
    }
  }

  /** One handler call in these terms. */
  lemma VoteStep(n: Node, f: nat, leader: nat, m: Msg, d: Digest, times: nat)
    requires VotesCounted(n, f, d, times)
    ensures var out := Handle(n, f, leader, m);
            && VotesCounted(out.node, f, d, times + if CountsPrepare(n, m, d) then 1 else 0)
            && (SendsCommit(out.sent, d) <==> CountsPrepare(n, m, d) && times == 2 * f)
  {
    if m.Prepare? {
      PrepareVotes(n, f, m, d, times);
    } else {
      OthersKeepPrepares(n, f, leader, m);
    }
  }

  lemma OthersKeepPrepares(n: Node, f: nat, leader: nat, m: Msg)
    requires !m.Prepare?
    ensures var out := Handle(n, f, leader, m);
            && out.node.cntPrepareConfirm == n.cntPrepareConfirm && out.node.isCommitBordcast == n.isCommitBordcast
            && forall c :: c in out.sent ==> !c.Commit?
  {
    match m
    case PrePrepare(_, _, _) =>
    case Commit(_, _, _) => CommitKeepsPrepares(n, f, leader, m);
    case RequestOld(_, _, _) =>
    case SendOld(_, _, _, _) => ReplyKeepsPrepares(n, leader, m);
  }

  lemma CommitKeepsPrepares(n: Node, f: nat, leader: nat, m: Msg)
    requires m.Commit?
    ensures var out := HandleCommit(n, f, leader, m);
            && out.node.cntPrepareConfirm == n.cntPrepareConfirm && out.node.isCommitBordcast == n.isCommitBordcast
            && forall c :: c in out.sent ==> c.RequestOld?
  {
    var n1 := CountCommit(n, m.digest);
    EndRoundKeeps(Asking(n1, m.digest), leader);
    if m.digest in n.requestPool { EndRoundKeeps(CommitRequest(n1, m.digest), leader); }
  }

  lemma ReplyKeepsPrepares(n: Node, leader: nat, m: Msg)
    requires m.SendOld?
    ensures var out := HandleSendOld(n, leader, m);
            && out.node.cntPrepareConfirm == n.cntPrepareConfirm && out.node.isCommitBordcast == n.isCommitBordcast
            && forall c :: c in out.sent ==> !c.Commit?
  {
    PooledFromKeepsPrepares(n.(chain := ChainAfter(n.chain, m)), m.oldRequest, m.startHeight);
    AnsweredKeeps(CaughtUp(n, m), leader);
  }

  lemma {:induction false} PooledFromKeepsPrepares(n: Node, rs: seq<Request>, start: nat)
    ensures var out := PooledFrom(n, rs, start);
            out.cntPrepareConfirm == n.cntPrepareConfirm && out.isCommitBordcast == n.isCommitBordcast
  {
    if rs != [] { PooledFromKeepsPrepares(n, rs[..|rs|-1], start); }
  }

  /**
   * When a node decides to commit, in every run. Its count for a request is the number of prepare messages it has
   * counted, and it has decided exactly if that is at least 2f+1.
   */
  lemma {:induction false} DecidedIff(ss: seq<Sys>, acts: seq<Action>, k: nat, i: nat, d: Digest)
    requires IsRun(ss, acts) && k <= |acts| && i < |ss[0].nodes|
    ensures i < |ss[k].nodes|
    ensures CountOf(ss[k].nodes[i].cntPrepareConfirm, d) == PreparedTimes(ss, acts, k, i, d)
    ensures d in ss[k].nodes[i].isCommitBordcast <==> PreparedTimes(ss, acts, k, i, d) >= 2 * ss[k].f + 1
  {
    NetGrows(ss, acts, 0, k);
    if k == 0 {
      assert StartsOn(ss[0].nodes[i], i, ss[0].proposals);
    } else {
      DecidedIff(ss, acts, k - 1, i, d);
      VotesAfterStep(ss, acts, k - 1, i, d);
    }
  }

  lemma VotesAfterStep(ss: seq<Sys>, acts: seq<Action>, k: nat, i: nat, d: Digest)
    requires IsRun(ss, acts) && k < |acts| && i < |ss[k].nodes|
    requires VotesCounted(ss[k].nodes[i], ss[k].f, d, PreparedTimes(ss, acts, k, i, d))
    ensures i < |ss[k+1].nodes|
    ensures VotesCounted(ss[k+1].nodes[i], ss[k+1].f, d, PreparedTimes(ss, acts, k + 1, i, d))
    ensures DecidesAt(ss, acts, k, i, d)
       <==> PrepareCountsAt(ss, acts, k, i, d) && PreparedTimes(ss, acts, k + 1, i, d) == 2 * ss[k].f + 1
  {
    assert StepAt(ss, acts, k);
    match acts[k]
    case ProposeAct(_, _, _) =>
    case HandleAct(j, m) =>
      if j == i {
        VoteStep(ss[k].nodes[i], ss[k].f, ss[k].leader, m, d, PreparedTimes(ss, acts, k, i, d));
      }
  }

  /** The commit message goes out with the delivery that completes the count of 2f+1, and with no other. */
  lemma DecidesAtIff(ss: seq<Sys>, acts: seq<Action>, k: nat, i: nat, d: Digest)
    requires IsRun(ss, acts) && k < |acts| && i < |ss[0].nodes|
    ensures DecidesAt(ss, acts, k, i, d)
       <==> PrepareCountsAt(ss, acts, k, i, d) && PreparedTimes(ss, acts, k + 1, i, d) == 2 * ss[k].f + 1
  {
    DecidedIff(ss, acts, k, i, d);
    VotesAfterStep(ss, acts, k, i, d);
  }

  lemma {:induction false} PreparedTimesGrow(ss: seq<Sys>, acts: seq<Action>, j: nat, k: nat, i: nat, d: Digest)
    requires |ss| == |acts| + 1 && j <= k <= |acts|
    ensures PreparedTimes(ss, acts, j, i, d) <= PreparedTimes(ss, acts, k, i, d)
  {
    if j < k { PreparedTimesGrow(ss, acts, j, k - 1, i, d); }
  }

  /** It goes out once. */
  lemma DecidesOnce(ss: seq<Sys>, acts: seq<Action>, j: nat, k: nat, i: nat, d: Digest)
    requires IsRun(ss, acts) && j <= k < |acts| && i < |ss[0].nodes|
    requires DecidesAt(ss, acts, j, i, d) && DecidesAt(ss, acts, k, i, d)
    ensures j == k
  {
    DecidesAtIff(ss, acts, j, i, d);
    DecidesAtIff(ss, acts, k, i, d);
    NetGrows(ss, acts, j, k);
    if j < k { PreparedTimesGrow(ss, acts, j + 1, k, i, d); }
  }

  /** A commit message of node i for d is in the net exactly if it has counted 2f+1 prepare messages for d. */
  lemma {:induction false} CommitSentIff(ss: seq<Sys>, acts: seq<Action>, k: nat, i: nat, d: Digest)
    requires IsRun(ss, acts) && k <= |acts| && i < |ss[0].nodes|
    ensures (exists h :: Commit(d, h, i) in ss[k].net) <==> PreparedTimes(ss, acts, k, i, d) >= 2 * ss[k].f + 1
  {
    NetGrows(ss, acts, 0, k);
    if k > 0 {
      CommitSentIff(ss, acts, k - 1, i, d);
      DecidesAtIff(ss, acts, k - 1, i, d);
      SentByStep(ss, acts, k - 1, i, d);
    }
  }

  /** What one step adds to the commit messages of node i for d. */
  lemma SentByStep(ss: seq<Sys>, acts: seq<Action>, k: nat, i: nat, d: Digest)
    requires IsRun(ss, acts) && k < |acts| && i < |ss[0].nodes|
    ensures ss[k+1].f == ss[k].f
    ensures (exists h :: Commit(d, h, i) in ss[k+1].net)
       <==> (exists h :: Commit(d, h, i) in ss[k].net) || DecidesAt(ss, acts, k, i, d)
  {
    assert StepAt(ss, acts, k);
    RunKeepsInv(ss, acts, k);
    NetGrows(ss, acts, 0, k);
    match acts[k]
    case ProposeAct(_, _, _) =>
    case HandleAct(j, m) =>
      var n := ss[k].nodes[j];
      assert n.id == j;
      DecisionsStay(n, ss[k].f, ss[k].leader, m);
      if DecidesAt(ss, acts, k, i, d) {
        var c :| c in Handle(n, ss[k].f, ss[k].leader, m).sent && c.Commit? && c.digest == d;
        assert c == Commit(d, c.seqID, i) && c in ss[k+1].net;
      }
      if h :| Commit(d, h, i) in ss[k+1].net && Commit(d, h, i) !in ss[k].net {
        assert Commit(d, h, i) in Handle(n, ss[k].f, ss[k].leader, m).sent;
        assert DecidesAt(ss, acts, k, i, d);
      }
  }

  // ---------- what the stage stands for ----------

  /** In step j node i votes: it proposes, or answers a pre-prepare, or decides on a prepare message. */
  ghost predicate VotesAt(ss: seq<Sys>, acts: seq<Action>, j: nat, i: nat)
    requires |ss| == |acts| + 1 && j < |acts|
  {
    || (acts[j].ProposeAct? && i == ss[j].leader)
    || (acts[j].HandleAct? && acts[j].i == i < |ss[j].nodes|
        && CastsVote(ss[j].nodes[i], ss[j].f, ss[j].leader, acts[j].m))
  }

  predicate CastsVote(n: Node, f: nat, leader: nat, m: Msg) {
    (m.PrePrepare? || m.Prepare?) && Handle(n, f, leader, m).sent != {}
  }

  /** In step j a round ends at node i: a quorum of 2f+1 commits completes, or a blocked handler goes on. */
  ghost predicate RoundEndsAt(ss: seq<Sys>, acts: seq<Action>, j: nat, i: nat)
    requires |ss| == |acts| + 1 && j < |acts|
  {
    acts[j].HandleAct? && acts[j].i == i < |ss[j].nodes| && EndsRound(ss[j].nodes[i], ss[j].f, acts[j].m)
  }

  predicate EndsRound(n: Node, f: nat, m: Msg) {
    || (m.SendOld? && n.blocked.Question?)
    || (m.Commit? && m.seqID >= n.sequenceID && CountOf(n.cntCommitConfirm, m.digest) + 1 >= 2 * f + 1
        && m.digest !in n.isReply && (m.digest in n.requestPool || !n.askForLock))
  }

  /** How often node i has voted since its last round ended. */
  ghost function VotesInRound(ss: seq<Sys>, acts: seq<Action>, k: nat, i: nat): nat
    requires |ss| == |acts| + 1 && k <= |acts|
  {
    if k == 0 || RoundEndsAt(ss, acts, k - 1, i) then 0
    else VotesInRound(ss, acts, k - 1, i) + if VotesAt(ss, acts, k - 1, i) then 1 else 0
  }

  lemma StageStep(n: Node, f: nat, leader: nat, m: Msg)
    ensures Handle(n, f, leader, m).node.pbftStage
         == if EndsRound(n, f, m) then 1 else n.pbftStage + if CastsVote(n, f, leader, m) then 1 else 0
  {
    match m
    case PrePrepare(_, _, _) =>
    case Prepare(_, _, _) =>
    case Commit(_, _, _) => CommitStage(n, f, leader, m);
    case RequestOld(_, _, _) =>
    case SendOld(_, _, _, _) =>
      PooledFromKeepsStage(n.(chain := ChainAfter(n.chain, m)), m.oldRequest, m.startHeight);
  }

  lemma CommitStage(n: Node, f: nat, leader: nat, m: Msg)
    requires m.Commit?
    ensures HandleCommit(n, f, leader, m).node.pbftStage == if EndsRound(n, f, m) then 1 else n.pbftStage
  {
    var n1 := CountCommit(n, m.digest);
    EndRoundKeeps(Asking(n1, m.digest), leader);
    if m.digest in n.requestPool { EndRoundKeeps(CommitRequest(n1, m.digest), leader); }
  }

  lemma {:induction false} PooledFromKeepsStage(n: Node, rs: seq<Request>, start: nat)
    ensures var out := PooledFrom(n, rs, start);
            out.pbftStage == n.pbftStage && out.blocked == n.blocked
  {
    if rs != [] { PooledFromKeepsStage(n, rs[..|rs|-1], start); }
  }

  /** In a run that respects the waits the stage is one more than the votes cast in the round. */
  lemma {:induction false} StageIsVotes(ss: seq<Sys>, acts: seq<Action>, k: nat, i: nat)
    requires IsRun(ss, acts) && RespectsWaits(ss, acts) && k <= |acts| && i < |ss[0].nodes|
    ensures i < |ss[k].nodes| && ss[k].nodes[i].pbftStage == 1 + VotesInRound(ss, acts, k, i)
  {
    NetGrows(ss, acts, 0, k);
    if k == 0 {
      assert StartsOn(ss[0].nodes[i], i, ss[0].proposals);
    } else {
      StageIsVotes(ss, acts, k - 1, i);
      StageAfterStep(ss, acts, k - 1, i);
    }
  }

  lemma StageAfterStep(ss: seq<Sys>, acts: seq<Action>, k: nat, i: nat)
    requires IsRun(ss, acts) && RespectsWaits(ss, acts) && k < |acts| && i < |ss[k].nodes|
    requires ss[k].nodes[i].pbftStage == 1 + VotesInRound(ss, acts, k, i)
    ensures i < |ss[k+1].nodes| && ss[k+1].nodes[i].pbftStage == 1 + VotesInRound(ss, acts, k + 1, i)
  {
    assert StepAt(ss, acts, k) && InStage(ss[k], acts[k]);
    match acts[k]
    case ProposeAct(_, _, _) =>
    case HandleAct(j, m) =>
      if j == i { StageStep(ss[k].nodes[i], ss[k].f, ss[k].leader, m); }
  }

  /**
   * What the waits mean. In a run that respects them a handler of node i waits while another one of it is blocked,
   * a prepare message that is not out of date until the node has voted in its round, a commit message until it has
   * voted twice.
   */
  lemma WaitsIff(ss: seq<Sys>, acts: seq<Action>, k: nat, i: nat, m: Msg)
    requires IsRun(ss, acts) && RespectsWaits(ss, acts) && k <= |acts| && i < |ss[0].nodes|
    requires m.PrePrepare? || m.Prepare? || m.Commit?
    ensures i < |ss[k].nodes|
    ensures Waits(ss[k].nodes[i], m)
       <==> || ss[k].nodes[i].blocked != NoQuestion
            || (m.Prepare? && m.seqID >= ss[k].nodes[i].sequenceID && VotesInRound(ss, acts, k, i) == 0)
            || (m.Commit? && m.seqID >= ss[k].nodes[i].sequenceID && VotesInRound(ss, acts, k, i) <= 1)
  {
    StageIsVotes(ss, acts, k, i);
  }
}
