/** What a commit quorum says about the nodes of a shard (consensus_shard/pbft_all/messageHandle.go, toolFuncs.go). */
module PbftQuorum {
  import opened Pbft

  // ---------- one message, handled again and again ----------

  /** The node after handling the same message k times. */
  function HandledTimes(n: Node, f: nat, leader: nat, m: Msg, k: nat): Node {
    if k == 0 then n else Handle(HandledTimes(n, f, leader, m, k - 1), f, leader, m).node
  }

  function Counted(n: Node, d: Digest, k: nat): Node {
    if k == 0 then n else n.(cntCommitConfirm := n.cntCommitConfirm[d := k])
  }

  lemma CountedNext(n: Node, d: Digest, k: nat)
    requires d !in n.cntCommitConfirm
    ensures CountOf(Counted(n, d, k).cntCommitConfirm, d) == k
    ensures CountCommit(Counted(n, d, k), d) == Counted(n, d, k + 1)
  {
    if k > 0 {
      assert n.cntCommitConfirm[d := k][d := k + 1] == n.cntCommitConfirm[d := k + 1];
    }
  }

  lemma {:induction false} OneMessageCounts(n: Node, f: nat, leader: nat, m: Msg, k: nat)
    requires m.Commit? && m.seqID >= n.sequenceID && m.digest !in n.cntCommitConfirm && k <= 2 * f
    ensures HandledTimes(n, f, leader, m, k) == Counted(n, m.digest, k)
  {
    if k > 0 {
      var before, after := HandledTimes(n, f, leader, m, k - 1), Counted(n, m.digest, k);
      assert before == Counted(n, m.digest, k - 1) by { OneMessageCounts(n, f, leader, m, k - 1); }
      assert Handle(before, f, leader, m).node == after by { OneMoreCounted(n, f, leader, m, k - 1); }
    }
  }

  lemma OneMoreCounted(n: Node, f: nat, leader: nat, m: Msg, k: nat)
    requires m.Commit? && m.seqID >= n.sequenceID && m.digest !in n.cntCommitConfirm && k < 2 * f
    ensures Handle(Counted(n, m.digest, k), f, leader, m).node == Counted(n, m.digest, k + 1)
  {
    var before := Counted(n, m.digest, k);
    CountedNext(n, m.digest, k);
    assert before.sequenceID == n.sequenceID;
    BelowQuorum(before, f, leader, m);
  }

  lemma BelowQuorum(n: Node, f: nat, leader: nat, m: Msg)
    requires m.Commit? && m.seqID >= n.sequenceID && CountOf(n.cntCommitConfirm, m.digest) + 1 < 2 * f + 1
    ensures Handle(n, f, leader, m).node == CountCommit(n, m.digest)
  {
  }

  /** What a commit message leaves alone, whether or not it completes a quorum. */
  lemma CommitKeepsVotes(n: Node, f: nat, leader: nat, m: Msg)
    requires m.Commit?
    ensures var out := HandleCommit(n, f, leader, m).node;
            && out.isCommitBordcast == n.isCommitBordcast
            && (|| out.cntCommitConfirm == n.cntCommitConfirm
                || out.cntCommitConfirm == CountCommit(n, m.digest).cntCommitConfirm)
  {
    var n1 := CountCommit(n, m.digest);
    EndRoundKeeps(Asking(n1, m.digest), leader);
    if m.digest in n.requestPool { EndRoundKeeps(CommitRequest(n1, m.digest), leader); }
  }

  /**
   * A quorum needs 2f+1 deliveries, not 2f+1 nodes: one commit message handled 2f+1 times, and no fewer, extends
   * the chain of a node that waits for its block and holds the request.
   */
  lemma OneSenderSuffices(n: Node, ps: seq<Request>, f: nat, leader: nat, m: Msg)
    requires Handles(n, ps, leader, m) && m.Commit? && n.sequenceID == |n.chain| + 1 == m.seqID
    requires m.digest in n.requestPool && m.digest !in n.isReply && m.digest !in n.cntCommitConfirm
    ensures forall k: nat :: k <= 2 * f ==> HandledTimes(n, f, leader, m, k).chain == n.chain
    ensures HandledTimes(n, f, leader, m, 2 * f + 1).chain == n.chain + [ps[|n.chain|].block]
  {
    forall k: nat | k <= 2 * f ensures HandledTimes(n, f, leader, m, k).chain == n.chain {
      OneMessageCounts(n, f, leader, m, k);
    }
    OneMessageCounts(n, f, leader, m, 2 * f);
    var last := HandledTimes(n, f, leader, m, 2 * f);
    CountedNext(n, m.digest, 2 * f);
    CommitExtendsIff(last, ps, f, leader, m);
  }

  // ---------- counted deliveries ----------

  /** In step j node i counts a commit message for d: the message is delivered and not out of date. */
  ghost predicate CountsAt(ss: seq<Sys>, acts: seq<Action>, j: nat, i: nat, d: Digest)
    requires |ss| == |acts| + 1 && j < |acts|
  {
    && acts[j].HandleAct? && acts[j].i == i < |ss[j].nodes|
    && acts[j].m.Commit? && acts[j].m.digest == d && acts[j].m.seqID >= ss[j].nodes[i].sequenceID
  }

  /** How many deliveries for d node i counts in the first k steps. */
  ghost function CountedTimes(ss: seq<Sys>, acts: seq<Action>, k: nat, i: nat, d: Digest): nat
    requires |ss| == |acts| + 1 && k <= |acts|
  {
    if k == 0 then 0
    else CountedTimes(ss, acts, k - 1, i, d) + if CountsAt(ss, acts, k - 1, i, d) then 1 else 0
  }

  /** The senders of those deliveries. */
  ghost function CountedSenders(ss: seq<Sys>, acts: seq<Action>, k: nat, i: nat, d: Digest): set<nat>
    requires |ss| == |acts| + 1 && k <= |acts|
  {
    if k == 0 then {}
    else CountedSenders(ss, acts, k - 1, i, d) + if CountsAt(ss, acts, k - 1, i, d) then {acts[k-1].m.sender} else {}
  }

  /** In its first k steps node i counts no commit message for d twice. */
  ghost predicate CountedOnce(ss: seq<Sys>, acts: seq<Action>, k: nat, i: nat, d: Digest)
    requires |ss| == |acts| + 1 && k <= |acts|
  {
    forall j, h :: 0 <= j < h < k && CountsAt(ss, acts, j, i, d) && CountsAt(ss, acts, h, i, d) ==> acts[j] != acts[h]
  }

  /** A commit message is in the net only if its sender is a node that has decided to commit. */
  ghost predicate CommitsMeant(s: Sys) {
    forall m :: m in s.net && m.Commit? ==> m.sender < |s.nodes| && m.digest in s.nodes[m.sender].isCommitBordcast
  }

  /** A handler never takes back a decision to commit, and sends a commit message only with one. */
  lemma DecisionsStay(n: Node, f: nat, leader: nat, m: Msg)
    ensures n.isCommitBordcast <= Handle(n, f, leader, m).node.isCommitBordcast
    ensures forall c :: c in Handle(n, f, leader, m).sent && c.Commit? ==>
              c.sender == n.id && c.digest in Handle(n, f, leader, m).node.isCommitBordcast
  {
    match m
    case PrePrepare(_, _, _) =>
    case Prepare(_, _, _) =>
    case Commit(_, _, _) => CommitKeepsVotes(n, f, leader, m);
    case RequestOld(_, _, _) =>
    case SendOld(_, _, _, _) => CaughtUpKeeps(n, leader, m);
  }

  lemma {:induction false} PooledFromKeeps(n: Node, rs: seq<Request>, start: nat)
    ensures var out := PooledFrom(n, rs, start);
            && out.isCommitBordcast == n.isCommitBordcast && out.cntCommitConfirm == n.cntCommitConfirm
  {
    if rs != [] { PooledFromKeeps(n, rs[..|rs|-1], start); }
  }

  lemma CaughtUpKeeps(n: Node, leader: nat, m: Msg)
    requires m.SendOld?
    ensures HandleSendOld(n, leader, m).node.isCommitBordcast == n.isCommitBordcast
    ensures HandleSendOld(n, leader, m).node.cntCommitConfirm == n.cntCommitConfirm
  {
    var chain := ChainAfter(n.chain, m);
    PooledFromKeeps(n.(chain := chain), m.oldRequest, m.startHeight);
    AnsweredKeeps(CaughtUp(n, m), leader);
  }

  lemma MeantStays(s: Sys, s': Sys, a: Action)
    requires Inv(s) && Step(s, s', a) && CommitsMeant(s)
    ensures CommitsMeant(s')
  {
    match a
    case ProposeAct(_, _, _) =>
    case HandleAct(j, m) => DecisionsStay(s.nodes[j], s.f, s.leader, m);
  }

  /** A handler counts a commit message that is not out of date, and nothing else. */
  lemma CountsOne(n: Node, f: nat, leader: nat, m: Msg, d: Digest)
    ensures CountOf(Handle(n, f, leader, m).node.cntCommitConfirm, d)
         == CountOf(n.cntCommitConfirm, d) + if m.Commit? && m.digest == d && m.seqID >= n.sequenceID then 1 else 0
  {
    if m.Commit? && m.seqID >= n.sequenceID {
      CommitCounts(n, f, leader, m);
    } else {
      OthersCountNothing(n, f, leader, m);
    }
  }

  lemma OthersCountNothing(n: Node, f: nat, leader: nat, m: Msg)
    requires !(m.Commit? && m.seqID >= n.sequenceID)
    ensures Handle(n, f, leader, m).node.cntCommitConfirm == n.cntCommitConfirm
  {
    match m
    case PrePrepare(_, _, _) =>
    case Prepare(_, _, _) => PrepareKeeps(n, f, m);
    case Commit(_, _, _) =>
    case RequestOld(_, _, _) =>
    case SendOld(_, _, _, _) => CaughtUpKeeps(n, leader, m);
  }

  lemma CommitCounts(n: Node, f: nat, leader: nat, m: Msg)
    requires m.Commit? && m.seqID >= n.sequenceID
    ensures HandleCommit(n, f, leader, m).node.cntCommitConfirm == CountCommit(n, m.digest).cntCommitConfirm
  {
    var n1 := CountCommit(n, m.digest);
    EndRoundKeeps(Asking(n1, m.digest), leader);
    if m.digest in n.requestPool { EndRoundKeeps(CommitRequest(n1, m.digest), leader); }
  }

  /** A count beyond 2f means that the request is answered for. */
  ghost predicate AnsweredAbove(n: Node, f: nat, d: Digest) {
    d !in n.isReply ==> CountOf(n.cntCommitConfirm, d) <= 2 * f
  }

  lemma AnsweredAboveStays(n: Node, f: nat, leader: nat, m: Msg, d: Digest)
    requires AnsweredAbove(n, f, d)
    ensures AnsweredAbove(Handle(n, f, leader, m).node, f, d)
  {
    CountsOne(n, f, leader, m, d);
    RepliesStay(n, f, leader, m);
  }

  /** What is answered stays answered, and a full count is answered. */
  lemma RepliesStay(n: Node, f: nat, leader: nat, m: Msg)
    ensures n.isReply <= Handle(n, f, leader, m).node.isReply
    ensures m.Commit? && m.seqID >= n.sequenceID && CountOf(n.cntCommitConfirm, m.digest) + 1 >= 2 * f + 1 ==>
              m.digest in Handle(n, f, leader, m).node.isReply
  {
    match m
    case PrePrepare(_, _, _) =>
    case Prepare(_, _, _) => PrepareKeeps(n, f, m);
    case Commit(_, _, _) =>
      var n1 := CountCommit(n, m.digest);
      EndRoundKeeps(Asking(n1, m.digest), leader);
      if m.digest in n.requestPool { EndRoundKeeps(CommitRequest(n1, m.digest), leader); }
    case RequestOld(_, _, _) =>
    case SendOld(_, _, _, _) =>
      PooledFromReplies(n, m);
      AnsweredKeeps(CaughtUp(n, m), leader);
  }

  lemma PooledFromReplies(n: Node, m: Msg)
    requires m.SendOld?
    ensures n.isReply <= CaughtUp(n, m).isReply
  {
    var chain := ChainAfter(n.chain, m);
    PooledFromGrows(n.(chain := chain), m.oldRequest, m.startHeight);
  }

  lemma {:induction false} PooledFromGrows(n: Node, rs: seq<Request>, start: nat)
    ensures n.isReply <= PooledFrom(n, rs, start).isReply
  {
    if rs != [] { PooledFromGrows(n, rs[..|rs|-1], start); }
  }

  /** Two commit messages for one request differ only in their sender. */
  lemma SameDigestSameHeight(ps: seq<Request>, d: Digest, h: nat, h': nat)
    requires Linked(ps) && IsProposal(ps, h, d) && IsProposal(ps, h', d)
    ensures h == h'
  {
    assert LinkedAt(ps, h - 1) && LinkedAt(ps, h' - 1);
  }

  lemma {:induction false} NetGrows(ss: seq<Sys>, acts: seq<Action>, j: nat, k: nat)
    requires IsRun(ss, acts) && j <= k < |ss|
    ensures ss[j].net <= ss[k].net && ss[j].f == ss[k].f && |ss[j].nodes| == |ss[k].nodes|
  {
    if j < k {
      NetGrows(ss, acts, j, k - 1);
      assert StepAt(ss, acts, k - 1);
    }
  }

  /** In every run a node's count for a request is the number of deliveries it counted, 2f at most until answered. */
  lemma {:induction false} CountIsDeliveries(ss: seq<Sys>, acts: seq<Action>, k: nat, i: nat, d: Digest)
    requires IsRun(ss, acts) && k <= |acts| && i < |ss[0].nodes|
    ensures i < |ss[k].nodes| && CountOf(ss[k].nodes[i].cntCommitConfirm, d) == CountedTimes(ss, acts, k, i, d)
    ensures AnsweredAbove(ss[k].nodes[i], ss[k].f, d)
  {
    NetGrows(ss, acts, 0, k);
    if k == 0 {
      assert StartsOn(ss[0].nodes[i], i, ss[0].proposals);
    } else {
      CountIsDeliveries(ss, acts, k - 1, i, d);
      assert StepAt(ss, acts, k - 1);
      match acts[k-1]
      case ProposeAct(_, _, _) =>
      case HandleAct(j, m) =>
        CountsOne(ss[k-1].nodes[j], ss[k-1].f, ss[k-1].leader, m, d);
        if j == i { AnsweredAboveStays(ss[k-1].nodes[i], ss[k-1].f, ss[k-1].leader, m, d); }
    }
  }

  /** A sender counted was counted through one of its messages. */
  lemma {:induction false} HeardBefore(ss: seq<Sys>, acts: seq<Action>, k: nat, i: nat, d: Digest, x: nat)
    requires IsRun(ss, acts) && k <= |acts|
    ensures x in CountedSenders(ss, acts, k, i, d) <==> exists j :: 0 <= j < k && CountedFrom(ss, acts, j, i, d, x)
  {
    if k > 0 {
      HeardBefore(ss, acts, k - 1, i, d, x);
      assert x in CountedSenders(ss, acts, k, i, d)
        <==> x in CountedSenders(ss, acts, k - 1, i, d) || CountedFrom(ss, acts, k - 1, i, d, x);
    }
  }

  ghost predicate CountedFrom(ss: seq<Sys>, acts: seq<Action>, j: nat, i: nat, d: Digest, x: nat)
    requires |ss| == |acts| + 1 && j < |acts|
  {
    CountsAt(ss, acts, j, i, d) && acts[j].m.sender == x
  }

  /** Two deliveries counted for one request are of the same message exactly if they have the same sender. */
  lemma SameSenderSameMessage(ss: seq<Sys>, acts: seq<Action>, j: nat, h: nat, i: nat, d: Digest)
    requires IsRun(ss, acts) && j <= h < |acts| && CountsAt(ss, acts, j, i, d) && CountsAt(ss, acts, h, i, d)
    ensures acts[j].m.sender == acts[h].m.sender <==> acts[j] == acts[h]
  {
    var m, m' := acts[j].m, acts[h].m;
    assert StepAt(ss, acts, j) && StepAt(ss, acts, h);
    NetGrows(ss, acts, j, h);
    RunKeepsInv(ss, acts, h);
    assert MsgFollows(m, ss[h].proposals, ss[h].leader) && MsgFollows(m', ss[h].proposals, ss[h].leader);
    SameDigestSameHeight(ss[h].proposals, d, m.seqID, m'.seqID);
  }

  /** The next delivery to be counted comes from a sender heard before exactly if its message was counted before. */
  lemma NewSenderIff(ss: seq<Sys>, acts: seq<Action>, k: nat, i: nat, d: Digest)
    requires IsRun(ss, acts) && k < |acts| && CountsAt(ss, acts, k, i, d)
    ensures acts[k].m.sender in CountedSenders(ss, acts, k, i, d)
       <==> exists j :: 0 <= j < k && CountsAt(ss, acts, j, i, d) && acts[j] == acts[k]
  {
    HeardBefore(ss, acts, k, i, d, acts[k].m.sender);
    forall j | 0 <= j < k && CountsAt(ss, acts, j, i, d)
      ensures CountedFrom(ss, acts, j, i, d, acts[k].m.sender) <==> acts[j] == acts[k]
    {
      SameSenderSameMessage(ss, acts, j, k, i, d);
    }
  }

  /** There are never more senders than deliveries, and as many exactly if no message was counted twice. */
  lemma {:induction false} SendersAreDeliveriesIff(ss: seq<Sys>, acts: seq<Action>, k: nat, i: nat, d: Digest)
    requires IsRun(ss, acts) && k <= |acts|
    ensures |CountedSenders(ss, acts, k, i, d)| <= CountedTimes(ss, acts, k, i, d)
    ensures |CountedSenders(ss, acts, k, i, d)| == CountedTimes(ss, acts, k, i, d) <==> CountedOnce(ss, acts, k, i, d)
  {
    if k > 0 {
      SendersAreDeliveriesIff(ss, acts, k - 1, i, d);
      if CountsAt(ss, acts, k - 1, i, d) { NewSenderIff(ss, acts, k - 1, i, d); }
    }
  }

  /** The count is the number of senders heard exactly if no message was counted twice. */
  lemma CountIsSendersIff(ss: seq<Sys>, acts: seq<Action>, k: nat, i: nat, d: Digest)
    requires IsRun(ss, acts) && k <= |acts| && i < |ss[0].nodes|
    ensures i < |ss[k].nodes| && CountOf(ss[k].nodes[i].cntCommitConfirm, d) >= |CountedSenders(ss, acts, k, i, d)|
    ensures CountOf(ss[k].nodes[i].cntCommitConfirm, d) == |CountedSenders(ss, acts, k, i, d)|
       <==> CountedOnce(ss, acts, k, i, d)
  {
    CountIsDeliveries(ss, acts, k, i, d);
    SendersAreDeliveriesIff(ss, acts, k, i, d);
  }

  lemma {:induction false} MeantAlways(ss: seq<Sys>, acts: seq<Action>, k: nat)
    requires IsRun(ss, acts) && k < |ss|
    ensures CommitsMeant(ss[k])
  {
    if k > 0 {
      MeantAlways(ss, acts, k - 1);
      RunKeepsInv(ss, acts, k - 1);
      assert StepAt(ss, acts, k - 1);
      MeantStays(ss[k-1], ss[k], acts[k-1]);
    }
  }

  /** x is a node that has decided to commit d and whose message node i has handled. */
  ghost predicate Certifies(s: Sys, x: nat, d: Digest) {
    && x < |s.nodes| && d in s.nodes[x].isCommitBordcast
    && exists h :: Commit(d, h, x) in s.net
  }

  lemma SendersCertify(ss: seq<Sys>, acts: seq<Action>, k: nat, i: nat, d: Digest, x: nat)
    requires IsRun(ss, acts) && k < |acts| && x in CountedSenders(ss, acts, k + 1, i, d)
    ensures Certifies(ss[k], x, d)
  {
    HeardBefore(ss, acts, k + 1, i, d, x);
    var j :| 0 <= j < k + 1 && CountedFrom(ss, acts, j, i, d, x);
    assert StepAt(ss, acts, j);
    NetGrows(ss, acts, j, k);
    MeantAlways(ss, acts, k);
    assert Commit(d, acts[j].m.seqID, x) in ss[k].net;
  }

  lemma ExtendedByQuorum(s: Sys, s': Sys, i: nat, m: Msg)
    requires Inv(s) && HandleStep(s, s', i, m) && m.Commit? && s'.nodes[i].chain != s.nodes[i].chain
    ensures CountOf(s.nodes[i].cntCommitConfirm, m.digest) + 1 >= 2 * s.f + 1
    ensures m.seqID >= s.nodes[i].sequenceID && m.digest !in s.nodes[i].isReply
  {
    assert NodeFollows(s.nodes[i], s.proposals) && MsgFollows(m, s.proposals, s.leader);
    CommitExtendsIff(s.nodes[i], s.proposals, s.f, s.leader, m);
  }

  /** An extending delivery is the one that completes the count. */
  lemma ExtensionCounts(ss: seq<Sys>, acts: seq<Action>, k: nat, i: nat, m: Msg)
    requires IsRun(ss, acts) && k < |acts| && acts[k] == HandleAct(i, m) && m.Commit?
    requires i < |ss[k].nodes| && i < |ss[k+1].nodes| && ss[k+1].nodes[i].chain != ss[k].nodes[i].chain
    ensures CountedTimes(ss, acts, k + 1, i, m.digest) == 2 * ss[k].f + 1
  {
    assert StepAt(ss, acts, k);
    RunKeepsInv(ss, acts, k);
    NetGrows(ss, acts, 0, k);
    ExtendedByQuorum(ss[k], ss[k+1], i, m);
    CountIsDeliveries(ss, acts, k, i, m.digest);
    assert CountsAt(ss, acts, k, i, m.digest);
  }

  /**
   * What a commit quorum certifies, in every run. A block is added by a commit when exactly 2f+1 deliveries for it
   * have been counted. They come from 2f+1 different nodes if and only if the node counted no message twice; in
   * any case every sender counted is a node that has decided to commit the block and has sent word.
   */
  lemma QuorumCertificateIff(ss: seq<Sys>, acts: seq<Action>, k: nat, i: nat, m: Msg)
    requires IsRun(ss, acts) && k < |acts| && acts[k] == HandleAct(i, m) && m.Commit?
    requires i < |ss[k].nodes| && i < |ss[k+1].nodes| && ss[k+1].nodes[i].chain != ss[k].nodes[i].chain
    ensures CountedTimes(ss, acts, k + 1, i, m.digest) == 2 * ss[k].f + 1
    ensures |CountedSenders(ss, acts, k + 1, i, m.digest)| >= 2 * ss[k].f + 1
       <==> CountedOnce(ss, acts, k + 1, i, m.digest)
    ensures forall x :: x in CountedSenders(ss, acts, k + 1, i, m.digest) ==> Certifies(ss[k], x, m.digest)
  {
    ExtensionCounts(ss, acts, k, i, m);
    SendersAreDeliveriesIff(ss, acts, k + 1, i, m.digest);
    forall x | x in CountedSenders(ss, acts, k + 1, i, m.digest) ensures Certifies(ss[k], x, m.digest) {
      SendersCertify(ss, acts, k, i, m.digest, x);
    }
  }
}
