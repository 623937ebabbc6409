/** What the catch-up path of the consensus can and cannot do (consensus_shard/pbft_all/messageHandle.go). */
module PbftCatchUp {
  import opened Pbft

  // ---------- one reply ----------

  /** How far a chain gets when consecutive proposals from a height on are added to it. */
  lemma {:induction false} AddBlocksReach(chain: seq<Block>, ps: seq<Request>, rs: seq<Request>, start: nat)
    requires ChainFollows(chain, ps) && Linked(ps) && start >= 1
    requires forall i :: 0 <= i < |rs| ==> IsProposal(ps, start + i, Digest(rs[i]))
    ensures |AddBlocks(chain, rs)| == if start <= |chain| + 1 < start + |rs| then start + |rs| - 1 else |chain|
  {
    if rs != [] {
      var n := |rs| - 1;
      var before := AddBlocks(chain, rs[..n]);
      AddBlocksReach(chain, ps, rs[..n], start);
      assert ChainFollows(before, ps) by { AddBlocksFollows(chain, ps, rs[..n], start); }
      assert IsProposal(ps, start + n, Digest(rs[n])) && rs[n] == ps[start + n - 1];
      LastBlockFits(before, ps, start + n - 1);
      assert AddBlocks(chain, rs) == AddBlock(before, rs[n].block);
    }
  }

  /** A proposed block is added exactly if it is the one for the next height. */
  lemma LastBlockFits(chain: seq<Block>, ps: seq<Request>, j: nat)
    requires ChainFollows(chain, ps) && Linked(ps) && j < |ps|
    ensures |AddBlock(chain, ps[j].block)| == if j == |chain| then |chain| + 1 else |chain|
  {
    FollowingNumbers(chain, ps);
    AddBlockFollows(chain, ps, j);
    assert LinkedAt(ps, j);
  }

  /** The reply carries every height it was asked for. */
  predicate Complete(m: Msg)
    requires m.SendOld?
  {
    m.endHeight - m.startHeight + 1 == |m.oldRequest|
  }

  /**
   * A catch-up reply extends a chain exactly when it is complete and covers the height after the chain; the chain
   * then ends at the reply's last height.
   */
  lemma CatchUpExtendsIff(n: Node, ps: seq<Request>, leader: nat, m: Msg)
    requires Handles(n, ps, leader, m) && m.SendOld?
    ensures HandleSendOld(n, leader, m).node.chain != n.chain
       <==> Complete(m) && m.startHeight <= |n.chain| + 1 <= m.endHeight
    ensures HandleSendOld(n, leader, m).node.chain != n.chain ==>
              |HandleSendOld(n, leader, m).node.chain| == m.endHeight
  {
    CaughtUpChain(n, m);
    AnsweredKeeps(CaughtUp(n, m), leader);
    AddBlocksReach(n.chain, ps, m.oldRequest, m.startHeight);
    AddBlocksGrow(n.chain, m.oldRequest);
  }

  /**
   * A node that reaches a quorum for a request it lacks asks from the height after the one it is waiting for, or
   * blocks if an earlier question is open. No reply to such a question adds a block while the node still waits for
   * the same height.
   */
  lemma CatchUpSkipsTheMissingBlock(n: Node, ps: seq<Request>, f: nat, leader: nat, m: Msg, reply: Msg)
    requires Handles(n, ps, leader, m) && m.Commit? && n.id != leader
    requires n.sequenceID == |n.chain| + 1 <= m.seqID && LacksCommitted(n, f, m.digest)
    requires reply.SendOld? && reply.startHeight == n.sequenceID + 1 && MsgFollows(reply, ps, leader)
    ensures HandleCommit(n, f, leader, m).sent
         == if n.askForLock then {} else {RequestOld(|n.chain| + 2, m.seqID, n.id)}
    ensures n.askForLock ==> HandleCommit(n, f, leader, m).node.blocked == Question(m.seqID)
    ensures HandleSendOld(HandleCommit(n, f, leader, m).node, leader, reply).node.chain == n.chain
  {
    var n1 := HandleCommit(n, f, leader, m).node;
    CommitFollows(n, ps, f, leader, m);
    CommitKeepsPool(n, f, leader, m);
    EndRoundKeeps(Asking(CountCommit(n, m.digest), m.digest), leader);
    CatchUpExtendsIff(n1, ps, leader, reply);
  }

  /** A handler that goes on after a reply asks from the second height after the reply's last. */
  lemma BlockedAsksLater(n: Node, leader: nat, m: Msg)
    requires m.SendOld? && n.blocked.Question?
    ensures RequestOld(m.endHeight + 2, n.blocked.endHeight, n.id) in HandleSendOld(n, leader, m).sent
    ensures HandleSendOld(n, leader, m).node.askForLock && HandleSendOld(n, leader, m).node.blocked == NoQuestion
  {
    CaughtUpKeepsId(n, m);
    AnsweredKeeps(CaughtUp(n, m), leader);
  }

  lemma CaughtUpKeepsId(n: Node, m: Msg)
    requires m.SendOld?
    ensures CaughtUp(n, m).id == n.id && CaughtUp(n, m).blocked == n.blocked
    ensures CaughtUp(n, m).askForLock == n.askForLock
    ensures CaughtUp(n, m).sequenceID == m.endHeight + 1
  {
    var chain := ChainAfter(n.chain, m);
    PooledFromKeepsId(n.(chain := chain), m.oldRequest, m.startHeight);
  }

  lemma {:induction false} PooledFromKeepsId(n: Node, rs: seq<Request>, start: nat)
    ensures var out := PooledFrom(n, rs, start);
            out.id == n.id && out.blocked == n.blocked && out.askForLock == n.askForLock
  {
    if rs != [] { PooledFromKeepsId(n, rs[..|rs|-1], start); }
  }

  // ---------- what is asked for, sent and kept ----------

  /** The node holds the request for a height. */
  predicate HoldsHeight(n: Node, h: nat) {
    h in n.height2Digest && n.height2Digest[h] in n.requestPool
  }

  /** What is sent for heights from..last: the requests held, height by height, up to the first that is missing. */
  lemma {:induction false} CollectedIs(n: Node, from: nat, last: nat)
    ensures Collected(n, from, last) != [] ==> from + |Collected(n, from, last)| <= last + 1
    ensures forall h :: from <= h < from + |Collected(n, from, last)| ==>
              HoldsHeight(n, h) && Collected(n, from, last)[h - from] == n.requestPool[n.height2Digest[h]]
    ensures from + |Collected(n, from, last)| <= last ==> !HoldsHeight(n, from + |Collected(n, from, last)|)
    decreases last + 1 - from
  {
    if from <= last && HoldsHeight(n, from) {
      var rest := Collected(n, from + 1, last);
      CollectedIs(n, from + 1, last);
      assert Collected(n, from, last) == [n.requestPool[n.height2Digest[from]]] + rest;
      forall h | from <= h < from + |rest| + 1
        ensures HoldsHeight(n, h) && Collected(n, from, last)[h - from] == n.requestPool[n.height2Digest[h]]
      {
        if h > from { assert HoldsHeight(n, h) && rest[h - (from + 1)] == n.requestPool[n.height2Digest[h]]; }
      }
    }
  }

  /** Only the leader answers, to the node that asked, and its answer is complete exactly if no height is missing. */
  lemma QuestionAnsweredIff(n: Node, leader: nat, m: Msg)
    requires m.RequestOld?
    ensures HandleRequestOld(n, leader, m).node == n
    ensures HandleRequestOld(n, leader, m).sent != {} <==> n.id == leader
    ensures forall c :: c in HandleRequestOld(n, leader, m).sent ==>
              && c == SendOld(m.startHeight, m.endHeight, Collected(n, m.startHeight, m.endHeight), m.sender)
              && (Complete(c) <==> m.startHeight <= m.endHeight + 1
                                   && forall h :: m.startHeight <= h <= m.endHeight ==> HoldsHeight(n, h))
  {
    var rs := Collected(n, m.startHeight, m.endHeight);
    CollectedIs(n, m.startHeight, m.endHeight);
  }

  /** What a node keeps of a reply: every request under its height, and no other height changes. */
  lemma {:induction false} RepliedHeights(n: Node, rs: seq<Request>, start: nat, h: nat)
    ensures var after := PooledFrom(n, rs, start).height2Digest;
            if start <= h < start + |rs| then h in after && after[h] == Digest(rs[h - start])
            else (h in after <==> h in n.height2Digest) && (h in after ==> after[h] == n.height2Digest[h])
  {
    if rs != [] { RepliedHeights(n, rs[..|rs|-1], start, h); }
  }

  /** Its requests are held and answered for, and no others are added. */
  lemma {:induction false} RepliedRequests(n: Node, rs: seq<Request>, start: nat, d: Digest)
    ensures var out := PooledFrom(n, rs, start);
            && (d in out.isReply <==> d in n.isReply || d.request in rs)
            && (d in out.requestPool <==> d in n.requestPool || d.request in rs)
            && (d in out.requestPool ==> out.requestPool[d] == if d.request in rs then d.request else n.requestPool[d])
  {
    if rs != [] {
      assert rs == rs[..|rs|-1] + [rs[|rs|-1]];
      RepliedRequests(n, rs[..|rs|-1], start, d);
    }
  }

  /** After a reply a prepare message goes out exactly if the next height's request is held and fits the chain. */
  lemma ReplyVotesIff(n: Node, leader: nat, m: Msg)
    requires m.SendOld?
    ensures var n1 := CaughtUp(n, m);
            (exists c :: c in HandleSendOld(n, leader, m).sent && c.Prepare?)
            <==> HoldsHeight(n1, m.endHeight + 1) && FitsChain(n1, m.endHeight + 1)
  {
    var n1 := CaughtUp(n, m);
    AnsweredKeeps(n1, leader);
    if HoldsHeight(n1, m.endHeight + 1) && FitsChain(n1, m.endHeight + 1) {
      var r := n1.requestPool[n1.height2Digest[m.endHeight + 1]];
      assert Prepare(Digest(r), m.endHeight + 1, n1.id) in HandleSendOld(n, leader, m).sent;
    }
  }

  /** The block held for a height names the chain's last block as its parent and has the stated body. */
  predicate FitsChain(n: Node, h: nat)
    requires HoldsHeight(n, h)
  {
    var b := n.requestPool[n.height2Digest[h]].block;
    && b.body == b.header.txRoot
    && b.header.parent == if n.chain == [] then GenesisHash else HashOf(n.chain[|n.chain|-1].header)
  }

  // ---------- falling behind ----------

  /**
   * A node is in step when it waits for the height after its chain. A handler puts it past that height exactly
   * when a quorum completes for a later request it holds, or a reply ends beyond its chain without extending it.
   */
  lemma FallsBehindIff(n: Node, ps: seq<Request>, f: nat, leader: nat, m: Msg)
    requires Handles(n, ps, leader, m) && n.sequenceID == |n.chain| + 1
    ensures Handle(n, f, leader, m).node.sequenceID > |Handle(n, f, leader, m).node.chain| + 1
       <==> || (m.Commit? && m.seqID > n.sequenceID && CountOf(n.cntCommitConfirm, m.digest) + 1 >= 2 * f + 1
                && m.digest !in n.isReply && m.digest in n.requestPool)
            || (m.SendOld? && m.endHeight > |n.chain| && !(Complete(m) && m.startHeight <= |n.chain| + 1))
  {
    match m
    case PrePrepare(_, _, _) =>
    case Prepare(_, _, _) => PrepareKeeps(n, f, m);
    case RequestOld(_, _, _) =>
    case Commit(_, _, _) =>
      CommitExtendsIff(n, ps, f, leader, m);
      CommitMovesOn(n, f, leader, m);
    case SendOld(_, _, _, _) =>
      CatchUpExtendsIff(n, ps, leader, m);
      CaughtUpKeepsId(n, m);
      AnsweredKeeps(CaughtUp(n, m), leader);
  }

  /** The sequence number after a commit message. */
  lemma CommitMovesOn(n: Node, f: nat, leader: nat, m: Msg)
    requires m.Commit?
    ensures HandleCommit(n, f, leader, m).node.sequenceID
         == if m.seqID >= n.sequenceID && CountOf(n.cntCommitConfirm, m.digest) + 1 >= 2 * f + 1
               && m.digest !in n.isReply && m.digest in n.requestPool
            then n.sequenceID + 1 else n.sequenceID
  {
    var n1 := CountCommit(n, m.digest);
    EndRoundKeeps(Asking(n1, m.digest), leader);
    if m.digest in n.requestPool { EndRoundKeeps(CommitRequest(n1, m.digest), leader); }
  }

  predicate Beyond(m: Msg, height: nat)
    requires m.RequestOld? || m.SendOld?
  {
    m.startHeight > height + 1 && m.endHeight > height
  }

  /** The node waits for a height beyond the next one, and so does a handler blocked in it. */
  predicate WaitsBeyond(n: Node) {
    n.sequenceID > |n.chain| + 1 && (n.blocked.Question? ==> n.blocked.endHeight > |n.chain|)
  }

  /** Node i waits for a height beyond the next one, and so do all its questions and their answers. */
  ghost predicate Bypassed(s: Sys, i: nat) {
    && i < |s.nodes| && i != s.leader && WaitsBeyond(s.nodes[i])
    && (forall m :: m in s.net && Concerns(m, i) ==> Beyond(m, |s.nodes[i].chain|))
  }

  predicate Concerns(m: Msg, i: nat) {
    (m.RequestOld? && m.sender == i) || (m.SendOld? && m.to == i)
  }

  lemma BypassedHandler(n: Node, ps: seq<Request>, f: nat, leader: nat, m: Msg)
    requires Handles(n, ps, leader, m) && n.id != leader && WaitsBeyond(n)
    requires m.SendOld? ==> m.to == n.id && Beyond(m, |n.chain|)
    ensures StaysBeyond(n, Handle(n, f, leader, m))
  {
    match m
    case PrePrepare(_, _, _) =>
    case Prepare(_, _, _) => PrepareKeeps(n, f, m);
    case RequestOld(_, _, _) =>
    case Commit(_, _, _) => BypassedCommit(n, ps, f, leader, m);
    case SendOld(_, _, _, _) => BypassedReply(n, ps, leader, m);
  }

  ghost predicate StaysBeyond(n: Node, out: Outcome) {
    && out.node.chain == n.chain && WaitsBeyond(out.node)
    && forall c :: c in out.sent && Concerns(c, n.id) ==> Beyond(c, |n.chain|)
  }

  lemma BypassedCommit(n: Node, ps: seq<Request>, f: nat, leader: nat, m: Msg)
    requires Handles(n, ps, leader, m) && n.id != leader && WaitsBeyond(n) && m.Commit?
    ensures StaysBeyond(n, HandleCommit(n, f, leader, m))
  {
    CommitExtendsIff(n, ps, f, leader, m);
    CommitMovesOn(n, f, leader, m);
  }

  lemma BypassedReply(n: Node, ps: seq<Request>, leader: nat, m: Msg)
    requires Handles(n, ps, leader, m) && n.id != leader && WaitsBeyond(n) && m.SendOld? && Beyond(m, |n.chain|)
    ensures StaysBeyond(n, HandleSendOld(n, leader, m))
  {
    CatchUpExtendsIff(n, ps, leader, m);
    CaughtUpKeepsId(n, m);
    AnsweredKeeps(CaughtUp(n, m), leader);
  }

  /** What another node sends about node i repeats one of i's questions. */
  lemma OthersRepeat(n: Node, f: nat, leader: nat, m: Msg, i: nat, height: nat)
    requires n.id != i && (Concerns(m, i) ==> Beyond(m, height))
    ensures forall c :: c in Handle(n, f, leader, m).sent && Concerns(c, i) ==> Beyond(c, height)
  {
    if m.SendOld? {
      CaughtUpKeepsId(n, m);
      AnsweredKeeps(CaughtUp(n, m), leader);
    }
  }

  lemma BypassedStays(s: Sys, s': Sys, a: Action, i: nat)
    requires Inv(s) && Step(s, s', a) && Bypassed(s, i)
    ensures Bypassed(s', i) && s'.leader == s.leader && s'.nodes[i].chain == s.nodes[i].chain
  {
    match a
    case ProposeAct(body, content, reqTime) =>
    case HandleAct(j, m) =>
      assert NodeFollows(s.nodes[j], s.proposals) && MsgFollows(m, s.proposals, s.leader);
      if j == i {
        BypassedHandler(s.nodes[i], s.proposals, s.f, s.leader, m);
      } else {
        OthersRepeat(s.nodes[j], s.f, s.leader, m, i, |s.nodes[i].chain|);
      }
  }

  /** A bypassed node never gets another block, in whatever run and however often it asks. */
  lemma {:induction false} NeverCatchesUp(ss: seq<Sys>, acts: seq<Action>, j: nat, k: nat, i: nat)
    requires IsRun(ss, acts) && j <= k < |ss| && Bypassed(ss[j], i)
    ensures Bypassed(ss[k], i) && ss[k].nodes[i].chain == ss[j].nodes[i].chain
    decreases k
  {
    if j < k {
      NeverCatchesUp(ss, acts, j, k - 1, i);
      RunKeepsInv(ss, acts, k - 1);
      assert StepAt(ss, acts, k - 1);
      BypassedStays(ss[k-1], ss[k], acts[k-1], i);
    }
  }
}
