/**
 * A run of two nodes, in which every handler waits for its stage as the program makes it wait, and which leaves
 * one node behind for good. Node 1 misses the second pre-prepare; the commit for it arrives while node 1 is
 * waiting for commits of the first block.
 */
module PbftScenario {
  import opened Pbft
  import opened PbftCatchUp
  import opened PbftRuns

  const B1 := Block(Header(1, GenesisHash, [], 0), [])
  const B2 := Block(Header(2, HashOf(B1.header), [], 0), [])
  const R1 := Request(B1, 0)
  const R2 := Request(B2, 0)
  const D1 := Digest(R1)
  const D2 := Digest(R2)
  const PP1 := PrePrepare(R1, D1, 1)
  const PP2 := PrePrepare(R2, D2, 2)
  const P1 := Prepare(D1, 1, 1)
  const P2 := Prepare(D2, 2, 0)
  const C10 := Commit(D1, 1, 0)
  const C11 := Commit(D1, 1, 1)
  const C2 := Commit(D2, 2, 0)
  const ASK := RequestOld(2, 2, 1)
  const REPLY := SendOld(2, 2, [R2], 1)

  // The leader's states.
  const L0 := Node(0, [], 1, map[], map[], map[], map[], {}, {}, 1, false, false, NoQuestion, false)
  const L1 := L0.(requestPool := map[D1 := R1], height2Digest := map[1 := D1], pbftStage := 2, sequenceLock := true)
  const L2 := L1.(cntPrepareConfirm := map[D1 := 1], isCommitBordcast := {D1}, pbftStage := 3)
  const L3 := L2.(chain := [B1], sequenceID := 2, cntCommitConfirm := map[D1 := 1], isReply := {D1}, pbftStage := 1,
                  sequenceLock := false)
  const L4 := L3.(requestPool := map[D1 := R1, D2 := R2], height2Digest := map[1 := D1, 2 := D2], pbftStage := 2,
                  sequenceLock := true)
  const L5 := L4.(pbftStage := 3)
  const L6 := L5.(cntPrepareConfirm := map[D1 := 1, D2 := 1], isCommitBordcast := {D1, D2}, pbftStage := 4)

  // The other node's states.
  const N0 := Node(1, [], 1, map[], map[], map[], map[], {}, {}, 1, false, false, NoQuestion, false)
  const N1 := N0.(requestPool := map[D1 := R1], height2Digest := map[1 := D1], pbftStage := 2)
  const N2 := N1.(cntPrepareConfirm := map[D1 := 1], isCommitBordcast := {D1}, pbftStage := 3)
  const N3 := N2.(cntCommitConfirm := map[D2 := 1], isReply := {D2}, pbftStage := 1, askForLock := true)
  const N4 := N3.(requestPool := map[D1 := R1, D2 := R2], height2Digest := map[1 := D1, 2 := D2], sequenceID := 3,
                  askForLock := false)
  const N5 := N4.(crashed := true)

  function World(l: Node, n: Node, net: set<Msg>, proposals: seq<Request>): Sys {
    Sys(0, 0, [l, n], net, proposals)
  }

  // ---------- the handlers, one after the other ----------

  lemma Proposals()
    ensures Propose(L0, [], 0, 0) == Outcome(L1, {PP1}) && Propose(L3, [], 0, 0) == Outcome(L4, {PP2})
  {
    assert GenerateBlock([], [], 0) == B1 && GenerateBlock([B1], [], 0) == B2;
  }

  lemma FirstRound()
    ensures HandlePrePrepare(N0, PP1) == Outcome(N1, {P1})
    ensures HandlePrepare(N1, 0, P1) == Outcome(N2, {C11})
    ensures HandlePrepare(L1, 0, P1) == Outcome(L2, {C10})
  {
  }

  lemma FirstCommit()
    ensures HandleCommit(L2, 0, 0, C10) == Outcome(L3, {})
  {
    assert AddBlock([], B1) == [B1];
  }

  lemma SecondPrePrepare()
    ensures HandlePrePrepare(L4, PP2) == Outcome(L5, {P2})
  {
  }

  lemma SecondPrepare()
    ensures HandlePrepare(L5, 0, P2) == Outcome(L6, {C2})
  {
  }

  lemma Asked()
    ensures HandleCommit(N2, 0, 0, C2) == Outcome(N3, {ASK})
    ensures HandleRequestOld(L6, 0, ASK) == Outcome(L6, {REPLY})
  {
    assert Collected(L6, 3, 2) == [];
    assert Collected(L6, 2, 2) == [R2] + [] == [R2];
  }

  lemma Answer()
    ensures HandleSendOld(N3, 0, REPLY) == Outcome(N4, {})
  {
    var rs := [R2];
    assert rs[..0] == [];
    assert AddBlocks([], rs) == AddBlock([], B2) == [];
    assert PooledFrom(N3, [], 2) == N3;
    assert PooledFrom(N3, rs, 2) == Pooled(N3, R2, 2).(isReply := {D2});
  }

  lemma AnswerAgain()
    ensures HandleSendOld(N4, 0, REPLY) == Outcome(N5, {})
  {
    var rs := [R2];
    assert rs[..0] == [];
    assert AddBlocks([], rs) == AddBlock([], B2) == [];
    assert PooledFrom(N4, [], 2) == N4;
    assert PooledFrom(N4, rs, 2) == Pooled(N4, R2, 2) == N4;
  }

  // ---------- one step of the two-node system ----------

  lemma LeaderProposes(l: Node, l': Node, n: Node, net: set<Msg>, ps: seq<Request>, r: Request, pp: Msg)
    requires Propose(l, [], 0, 0) == Outcome(l', {pp}) && r == Request(GenerateBlock(l.chain, [], 0), 0)
    requires !l.sequenceLock && l.pbftStage == 1
    ensures Follows(World(l, n, net, ps), World(l', n, net + {pp}, ps + [r]), ProposeAct([], 0, 0))
  {
    assert [l, n][0 := l'] == [l', n];
  }

  lemma LeaderHandles(l: Node, l': Node, n: Node, net: set<Msg>, ps: seq<Request>, m: Msg, sent: set<Msg>)
    requires Handle(l, 0, 0, m) == Outcome(l', sent) && m in net && !m.SendOld? && !Waits(l, m)
    ensures Follows(World(l, n, net, ps), World(l', n, net + sent, ps), HandleAct(0, m))
  {
    assert [l, n][0 := l'] == [l', n];
  }

  lemma OtherHandles(l: Node, n: Node, n': Node, net: set<Msg>, ps: seq<Request>, m: Msg, sent: set<Msg>)
    requires Handle(n, 0, 0, m) == Outcome(n', sent) && m in net && (m.SendOld? ==> m.to == 1) && !Waits(n, m)
    ensures Follows(World(l, n, net, ps), World(l, n', net + sent, ps), HandleAct(1, m))
  {
    assert [l, n][1 := n'] == [l, n'];
  }

  // ---------- the run ----------

  lemma Start() returns (ss: seq<Sys>, acts: seq<Action>)
    ensures Reached(ss, acts, World(L0, N0, {}, []))
  {
    assert StartsOn(L0, 0, []) && StartsOn(N0, 1, []);
    ss, acts := [World(L0, N0, {}, [])], [];
  }

  const NET1 := {PP1} + {P1} + {C11} + {C10} + {}
  const NET2 := NET1 + {PP2} + {P2} + {C2}
  const LAST := World(L6, N4, NET2 + {ASK} + {REPLY} + {}, [R1, R2])

  /** The first block is proposed and then committed at the leader and prepared at node 1. */
  lemma FirstProposal() returns (ss: seq<Sys>, acts: seq<Action>)
    ensures Reached(ss, acts, World(L1, N1, {PP1} + {P1}, [R1]))
  {
    Proposals();
    FirstRound();
    ss, acts := Start();
    LeaderProposes(L0, L1, N0, {}, [], R1, PP1);
    assert {} + {PP1} == {PP1} && [] + [R1] == [R1];
    ss, acts := Extend(ss, acts, World(L0, N0, {}, []), World(L1, N0, {PP1}, [R1]), ProposeAct([], 0, 0));
    var net := {PP1};
    OtherHandles(L1, N0, N1, net, [R1], PP1, {P1});
    ss, acts := Extend(ss, acts, World(L1, N0, net, [R1]), World(L1, N1, net + {P1}, [R1]), HandleAct(1, PP1));
  }

  lemma FirstQuorum(ss0: seq<Sys>, acts0: seq<Action>) returns (ss: seq<Sys>, acts: seq<Action>)
    requires Reached(ss0, acts0, World(L1, N1, {PP1} + {P1}, [R1]))
    ensures Reached(ss, acts, World(L3, N2, NET1, [R1]))
  {
    FirstRound();
    FirstCommit();
    var net := {PP1} + {P1};
    OtherHandles(L1, N1, N2, net, [R1], P1, {C11});
    ss, acts := Extend(ss0, acts0, World(L1, N1, net, [R1]), World(L1, N2, net + {C11}, [R1]), HandleAct(1, P1));
    net := net + {C11};
    LeaderHandles(L1, L2, N2, net, [R1], P1, {C10});
    ss, acts := Extend(ss, acts, World(L1, N2, net, [R1]), World(L2, N2, net + {C10}, [R1]), HandleAct(0, P1));
    net := net + {C10};
    LeaderHandles(L2, L3, N2, net, [R1], C10, {});
    ss, acts := Extend(ss, acts, World(L2, N2, net, [R1]), World(L3, N2, net + {}, [R1]), HandleAct(0, C10));
  }

  /** The second block: its commit reaches node 1, which has not seen its pre-prepare. */
  lemma SecondHalf(ss0: seq<Sys>, acts0: seq<Action>) returns (ss: seq<Sys>, acts: seq<Action>)
    requires Reached(ss0, acts0, World(L3, N2, NET1, [R1]))
    ensures Reached(ss, acts, World(L6, N2, NET2, [R1, R2]))
  {
    Proposals();
    SecondPrePrepare();
    SecondPrepare();
    var ps := [R1, R2];
    LeaderProposes(L3, L4, N2, NET1, [R1], R2, PP2);
    assert [R1] + [R2] == ps;
    ss, acts := Extend(ss0, acts0, World(L3, N2, NET1, [R1]), World(L4, N2, NET1 + {PP2}, ps), ProposeAct([], 0, 0));
    var net := NET1 + {PP2};
    LeaderHandles(L4, L5, N2, net, ps, PP2, {P2});
    ss, acts := Extend(ss, acts, World(L4, N2, net, ps), World(L5, N2, net + {P2}, ps), HandleAct(0, PP2));
    net := net + {P2};
    LeaderHandles(L5, L6, N2, net, ps, P2, {C2});
    ss, acts := Extend(ss, acts, World(L5, N2, net, ps), World(L6, N2, net + {C2}, ps), HandleAct(0, P2));
  }

  lemma Question(ss0: seq<Sys>, acts0: seq<Action>) returns (ss: seq<Sys>, acts: seq<Action>)
    requires Reached(ss0, acts0, World(L6, N2, NET2, [R1, R2]))
    ensures Reached(ss, acts, World(L6, N3, NET2 + {ASK} + {REPLY}, [R1, R2]))
  {
    Asked();
    var ps, net := [R1, R2], NET2;
    OtherHandles(L6, N2, N3, net, ps, C2, {ASK});
    ss, acts := Extend(ss0, acts0, World(L6, N2, net, ps), World(L6, N3, net + {ASK}, ps), HandleAct(1, C2));
    net := net + {ASK};
    LeaderHandles(L6, L6, N3, net, ps, ASK, {REPLY});
    ss, acts := Extend(ss, acts, World(L6, N3, net, ps), World(L6, N3, net + {REPLY}, ps), HandleAct(0, ASK));
  }

  lemma TooLate(ss0: seq<Sys>, acts0: seq<Action>) returns (ss: seq<Sys>, acts: seq<Action>)
    requires Reached(ss0, acts0, World(L6, N3, NET2 + {ASK} + {REPLY}, [R1, R2]))
    ensures Reached(ss, acts, LAST) && acts == acts0 + [HandleAct(1, REPLY)]
  {
    Answer();
    var ps, net := [R1, R2], NET2 + {ASK} + {REPLY};
    OtherHandles(L6, N3, N4, net, ps, REPLY, {});
    ss, acts := Extend(ss0, acts0, World(L6, N3, net, ps), LAST, HandleAct(1, REPLY));
  }

  lemma NodeOneIsBypassed()
    ensures Bypassed(LAST, 1)
  {
    forall m | m in LAST.net && Concerns(m, 1) ensures Beyond(m, 0) {
      assert m == ASK || m == REPLY;
    }
  }

  /**
   * The run exists and respects every wait. It ends with node 1 on an empty chain and bypassed, which no later
   * step mends, while the leader has committed.
   */
  lemma ANodeFallsBehind() returns (ss: seq<Sys>, acts: seq<Action>)
    ensures Reached(ss, acts, LAST) && Bypassed(LAST, 1)
    ensures LAST.nodes[0].chain == [B1] && LAST.nodes[1].chain == []
  {
    ss, acts := FirstProposal();
    ss, acts := FirstQuorum(ss, acts);
    ss, acts := SecondHalf(ss, acts);
    ss, acts := Question(ss, acts);
    ss, acts := TooLate(ss, acts);
    NodeOneIsBypassed();
  }

  /** If the network delivers the leader's reply again, node 1 releases a lock it does not hold. */
  lemma DuplicateReplyCrashes() returns (ss: seq<Sys>, acts: seq<Action>)
    ensures IsRun(ss, acts) && RespectsWaits(ss, acts) && |acts| >= 2 && acts[|acts|-1] == acts[|acts|-2]
    ensures |ss[|ss|-2].nodes| == |ss[|ss|-1].nodes| == 2
    ensures !ss[|ss|-2].nodes[1].crashed && ss[|ss|-1].nodes[1].crashed
  {
    ss, acts := FirstProposal();
    ss, acts := FirstQuorum(ss, acts);
    ss, acts := SecondHalf(ss, acts);
    ss, acts := Question(ss, acts);
    ss, acts := TooLate(ss, acts);
    AnswerAgain();
    OtherHandles(L6, N4, N5, LAST.net, [R1, R2], REPLY, {});
    ss, acts := Extend(ss, acts, LAST, World(L6, N5, LAST.net + {}, [R1, R2]), HandleAct(1, REPLY));
  }
}
