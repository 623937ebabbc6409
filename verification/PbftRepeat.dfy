/**
 * A run of four nodes that tolerate one faulty one, in which every handler waits for its stage and a block is added
 * on the word of a single node: its commit message is delivered three times.
 */
module PbftRepeat {
  import opened Pbft
  import opened PbftRuns
  import opened PbftQuorum

  const B1 := Block(Header(1, GenesisHash, [], 0), [])
  const R1 := Request(B1, 0)
  const D1 := Digest(R1)
  const PP := PrePrepare(R1, D1, 1)
  const C := Commit(D1, 1, 0)

  function P(i: nat): Msg {
    Prepare(D1, 1, i)
  }

  function Fresh(i: nat): Node {
    InitNode(i, [])
  }

  /** Node i after the pre-prepare. */
  function Prepared(i: nat): Node {
    Fresh(i).(requestPool := map[D1 := R1], height2Digest := map[1 := D1], pbftStage := 2)
  }

  // The leader with its proposal and k prepare messages, and after the quorum with k commit messages.
  const PROPOSED := Prepared(0).(sequenceLock := true)
  const QUORUM := PROPOSED.(cntPrepareConfirm := map[D1 := 3], isCommitBordcast := {D1}, pbftStage := 3)

  function Heard(k: nat): Node {
    if k == 0 then PROPOSED else PROPOSED.(cntPrepareConfirm := map[D1 := k])
  }

  function Voted(k: nat): Node {
    if k == 0 then QUORUM else QUORUM.(cntCommitConfirm := map[D1 := k])
  }

  const DONE := QUORUM.(cntCommitConfirm := map[D1 := 3], isReply := {D1}, chain := [B1], sequenceID := 2,
                        pbftStage := 1, sequenceLock := false)

  // ---------- the handlers ----------

  lemma Proposal()
    ensures Propose(Fresh(0), [], 0, 0) == Outcome(PROPOSED, {PP})
  {
    assert GenerateBlock([], [], 0) == B1;
  }

  lemma PrePrepared(i: nat)
    ensures HandlePrePrepare(Fresh(i), PP) == Outcome(Prepared(i), {P(i)})
  {
  }

  lemma PrepareHeard(k: nat, i: nat)
    requires k < 2
    ensures HandlePrepare(Heard(k), 1, P(i)) == Outcome(Heard(k + 1), {})
  {
    assert map[D1 := k][D1 := k + 1] == map[D1 := k + 1];
  }

  lemma LastPrepareHeard(i: nat)
    ensures HandlePrepare(Heard(2), 1, P(i)) == Outcome(QUORUM, {C})
  {
    assert map[D1 := 2][D1 := 3] == map[D1 := 3];
  }

  lemma CommitCounted(k: nat)
    requires k < 2
    ensures HandleCommit(Voted(k), 1, 0, C) == Outcome(Voted(k + 1), {})
  {
    assert map[D1 := k][D1 := k + 1] == map[D1 := k + 1];
  }

  lemma LastCommitCounted()
    ensures HandleCommit(Voted(2), 1, 0, C) == Outcome(DONE, {})
  {
    assert map[D1 := 2][D1 := 3] == map[D1 := 3];
    assert AddBlock([], B1) == [B1];
  }

  // ---------- the run ----------

  /** The leader in some state, and the first k other nodes prepared. */
  function World(l: Node, k: nat, net: set<Msg>): Sys
    requires k <= 3
  {
    Sys(0, 1, [l, if k >= 1 then Prepared(1) else Fresh(1), if k >= 2 then Prepared(2) else Fresh(2),
               if k >= 3 then Prepared(3) else Fresh(3)], net, [R1])
  }

  const NET := {PP} + {P(1)} + {P(2)} + {P(3)}

  lemma Start() returns (ss: seq<Sys>, acts: seq<Action>)
    ensures Reached(ss, acts, World(PROPOSED, 0, {PP}))
  {
    Proposal();
    var s := Sys(0, 1, [Fresh(0), Fresh(1), Fresh(2), Fresh(3)], {}, []);
    var s' := World(PROPOSED, 0, {PP});
    assert forall i :: 0 <= i < 4 ==> StartsOn(s.nodes[i], i, []);
    assert Reached([s], [], s);
    assert {} + {PP} == {PP} && [] + [R1] == [R1] && GenerateBlock([], [], 0) == B1;
    assert s.nodes[0 := PROPOSED] == s'.nodes;
    ss, acts := Extend([s], [], s, s', ProposeAct([], 0, 0));
  }

  /** The next node prepares. */
  lemma OnePrepares(ss0: seq<Sys>, acts0: seq<Action>, k: nat, net: set<Msg>)
    returns (ss: seq<Sys>, acts: seq<Action>)
    requires k < 3 && PP in net && Reached(ss0, acts0, World(PROPOSED, k, net))
    ensures Reached(ss, acts, World(PROPOSED, k + 1, net + {P(k + 1)}))
  {
    var s := World(PROPOSED, k, net);
    PrePrepared(k + 1);
    Handled(s, k + 1, PP, Prepared(k + 1), {P(k + 1)});
    assert s.nodes[k + 1 := Prepared(k + 1)] == World(PROPOSED, k + 1, net).nodes;
    ss, acts := Extend(ss0, acts0, s, World(PROPOSED, k + 1, net + {P(k + 1)}), HandleAct(k + 1, PP));
  }

  /** The leader handles one message. */
  lemma LeaderHandles(ss0: seq<Sys>, acts0: seq<Action>, l: Node, net: set<Msg>, m: Msg, l': Node, sent: set<Msg>)
    returns (ss: seq<Sys>, acts: seq<Action>)
    requires Reached(ss0, acts0, World(l, 3, net)) && m in net && !m.SendOld? && !Waits(l, m)
    requires Handle(l, 1, 0, m) == Outcome(l', sent)
    ensures Reached(ss, acts, World(l', 3, net + sent))
    ensures ss == ss0 + [World(l', 3, net + sent)] && acts == acts0 + [HandleAct(0, m)]
  {
    var s := World(l, 3, net);
    Handled(s, 0, m, l', sent);
    assert s.nodes[0 := l'] == World(l', 3, net).nodes;
    ss, acts := Extend(ss0, acts0, s, World(l', 3, net + sent), HandleAct(0, m));
  }

  /** Three nodes prepare, and the leader decides to commit on their three messages. */
  lemma Decision() returns (ss: seq<Sys>, acts: seq<Action>)
    ensures Reached(ss, acts, World(QUORUM, 3, NET + {C}))
  {
    ss, acts := Start();
    ss, acts := OnePrepares(ss, acts, 0, {PP});
    ss, acts := OnePrepares(ss, acts, 1, {PP} + {P(1)});
    ss, acts := OnePrepares(ss, acts, 2, {PP} + {P(1)} + {P(2)});
    PrepareHeard(0, 1);
    PrepareHeard(1, 2);
    LastPrepareHeard(3);
    assert NET + {} == NET;
    ss, acts := LeaderHandles(ss, acts, Heard(0), NET, P(1), Heard(1), {});
    ss, acts := LeaderHandles(ss, acts, Heard(1), NET, P(2), Heard(2), {});
    ss, acts := LeaderHandles(ss, acts, Heard(2), NET, P(3), QUORUM, {C});
  }

  /** Its own commit message reaches the leader, and reaches it again. */
  lemma TwoDeliveries() returns (ss: seq<Sys>, acts: seq<Action>)
    ensures Reached(ss, acts, World(Voted(2), 3, NET + {C}))
  {
    var net := NET + {C};
    ss, acts := Decision();
    CommitCounted(0);
    CommitCounted(1);
    assert net + {} == net;
    ss, acts := LeaderHandles(ss, acts, Voted(0), net, C, Voted(1), {});
    ss, acts := LeaderHandles(ss, acts, Voted(1), net, C, Voted(2), {});
  }

  lemma ThirdDelivery() returns (ss: seq<Sys>, acts: seq<Action>)
    ensures Reached(ss, acts, World(DONE, 3, NET + {C}))
    ensures |acts| > 0 && acts[|acts|-1] == HandleAct(0, C) && ss[|ss|-2] == World(Voted(2), 3, NET + {C})
  {
    var net := NET + {C};
    ss, acts := TwoDeliveries();
    LastCommitCounted();
    assert net + {} == net;
    ss, acts := LeaderHandles(ss, acts, Voted(2), net, C, DONE, {});
  }

  lemma OneCertifies(l: Node, x: nat)
    requires Certifies(World(l, 3, NET + {C}), x, D1)
    ensures x == 0
  {
    var h :| Commit(D1, h, x) in NET + {C};
    assert Commit(D1, h, x) == C;
  }

  /**
   * The run exists and respects every wait. Its last step adds a block on three deliveries that were counted, all
   * from one sender, where a quorum is three nodes.
   */
  lemma OneNodeIsEnough() returns (ss: seq<Sys>, acts: seq<Action>)
    ensures IsRun(ss, acts) && RespectsWaits(ss, acts) && |acts| > 0 && acts[|acts|-1] == HandleAct(0, C)
    ensures ss[|acts|-1].f == 1 && |ss[|acts|-1].nodes| == |ss[|acts|].nodes| == 4
    ensures ss[|acts|-1].nodes[0].chain == [] && ss[|acts|].nodes[0].chain == [B1]
    ensures CountedTimes(ss, acts, |acts|, 0, D1) == 3 && CountedSenders(ss, acts, |acts|, 0, D1) == {0}
    ensures !CountedOnce(ss, acts, |acts|, 0, D1)
  {
    ss, acts := ThirdDelivery();
    var k := |acts| - 1;
    QuorumCertificateIff(ss, acts, k, 0, C);
    forall x | x in CountedSenders(ss, acts, |acts|, 0, D1) ensures x == 0 {
      OneCertifies(Voted(2), x);
    }
    assert CountsAt(ss, acts, k, 0, D1) && 0 in CountedSenders(ss, acts, |acts|, 0, D1);
    assert CountedSenders(ss, acts, |acts|, 0, D1) == {0};
  }
}
