/**
 * Consensus inside one shard in a fixed view, as a state machine over messages that may be delayed, reordered,
 * lost or duplicated (consensus_shard/pbft_all/messageHandle.go, chain/blockchain.go). Hashes and digests are
 * injective: they carry what they are computed from. A step may run any handler at any time; Waits says when the
 * program makes a handler wait first, and RespectsWaits picks out the runs in which none jumps the queue. A commit
 * handler that has to ask while an earlier question is open blocks halfway, and goes on when the answer arrives.
 */
module Pbft {

  datatype Hash = GenesisHash | HashOf(header: Header)
  datatype Header = Header(number: nat, parent: Hash, txRoot: seq<nat>, content: nat)
  datatype Block = Block(header: Header, body: seq<nat>)
  datatype Request = Request(block: Block, reqTime: nat)
  datatype Digest = Digest(request: Request)

  datatype Msg =
    | PrePrepare(request: Request, digest: Digest, seqID: nat)
    | Prepare(digest: Digest, seqID: nat, sender: nat)
    | Commit(digest: Digest, seqID: nat, sender: nat)
    | RequestOld(startHeight: nat, endHeight: nat, sender: nat)
    | SendOld(startHeight: nat, endHeight: nat, oldRequest: seq<Request>, to: nat)

  /** The question a commit handler is blocked on: the last height it will ask for. */
  datatype Question = NoQuestion | Question(endHeight: nat)

  /**
   * One node. The confirm maps count delivered messages, as the program does: every decoded message carries a
   * fresh sender object. crashed records an unlock of a lock that is not held. The stage is 1 before a
   * pre-prepare, 2 before a prepare quorum and at least 3 after one.
   */
  datatype Node = Node(
    id: nat, chain: seq<Block>, sequenceID: nat, requestPool: map<Digest, Request>, height2Digest: map<nat, Digest>,
    cntPrepareConfirm: map<Digest, nat>, cntCommitConfirm: map<Digest, nat>,
    isCommitBordcast: set<Digest>, isReply: set<Digest>, pbftStage: nat, sequenceLock: bool, askForLock: bool,
    blocked: Question, crashed: bool)

  datatype Outcome = Outcome(node: Node, sent: set<Msg>)

  /** A node starting on a stored chain, which is empty after the genesis block. */
  function InitNode(id: nat, chain: seq<Block>): Node {
    Node(id, chain, CurrentNumber(chain) + 1, map[], map[], map[], map[], {}, {}, 1, false, false, NoQuestion, false)
  }

  // ---------- the chain ----------

  function CurrentNumber(chain: seq<Block>): nat {
    if chain == [] then 0 else chain[|chain|-1].header.number
  }

  function CurrentHash(chain: seq<Block>): Hash {
    if chain == [] then GenesisHash else HashOf(chain[|chain|-1].header)
  }

  /** A block that does not continue the chain is dropped silently. */
  function AddBlock(chain: seq<Block>, b: Block): seq<Block> {
    if b.header.number != CurrentNumber(chain) + 1 then chain
    else if b.header.parent != CurrentHash(chain) then chain
    else chain + [b]
  }

  predicate IsValidBlock(chain: seq<Block>, b: Block) {
    b.header.parent == CurrentHash(chain) && b.body == b.header.txRoot
  }

  function GenerateBlock(chain: seq<Block>, body: seq<nat>, content: nat): Block {
    Block(Header(CurrentNumber(chain) + 1, CurrentHash(chain), body, content), body)
  }

  // ---------- the handlers ----------

  function CountOf(cnt: map<Digest, nat>, d: Digest): nat {
    if d in cnt then cnt[d] else 0
  }

  function Pooled(n: Node, r: Request, seqID: nat): Node {
    n.(requestPool := n.requestPool[Digest(r) := r], height2Digest := n.height2Digest[seqID := Digest(r)])
  }

  /** The leader takes the sequence lock and proposes a block on top of its chain. */
  function Propose(n: Node, body: seq<nat>, content: nat, reqTime: nat): Outcome {
    var r := Request(GenerateBlock(n.chain, body, content), reqTime);
    Outcome(Pooled(n, r, n.sequenceID).(sequenceLock := true, pbftStage := 2), {PrePrepare(r, Digest(r), n.sequenceID)})
  }

  function HandlePrePrepare(n: Node, m: Msg): Outcome
    requires m.PrePrepare?
  {
    if m.seqID < n.sequenceID then Outcome(n, {})
    else if Digest(m.request) != m.digest then Outcome(n, {})
    else if n.sequenceID < m.seqID then Outcome(Pooled(n, m.request, m.seqID), {})
    else if IsValidBlock(n.chain, m.request.block) then
      Outcome(Pooled(n, m.request, m.seqID).(pbftStage := n.pbftStage + 1), {Prepare(m.digest, m.seqID, n.id)})
    else Outcome(Pooled(n, m.request, m.seqID), {})
  }

  function CountPrepare(n: Node, d: Digest): Node {
    n.(cntPrepareConfirm := n.cntPrepareConfirm[d := CountOf(n.cntPrepareConfirm, d) + 1])
  }

  function HandlePrepare(n: Node, f: nat, m: Msg): Outcome
    requires m.Prepare?
  {
    if m.seqID < n.sequenceID || m.digest !in n.requestPool || n.sequenceID < m.seqID then Outcome(n, {})
    else
      var n1 := CountPrepare(n, m.digest);
      if n1.cntPrepareConfirm[m.digest] >= 2 * f + 1 && m.digest !in n.isCommitBordcast then
        Outcome(n1.(isCommitBordcast := n.isCommitBordcast + {m.digest}, pbftStage := n.pbftStage + 1),
                {Commit(m.digest, m.seqID, n.id)})
      else Outcome(n1, {})
  }

  function CountCommit(n: Node, d: Digest): Node {
    n.(cntCommitConfirm := n.cntCommitConfirm[d := CountOf(n.cntCommitConfirm, d) + 1])
  }

  /** The quorum is for a request the node has: its block is added and the next one awaited. */
  function CommitRequest(n: Node, d: Digest): Node
    requires d in n.requestPool
  {
    n.(chain := AddBlock(n.chain, n.requestPool[d].block), sequenceID := n.sequenceID + 1, isReply := n.isReply + {d})
  }

  function HandleCommit(n: Node, f: nat, leader: nat, m: Msg): Outcome
    requires m.Commit?
  {
    if m.seqID < n.sequenceID then Outcome(n, {})
    else
      var n1 := CountCommit(n, m.digest);
      if n1.cntCommitConfirm[m.digest] >= 2 * f + 1 && m.digest !in n.isReply then
        if m.digest !in n.requestPool && n.askForLock then
          Outcome(Blocking(n1, m.digest, m.seqID), {})
        else if m.digest !in n.requestPool then
          Outcome(EndRound(Asking(n1, m.digest), leader), {RequestOld(n.sequenceID + 1, m.seqID, n.id)})
        else
          Outcome(EndRound(CommitRequest(n1, m.digest), leader), {})
      else Outcome(n1, {})
  }

  /** The quorum is for a request the node lacks: it takes the asking lock. */
  function Asking(n: Node, d: Digest): Node {
    n.(isReply := n.isReply + {d}, askForLock := true)
  }

  /** It must ask, but the asking lock is taken: the request is answered for and the handler blocks. */
  function Blocking(n: Node, d: Digest, endHeight: nat): Node {
    n.(isReply := n.isReply + {d}, blocked := Question(endHeight))
  }

  /** Back to the first stage; the leader releases the sequence lock. Releasing a lock not held stops the program. */
  function EndRound(n: Node, leader: nat): Node {
    if n.id != leader then n.(pbftStage := 1)
    else n.(pbftStage := 1, sequenceLock := false, crashed := n.crashed || !n.sequenceLock)
  }

  /** The requests for heights from..last, stopping at the first one that is missing. */
  function Collected(n: Node, from: nat, last: nat): seq<Request>
    decreases last + 1 - from
  {
    if from > last || from !in n.height2Digest || n.height2Digest[from] !in n.requestPool then []
    else [n.requestPool[n.height2Digest[from]]] + Collected(n, from + 1, last)
  }

  function HandleRequestOld(n: Node, leader: nat, m: Msg): Outcome
    requires m.RequestOld?
  {
    if n.id != leader then Outcome(n, {})
    else Outcome(n, {SendOld(m.startHeight, m.endHeight, Collected(n, m.startHeight, m.endHeight), m.sender)})
  }

  function AddBlocks(chain: seq<Block>, rs: seq<Request>): seq<Block> {
    if rs == [] then chain else AddBlock(AddBlocks(chain, rs[..|rs|-1]), rs[|rs|-1].block)
  }

  /** Pools the first requests of a catch-up message under consecutive heights. */
  function PooledFrom(n: Node, rs: seq<Request>, start: nat): Node {
    if rs == [] then n
    else
      var last := rs[|rs|-1];
      var n1 := PooledFrom(n, rs[..|rs|-1], start);
      Pooled(n1, last, start + |rs| - 1).(isReply := n1.isReply + {Digest(last)})
  }

  /** The blocks are added only if none is missing; the sequence number jumps past them in any case. */
  function CaughtUp(n: Node, m: Msg): Node
    requires m.SendOld?
  {
    PooledFrom(n.(chain := ChainAfter(n.chain, m)), m.oldRequest, m.startHeight).(sequenceID := m.endHeight + 1)
  }

  function ChainAfter(chain: seq<Block>, m: Msg): seq<Block>
    requires m.SendOld?
  {
    if m.endHeight - m.startHeight + 1 != |m.oldRequest| then chain else AddBlocks(chain, m.oldRequest)
  }

  function HandleSendOld(n: Node, leader: nat, m: Msg): Outcome
    requires m.SendOld?
  {
    var n1 := CaughtUp(n, m);
    var out := Answered(n1, leader);
    Outcome(out.node, PrepareNext(n1, m.endHeight + 1) + out.sent)
  }

  /** A reply releases the asking lock, held or not. A blocked handler takes it, asks and ends its round. */
  function Answered(n: Node, leader: nat): Outcome {
    match n.blocked
    case NoQuestion => Outcome(Unlocked(n), {})
    case Question(endHeight) =>
      Outcome(EndRound(Unlocked(n).(askForLock := true), leader), {RequestOld(n.sequenceID + 1, endHeight, n.id)})
  }

  function Unlocked(n: Node): Node {
    n.(askForLock := false, blocked := NoQuestion, crashed := n.crashed || !n.askForLock)
  }

  /** After catching up, a node prepares the request it already holds for the next height. */
  function PrepareNext(n: Node, next: nat): set<Msg> {
    if next in n.height2Digest && n.height2Digest[next] in n.requestPool
       && IsValidBlock(n.chain, n.requestPool[n.height2Digest[next]].block)
    then {Prepare(Digest(n.requestPool[n.height2Digest[next]]), next, n.id)}
    else {}
  }

  function Handle(n: Node, f: nat, leader: nat, m: Msg): Outcome {
    match m
    case PrePrepare(_, _, _) => HandlePrePrepare(n, m)
    case Prepare(_, _, _) => HandlePrepare(n, f, m)
    case Commit(_, _, _) => HandleCommit(n, f, leader, m)
    case RequestOld(_, _, _) => HandleRequestOld(n, leader, m)
    case SendOld(_, _, _, _) => HandleSendOld(n, leader, m)
  }

  /** When the program makes a handler wait: for its stage, or while a blocked handler holds the node's lock. */
  predicate Waits(n: Node, m: Msg) {
    match m
    case PrePrepare(_, _, seqID) => n.blocked.Question? || (n.pbftStage < 1 && seqID >= n.sequenceID)
    case Prepare(_, seqID, _) => n.blocked.Question? || (n.pbftStage < 2 && seqID >= n.sequenceID)
    case Commit(_, seqID, _) => n.blocked.Question? || (n.pbftStage < 3 && seqID >= n.sequenceID)
    case RequestOld(_, _, _) => false
    case SendOld(_, _, _, _) => false
  }

  /** One more commit message completes a quorum for a request the node does not have. */
  predicate LacksCommitted(n: Node, f: nat, d: Digest) {
    CountOf(n.cntCommitConfirm, d) + 1 >= 2 * f + 1 && d !in n.isReply && d !in n.requestPool
  }

  // ---------- runs ----------

  /** net holds every message ever sent; proposals is the history of the leader's requests. */
  datatype Sys = Sys(leader: nat, f: nat, nodes: seq<Node>, net: set<Msg>, proposals: seq<Request>)

  /**
   * Nodes start on what they have stored: prefixes of the leader's chain, whose blocks count as its first
   * proposals. On a first start all chains are empty.
   */
  ghost predicate Init(s: Sys) {
    && s.leader < |s.nodes| && s.net == {} && Linked(s.proposals)
    && (forall i :: 0 <= i < |s.nodes| ==> StartsOn(s.nodes[i], i, s.proposals))
    && |s.nodes[s.leader].chain| == |s.proposals|
  }

  ghost predicate StartsOn(n: Node, i: nat, ps: seq<Request>) {
    n == InitNode(i, n.chain) && ChainFollows(n.chain, ps)
  }

  ghost predicate ProposeStep(s: Sys, s': Sys, body: seq<nat>, content: nat, reqTime: nat) {
    && s.leader < |s.nodes| && !s.nodes[s.leader].sequenceLock
    && var n := s.nodes[s.leader];
       var out := Propose(n, body, content, reqTime);
       s' == s.(nodes := s.nodes[s.leader := out.node], net := s.net + out.sent,
                proposals := s.proposals + [Request(GenerateBlock(n.chain, body, content), reqTime)])
  }

  /** Any node may handle any message sent so far, any number of times; catch-up replies go to their addressee. */
  ghost predicate HandleStep(s: Sys, s': Sys, i: nat, m: Msg) {
    && i < |s.nodes| && m in s.net && (m.SendOld? ==> i == m.to)
    && var out := Handle(s.nodes[i], s.f, s.leader, m);
       s' == s.(nodes := s.nodes[i := out.node], net := s.net + out.sent)
  }

  datatype Action = ProposeAct(body: seq<nat>, content: nat, reqTime: nat) | HandleAct(i: nat, m: Msg)

  ghost predicate Step(s: Sys, s': Sys, a: Action) {
    match a
    case ProposeAct(body, content, reqTime) => ProposeStep(s, s', body, content, reqTime)
    case HandleAct(i, m) => HandleStep(s, s', i, m)
  }

  ghost predicate IsRun(ss: seq<Sys>, acts: seq<Action>) {
    && |ss| == |acts| + 1 && Init(ss[0])
    && forall i :: 0 <= i < |acts| ==> StepAt(ss, acts, i)
  }

  ghost predicate StepAt(ss: seq<Sys>, acts: seq<Action>, i: nat)
    requires |ss| == |acts| + 1 && i < |acts|
  {
    Step(ss[i], ss[i+1], acts[i])
  }

  /** No handler and no proposal runs before its stage. */
  predicate InStage(s: Sys, a: Action) {
    match a
    case ProposeAct(_, _, _) => s.leader < |s.nodes| && s.nodes[s.leader].pbftStage == 1
    case HandleAct(i, m) => i < |s.nodes| && !Waits(s.nodes[i], m)
  }

  predicate RespectsWaits(ss: seq<Sys>, acts: seq<Action>)
    requires |ss| == |acts| + 1
  {
    forall i :: 0 <= i < |acts| ==> InStage(ss[i], acts[i])
  }

  // ---------- the invariant ----------

  /** The proposals build one chain: numbers count up from 1 and each names its predecessor. */
  ghost predicate Linked(ps: seq<Request>) {
    forall i :: 0 <= i < |ps| ==> LinkedAt(ps, i)
  }

  ghost predicate LinkedAt(ps: seq<Request>, i: nat)
    requires i < |ps|
  {
    && ps[i].block.header.number == i + 1
    && ps[i].block.header.parent == if i == 0 then GenesisHash else HashOf(ps[i-1].block.header)
  }

  ghost predicate IsProposal(ps: seq<Request>, seqID: nat, d: Digest) {
    1 <= seqID <= |ps| && d == Digest(ps[seqID - 1])
  }

  ghost predicate ChainFollows(chain: seq<Block>, ps: seq<Request>) {
    |chain| <= |ps| && forall i :: 0 <= i < |chain| ==> chain[i] == ps[i].block
  }

  ghost predicate PoolFollows(requestPool: map<Digest, Request>, height2Digest: map<nat, Digest>, ps: seq<Request>) {
    && (forall d :: d in requestPool ==> requestPool[d] == d.request && d.request in ps)
    && (forall h :: h in height2Digest ==> IsProposal(ps, h, height2Digest[h]))
  }

  ghost predicate NodeFollows(n: Node, ps: seq<Request>) {
    ChainFollows(n.chain, ps) && PoolFollows(n.requestPool, n.height2Digest, ps)
  }

  ghost predicate MsgFollows(m: Msg, ps: seq<Request>, leader: nat) {
    match m
    case PrePrepare(r, d, seqID) => d == Digest(r) && IsProposal(ps, seqID, d)
    case Prepare(d, seqID, _) => IsProposal(ps, seqID, d)
    case Commit(d, seqID, _) => IsProposal(ps, seqID, d)
    case RequestOld(start, _, sender) => start >= 1 && sender != leader
    case SendOld(start, _, rs, to) =>
      && start >= 1 && to != leader
      && forall i :: 0 <= i < |rs| ==> IsProposal(ps, start + i, Digest(rs[i]))
  }

  /** The leader has committed all its proposals but the one it holds the sequence lock for. */
  ghost predicate LeaderLeads(n: Node, ps: seq<Request>) {
    && n.sequenceID == |n.chain| + 1 && !n.crashed && n.blocked == NoQuestion
    && |ps| == |n.chain| + (if n.sequenceLock then 1 else 0)
    && (n.sequenceLock ==> Digest(ps[|ps|-1]) in n.requestPool)
  }

  ghost predicate Inv(s: Sys) {
    && s.leader < |s.nodes| && Linked(s.proposals)
    && (forall i :: 0 <= i < |s.nodes| ==> s.nodes[i].id == i && NodeFollows(s.nodes[i], s.proposals))
    && (forall m :: m in s.net ==> MsgFollows(m, s.proposals, s.leader))
    && LeaderLeads(s.nodes[s.leader], s.proposals)
  }

  // ---------- the invariant is kept ----------

  lemma FollowingNumbers(chain: seq<Block>, ps: seq<Request>)
    requires ChainFollows(chain, ps) && Linked(ps)
    ensures CurrentNumber(chain) == |chain|
    ensures CurrentHash(chain) == if chain == [] then GenesisHash else HashOf(ps[|chain|-1].block.header)
  {
    if chain != [] { assert LinkedAt(ps, |chain| - 1); }
  }

  /** Adding a proposed block leaves a chain on the leader's proposals, whatever its height. */
  lemma AddBlockFollows(chain: seq<Block>, ps: seq<Request>, j: nat)
    requires ChainFollows(chain, ps) && Linked(ps) && j < |ps|
    ensures ChainFollows(AddBlock(chain, ps[j].block), ps)
    ensures j == |chain| ==> AddBlock(chain, ps[j].block) == chain + [ps[j].block]
  {
    FollowingNumbers(chain, ps);
    assert LinkedAt(ps, j);
  }

  lemma {:induction false} AddBlocksFollows(chain: seq<Block>, ps: seq<Request>, rs: seq<Request>, start: nat)
    requires ChainFollows(chain, ps) && Linked(ps)
    requires forall i :: 0 <= i < |rs| ==> IsProposal(ps, start + i, Digest(rs[i]))
    ensures ChainFollows(AddBlocks(chain, rs), ps)
  {
    if rs != [] {
      AddBlocksFollows(chain, ps, rs[..|rs|-1], start);
      assert IsProposal(ps, start + (|rs| - 1), Digest(rs[|rs|-1]));
      AddBlockFollows(AddBlocks(chain, rs[..|rs|-1]), ps, start + |rs| - 2);
    }
  }

  lemma PooledFollows(n: Node, ps: seq<Request>, r: Request, seqID: nat)
    requires NodeFollows(n, ps) && IsProposal(ps, seqID, Digest(r))
    ensures NodeFollows(Pooled(n, r, seqID), ps)
    ensures LeaderLeads(n, ps) ==> LeaderLeads(Pooled(n, r, seqID), ps)
  {
  }

  lemma {:induction false} PooledFromFollows(n: Node, ps: seq<Request>, rs: seq<Request>, start: nat)
    requires NodeFollows(n, ps)
    requires forall i :: 0 <= i < |rs| ==> IsProposal(ps, start + i, Digest(rs[i]))
    ensures NodeFollows(PooledFrom(n, rs, start), ps) && PooledFrom(n, rs, start).id == n.id
  {
    if rs != [] {
      PooledFromFollows(n, ps, rs[..|rs|-1], start);
      PooledFollows(PooledFrom(n, rs[..|rs|-1], start), ps, rs[|rs|-1], start + |rs| - 1);
    }
  }

  lemma {:induction false} CollectedFollows(n: Node, ps: seq<Request>, from: nat, last: nat)
    requires PoolFollows(n.requestPool, n.height2Digest, ps)
    ensures forall i :: 0 <= i < |Collected(n, from, last)| ==>
              IsProposal(ps, from + i, Digest(Collected(n, from, last)[i]))
    decreases last + 1 - from
  {
    if !(from > last || from !in n.height2Digest || n.height2Digest[from] !in n.requestPool) {
      CollectedFollows(n, ps, from + 1, last);
      var rest := Collected(n, from + 1, last);
      forall i | 0 <= i < |Collected(n, from, last)|
        ensures IsProposal(ps, from + i, Digest(Collected(n, from, last)[i]))
      {
        if i > 0 {
          assert Collected(n, from, last)[i] == rest[i-1] && IsProposal(ps, from + 1 + (i - 1), Digest(rest[i-1]));
        }
      }
    }
  }

  /** What one handler call must preserve. */
  ghost predicate OutcomeFollows(out: Outcome, id: nat, ps: seq<Request>, leader: nat) {
    && out.node.id == id && NodeFollows(out.node, ps)
    && (forall m :: m in out.sent ==> MsgFollows(m, ps, leader))
    && (id == leader ==> LeaderLeads(out.node, ps))
  }

  ghost predicate Handles(n: Node, ps: seq<Request>, leader: nat, m: Msg) {
    && Linked(ps) && NodeFollows(n, ps) && MsgFollows(m, ps, leader)
    && (n.id == leader ==> LeaderLeads(n, ps))
  }

  /**
   * The commit handler. At the leader a commit that is not out of date is for the one block it holds the
   * sequence lock for, so the block is added and the lock was held.
   */
  lemma CommitFollows(n: Node, ps: seq<Request>, f: nat, leader: nat, m: Msg)
    requires Handles(n, ps, leader, m) && m.Commit?
    ensures OutcomeFollows(HandleCommit(n, f, leader, m), n.id, ps, leader)
  {
    if m.digest in n.requestPool {
      CommittedBlockFollows(n, ps, leader, m);
    }
    CommitKeepsPool(n, f, leader, m);
    if n.id == leader && m.seqID >= n.sequenceID {
      LeaderCommits(n, ps, m);
    }
  }

  lemma EndRoundKeeps(n: Node, leader: nat)
    ensures var out := EndRound(n, leader);
            out == n.(pbftStage := 1, sequenceLock := out.sequenceLock, crashed := out.crashed)
  {
  }

  /** A commit changes the chain only by adding the committed request's block. */
  lemma CommitKeepsPool(n: Node, f: nat, leader: nat, m: Msg)
    requires m.Commit?
    ensures var out := HandleCommit(n, f, leader, m).node;
            out.requestPool == n.requestPool && out.height2Digest == n.height2Digest && out.id == n.id
    ensures var out := HandleCommit(n, f, leader, m).node;
            || out.chain == n.chain
            || (m.digest in n.requestPool && out.chain == AddBlock(n.chain, n.requestPool[m.digest].block))
  {
    var n1 := CountCommit(n, m.digest);
    if m.seqID < n.sequenceID {
    } else if m.digest in n.requestPool {
      EndRoundKeeps(CommitRequest(n1, m.digest), leader);
    } else if !n.askForLock {
      EndRoundKeeps(Asking(n1, m.digest), leader);
    }
  }

  lemma CommittedBlockFollows(n: Node, ps: seq<Request>, leader: nat, m: Msg)
    requires Handles(n, ps, leader, m) && m.Commit? && m.digest in n.requestPool
    ensures ChainFollows(AddBlock(n.chain, n.requestPool[m.digest].block), ps)
  {
    assert n.requestPool[m.digest] == ps[m.seqID - 1];
    AddBlockFollows(n.chain, ps, m.seqID - 1);
  }

  lemma LeaderCommits(n: Node, ps: seq<Request>, m: Msg)
    requires Handles(n, ps, n.id, m) && m.Commit? && m.seqID >= n.sequenceID
    ensures n.sequenceLock && m.digest in n.requestPool
    ensures AddBlock(n.chain, n.requestPool[m.digest].block) == n.chain + [ps[|ps|-1].block] && |ps| == |n.chain| + 1
  {
    assert m.seqID == |n.chain| + 1 == |ps|;
    assert m.digest == Digest(ps[m.seqID - 1]);
    AddBlockFollows(n.chain, ps, m.seqID - 1);
  }

  /**
   * When a commit message extends the chain: exactly when it completes a quorum of 2f+1 deliveries for a request
   * the node holds and has not replied to, and the request is the one for the height after the chain.
   */
  lemma CommitExtendsIff(n: Node, ps: seq<Request>, f: nat, leader: nat, m: Msg)
    requires Handles(n, ps, leader, m) && m.Commit?
    ensures HandleCommit(n, f, leader, m).node.chain != n.chain
       <==> && n.sequenceID <= m.seqID == |n.chain| + 1
            && CountOf(n.cntCommitConfirm, m.digest) + 1 >= 2 * f + 1
            && m.digest !in n.isReply && m.digest in n.requestPool
    ensures HandleCommit(n, f, leader, m).node.chain != n.chain ==>
              HandleCommit(n, f, leader, m).node.chain == n.chain + [ps[|n.chain|].block]
  {
    var n1 := CountCommit(n, m.digest);
    EndRoundKeeps(Asking(n1, m.digest), leader);
    if m.digest in n.requestPool {
      EndRoundKeeps(CommitRequest(n1, m.digest), leader);
      assert n.requestPool[m.digest] == ps[m.seqID - 1] && LinkedAt(ps, m.seqID - 1);
      FollowingNumbers(n.chain, ps);
      AddBlockFollows(n.chain, ps, m.seqID - 1);
    }
  }

  lemma CaughtUpFollows(n: Node, ps: seq<Request>, leader: nat, m: Msg)
    requires Handles(n, ps, leader, m) && m.SendOld?
    ensures NodeFollows(CaughtUp(n, m), ps) && CaughtUp(n, m).id == n.id
  {
    var chain := ChainAfter(n.chain, m);
    AddBlocksFollows(n.chain, ps, m.oldRequest, m.startHeight);
    PooledFromFollows(n.(chain := chain), ps, m.oldRequest, m.startHeight);
  }

  lemma NextIsProposal(n: Node, ps: seq<Request>, next: nat, leader: nat)
    requires NodeFollows(n, ps)
    ensures forall m :: m in PrepareNext(n, next) ==> MsgFollows(m, ps, leader)
  {
  }

  /** Releasing the asking lock changes locks and stage, and sends at most one question. */
  lemma AnsweredKeeps(n: Node, leader: nat)
    ensures var out := Answered(n, leader);
            && out.node == n.(askForLock := out.node.askForLock, blocked := NoQuestion, pbftStage := out.node.pbftStage,
                              sequenceLock := out.node.sequenceLock, crashed := out.node.crashed)
            && out.sent == if n.blocked == NoQuestion then {}
                           else {RequestOld(n.sequenceID + 1, n.blocked.endHeight, n.id)}
  {
    EndRoundKeeps(Unlocked(n).(askForLock := true), leader);
  }

  lemma SendOldFollows(n: Node, ps: seq<Request>, leader: nat, m: Msg)
    requires Handles(n, ps, leader, m) && m.SendOld? && n.id == m.to
    ensures OutcomeFollows(HandleSendOld(n, leader, m), n.id, ps, leader)
  {
    CaughtUpFollows(n, ps, leader, m);
    AnsweredKeeps(CaughtUp(n, m), leader);
    NextIsProposal(CaughtUp(n, m), ps, m.endHeight + 1, leader);
    assert m.to != leader;
  }

  lemma PrePrepareFollows(n: Node, ps: seq<Request>, leader: nat, m: Msg)
    requires Handles(n, ps, leader, m) && m.PrePrepare?
    ensures OutcomeFollows(HandlePrePrepare(n, m), n.id, ps, leader)
  {
    PooledFollows(n, ps, m.request, m.seqID);
  }

  lemma PrepareFollows(n: Node, ps: seq<Request>, f: nat, leader: nat, m: Msg)
    requires Handles(n, ps, leader, m) && m.Prepare?
    ensures OutcomeFollows(HandlePrepare(n, f, m), n.id, ps, leader)
  {
    var out := HandlePrepare(n, f, m);
    PrepareKeeps(n, f, m);
    forall c | c in out.sent ensures MsgFollows(c, ps, leader) {
      assert c == Commit(m.digest, m.seqID, n.id);
    }
  }

  /** Prepare messages change nothing but the vote counts and the stage. */
  lemma PrepareKeeps(n: Node, f: nat, m: Msg)
    requires m.Prepare?
    ensures var out := HandlePrepare(n, f, m);
            && out.node == n.(cntPrepareConfirm := out.node.cntPrepareConfirm,
                              isCommitBordcast := out.node.isCommitBordcast, pbftStage := out.node.pbftStage)
            && out.sent <= {Commit(m.digest, m.seqID, n.id)}
  {
  }

  lemma RequestOldFollows(n: Node, ps: seq<Request>, leader: nat, m: Msg)
    requires Handles(n, ps, leader, m) && m.RequestOld?
    ensures OutcomeFollows(HandleRequestOld(n, leader, m), n.id, ps, leader)
  {
    CollectedFollows(n, ps, m.startHeight, m.endHeight);
  }

  lemma HandleFollows(n: Node, ps: seq<Request>, f: nat, leader: nat, m: Msg)
    requires Handles(n, ps, leader, m) && (m.SendOld? ==> n.id == m.to)
    ensures OutcomeFollows(Handle(n, f, leader, m), n.id, ps, leader)
  {
    match m
    case PrePrepare(_, _, _) => PrePrepareFollows(n, ps, leader, m);
    case Prepare(_, _, _) => PrepareFollows(n, ps, f, leader, m);
    case Commit(_, _, _) => CommitFollows(n, ps, f, leader, m);
    case RequestOld(_, _, _) => RequestOldFollows(n, ps, leader, m);
    case SendOld(_, _, _, _) => SendOldFollows(n, ps, leader, m);
  }

  /** A longer list of proposals keeps everything that followed the shorter one. */
  lemma FollowsGrows(s: Sys, ps: seq<Request>, r: Request)
    requires Inv(s) && ps == s.proposals + [r]
    ensures forall i :: 0 <= i < |s.nodes| ==> NodeFollows(s.nodes[i], ps)
    ensures forall m :: m in s.net ==> MsgFollows(m, ps, s.leader)
  {
    forall seqID, d | IsProposal(s.proposals, seqID, d) ensures IsProposal(ps, seqID, d) {}
    forall i | 0 <= i < |s.nodes| ensures NodeFollows(s.nodes[i], ps) {
      assert NodeFollows(s.nodes[i], s.proposals);
    }
    forall m | m in s.net ensures MsgFollows(m, ps, s.leader) {
      assert MsgFollows(m, s.proposals, s.leader);
    }
  }

  lemma LinkedGrows(ps: seq<Request>, r: Request)
    requires Linked(ps) && r.block.header.number == |ps| + 1
    requires r.block.header.parent == if ps == [] then GenesisHash else HashOf(ps[|ps|-1].block.header)
    ensures Linked(ps + [r])
  {
    forall i | 0 <= i < |ps| + 1 ensures LinkedAt(ps + [r], i) {
      if i < |ps| { assert LinkedAt(ps, i); }
    }
  }

  lemma LeaderProposes(n: Node, n': Node, ps: seq<Request>, r: Request)
    requires LeaderLeads(n, ps) && NodeFollows(n, ps) && !n.sequenceLock
    requires n' == Pooled(n, r, n.sequenceID).(sequenceLock := true, pbftStage := 2)
    ensures NodeFollows(n', ps + [r]) && LeaderLeads(n', ps + [r])
  {
    forall seqID, d | IsProposal(ps, seqID, d) ensures IsProposal(ps + [r], seqID, d) {}
  }

  lemma ProposeKeepsInv(s: Sys, s': Sys, body: seq<nat>, content: nat, reqTime: nat)
    requires Inv(s) && ProposeStep(s, s', body, content, reqTime)
    ensures Inv(s')
  {
    var n := s.nodes[s.leader];
    var r := Request(GenerateBlock(n.chain, body, content), reqTime);
    FollowingNumbers(n.chain, s.proposals);
    FollowsGrows(s, s'.proposals, r);
    LinkedGrows(s.proposals, r);
    assert IsProposal(s'.proposals, n.sequenceID, Digest(r));
    var n' := Pooled(n, r, n.sequenceID).(sequenceLock := true, pbftStage := 2);
    LeaderProposes(n, n', s.proposals, r);
    assert s'.nodes == s.nodes[s.leader := n'];
  }

  lemma HandleKeepsInv(s: Sys, s': Sys, i: nat, m: Msg)
    requires Inv(s) && HandleStep(s, s', i, m)
    ensures Inv(s')
  {
    assert NodeFollows(s.nodes[i], s.proposals);
    HandleFollows(s.nodes[i], s.proposals, s.f, s.leader, m);
  }

  lemma InitInv(s: Sys)
    requires Init(s)
    ensures Inv(s)
  {
    forall i | 0 <= i < |s.nodes| ensures s.nodes[i].id == i && NodeFollows(s.nodes[i], s.proposals) {
      assert StartsOn(s.nodes[i], i, s.proposals);
    }
    assert StartsOn(s.nodes[s.leader], s.leader, s.proposals);
    FollowingNumbers(s.nodes[s.leader].chain, s.proposals);
  }

  lemma {:induction false} RunKeepsInv(ss: seq<Sys>, acts: seq<Action>, k: nat)
    requires IsRun(ss, acts) && k < |ss|
    ensures Inv(ss[k])
  {
    if k == 0 {
      InitInv(ss[0]);
    } else {
      RunKeepsInv(ss, acts, k - 1);
      assert StepAt(ss, acts, k - 1);
      match acts[k-1]
      case ProposeAct(body, content, reqTime) => ProposeKeepsInv(ss[k-1], ss[k], body, content, reqTime);
      case HandleAct(i, m) => HandleKeepsInv(ss[k-1], ss[k], i, m);
    }
  }

  // ---------- agreement ----------

  /**
   * Fixed-view agreement, at every point of every run: each node's chain is a prefix of the leader's proposals,
   * the leader is at most one proposal behind, any two chains are prefix-comparable, and the sequence lock is
   * never released unheld.
   */
  lemma PrefixAgreement(ss: seq<Sys>, acts: seq<Action>, k: nat)
    requires IsRun(ss, acts) && k < |ss|
    ensures forall i :: 0 <= i < |ss[k].nodes| ==> ChainFollows(ss[k].nodes[i].chain, ss[k].proposals)
    ensures forall i, j :: 0 <= i < |ss[k].nodes| && 0 <= j < |ss[k].nodes| ==>
              ss[k].nodes[i].chain <= ss[k].nodes[j].chain || ss[k].nodes[j].chain <= ss[k].nodes[i].chain
    ensures ss[k].leader < |ss[k].nodes| && !ss[k].nodes[ss[k].leader].crashed
    ensures |ss[k].nodes[ss[k].leader].chain| <= |ss[k].proposals| <= |ss[k].nodes[ss[k].leader].chain| + 1
  {
    RunKeepsInv(ss, acts, k);
    forall i | 0 <= i < |ss[k].nodes| ensures ChainFollows(ss[k].nodes[i].chain, ss[k].proposals) {
      assert NodeFollows(ss[k].nodes[i], ss[k].proposals);
    }
  }

  /** A chain is never rewritten: what a node has committed stays, through the catch-up path too. */
  lemma ChainsOnlyGrow(s: Sys, s': Sys, a: Action, i: nat)
    requires Inv(s) && Step(s, s', a) && i < |s.nodes|
    ensures |s'.nodes| == |s.nodes| && s.nodes[i].chain <= s'.nodes[i].chain
  {
    match a
    case ProposeAct(_, _, _) =>
    case HandleAct(j, m) => HandlerKeepsChain(s.nodes[j], s.f, s.leader, m);
  }

  lemma HandlerKeepsChain(n: Node, f: nat, leader: nat, m: Msg)
    ensures n.chain <= Handle(n, f, leader, m).node.chain
  {
    match m
    case PrePrepare(_, _, _) =>
    case Prepare(_, _, _) => PrepareKeeps(n, f, m);
    case Commit(_, _, _) => CommitKeepsPool(n, f, leader, m);
    case RequestOld(_, _, _) =>
    case SendOld(_, _, _, _) =>
      AddBlocksGrow(n.chain, m.oldRequest);
      CaughtUpChain(n, m);
      AnsweredKeeps(CaughtUp(n, m), leader);
  }

  lemma {:induction false} AddBlocksGrow(chain: seq<Block>, rs: seq<Request>)
    ensures chain <= AddBlocks(chain, rs)
  {
    if rs != [] { AddBlocksGrow(chain, rs[..|rs|-1]); }
  }

  lemma {:induction false} PooledFromKeepsChain(n: Node, rs: seq<Request>, start: nat)
    ensures PooledFrom(n, rs, start).chain == n.chain
  {
    if rs != [] { PooledFromKeepsChain(n, rs[..|rs|-1], start); }
  }

  lemma CaughtUpChain(n: Node, m: Msg)
    requires m.SendOld?
    ensures CaughtUp(n, m).chain == ChainAfter(n.chain, m)
  {
    var chain := ChainAfter(n.chain, m);
    PooledFromKeepsChain(n.(chain := chain), m.oldRequest, m.startHeight);
  }
}
