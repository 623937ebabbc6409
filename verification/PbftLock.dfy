/** The lock a node holds while it asks for old blocks (consensus_shard/pbft_all/messageHandle.go). */
module PbftLock {
  import opened Pbft
  import opened PbftCatchUp
  import opened PbftQuorum

  /** No question for old blocks and no reply is handled twice. */
  predicate CatchUpOnce(acts: seq<Action>) {
    forall j, k :: 0 <= j < k < |acts| && IsCatchUp(acts[j]) ==> acts[j] != acts[k]
  }

  predicate IsCatchUp(a: Action) {
    a.HandleAct? && (a.m.RequestOld? || a.m.SendOld?)
  }

  // ---------- what the run so far tells about questions and replies ----------

  /** Node i has asked up to height e, or is about to: it has answered for the proposal of that height. */
  ghost predicate AskedFor(s: Sys, i: nat, e: nat) {
    i < |s.nodes| && 1 <= e <= |s.proposals| && Digest(s.proposals[e-1]) in s.nodes[i].isReply
  }

  predicate Asks(m: Msg, i: nat, e: nat) {
    m.RequestOld? && m.sender == i && m.endHeight == e
  }

  predicate Replies(m: Msg, i: nat, e: nat) {
    m.SendOld? && m.to == i && m.endHeight == e
  }

  /** Every question has been asked for a reason, and no two questions of a node end at the same height. */
  ghost predicate QuestionsDiffer(s: Sys) {
    && (forall m :: m in s.net && m.RequestOld? ==> AskedFor(s, m.sender, m.endHeight))
    && (forall m, m' :: m in s.net && m' in s.net && m.RequestOld? && Asks(m', m.sender, m.endHeight) ==> m == m')
  }

  function QuestionOf(m: Msg): Msg
    requires m.SendOld?
  {
    RequestOld(m.startHeight, m.endHeight, m.to)
  }

  /** Every reply is to a question the leader has handled, and there is one reply to a question. */
  ghost predicate RepliesDiffer(s: Sys, past: seq<Action>) {
    && (forall m :: m in s.net && m.SendOld? ==> QuestionOf(m) in s.net && HandleAct(s.leader, QuestionOf(m)) in past)
    && (forall m, m' :: m in s.net && m' in s.net && m.SendOld? && Replies(m', m.to, m.endHeight) ==> m == m')
  }

  /** Node i has handled a reply up to height e. */
  ghost predicate Settled(past: seq<Action>, i: nat, e: nat) {
    exists a :: a in past && a.HandleAct? && Replies(a.m, i, e)
  }

  ghost predicate Open(s: Sys, past: seq<Action>, i: nat, m: Msg) {
    m in s.net && m.RequestOld? && m.sender == i && !Settled(past, i, m.endHeight)
  }

  /** Node i holds the lock as long as a question of its own is open, and has one open question at most. */
  ghost predicate HoldsLock(s: Sys, past: seq<Action>, i: nat)
    requires i < |s.nodes|
  {
    && (forall m :: Open(s, past, i, m) ==> s.nodes[i].askForLock)
    && (forall m, m' :: Open(s, past, i, m) && Open(s, past, i, m') ==> m == m')
    && (s.nodes[i].blocked.Question? ==> WillAsk(s, i, s.nodes[i].blocked.endHeight) && s.nodes[i].askForLock)
    && !s.nodes[i].crashed
  }

  /** A question up to height e would be new. */
  ghost predicate WillAsk(s: Sys, i: nat, e: nat) {
    AskedFor(s, i, e) && forall m :: m in s.net ==> !Asks(m, i, e)
  }

  ghost predicate LockInv(s: Sys, past: seq<Action>) {
    && QuestionsDiffer(s) && RepliesDiffer(s, past)
    && forall i :: 0 <= i < |s.nodes| && i != s.leader ==> HoldsLock(s, past, i)
  }

  // ---------- what a handler does to the lock ----------

  /** The node of an outcome has the lock and its blocked handler as before and answers for no less. */
  predicate LockUntouched(n: Node, n': Node) {
    n'.askForLock == n.askForLock && n'.blocked == n.blocked && n'.crashed == n.crashed && n.isReply <= n'.isReply
  }

  ghost predicate SendsQuestion(sent: set<Msg>) {
    exists c :: c in sent && c.RequestOld?
  }

  predicate MustAsk(n: Node, f: nat, m: Msg) {
    m.Commit? && m.seqID >= n.sequenceID && LacksCommitted(n, f, m.digest)
  }

  lemma CommitLock(n: Node, f: nat, leader: nat, m: Msg)
    requires m.Commit? && n.id != leader
    ensures var out := HandleCommit(n, f, leader, m);
            if !MustAsk(n, f, m) then LockUntouched(n, out.node) && out.sent == {}
            else
              && out.node.askForLock && out.node.isReply == n.isReply + {m.digest} && out.node.crashed == n.crashed
              && out.node.blocked == (if n.askForLock then Question(m.seqID) else n.blocked)
              && out.sent == if n.askForLock then {} else {RequestOld(n.sequenceID + 1, m.seqID, n.id)}
  {
    var n1 := CountCommit(n, m.digest);
    EndRoundKeeps(Asking(n1, m.digest), leader);
    if m.digest in n.requestPool { EndRoundKeeps(CommitRequest(n1, m.digest), leader); }
  }

  lemma ReplyLock(n: Node, leader: nat, m: Msg)
    requires m.SendOld? && n.id != leader
    ensures var out := HandleSendOld(n, leader, m);
            && n.isReply <= out.node.isReply && out.node.blocked == NoQuestion
            && out.node.crashed == (n.crashed || !n.askForLock) && out.node.askForLock == n.blocked.Question?
            && (forall c :: c in out.sent && c.RequestOld? ==>
                  n.blocked.Question? && c == RequestOld(m.endHeight + 2, n.blocked.endHeight, n.id))
            && (forall c :: c in out.sent ==> !c.SendOld?)
            && (SendsQuestion(out.sent) <==> n.blocked.Question?)
  {
    CaughtUpKeepsId(n, m);
    CaughtUpKeepsCrashed(n, m);
    PooledFromReplies(n, m);
    AnsweredKeeps(CaughtUp(n, m), leader);
  }

  lemma CaughtUpKeepsCrashed(n: Node, m: Msg)
    requires m.SendOld?
    ensures CaughtUp(n, m).crashed == n.crashed
  {
    var chain := ChainAfter(n.chain, m);
    PooledFromKeepsCrashed(n.(chain := chain), m.oldRequest, m.startHeight);
  }

  lemma {:induction false} PooledFromKeepsCrashed(n: Node, rs: seq<Request>, start: nat)
    ensures PooledFrom(n, rs, start).crashed == n.crashed
  {
    if rs != [] { PooledFromKeepsCrashed(n, rs[..|rs|-1], start); }
  }

  // ---------- steps ----------

  /** What every step does: messages stay, proposals stay, answers stay. */
  ghost predicate Grows(s: Sys, s': Sys) {
    && |s'.nodes| == |s.nodes| && s'.leader == s.leader && s.proposals <= s'.proposals && s.net <= s'.net
    && (forall i :: 0 <= i < |s.nodes| ==> s.nodes[i].isReply <= s'.nodes[i].isReply)
  }

  /** No new question of node i. */
  ghost predicate NothingAsked(s: Sys, s': Sys, i: nat) {
    forall m :: m in s'.net && m.RequestOld? && m.sender == i ==> m in s.net
  }

  lemma HoldsStill(s: Sys, s': Sys, past: seq<Action>, a: Action, i: nat)
    requires Grows(s, s') && i < |s.nodes| && HoldsLock(s, past, i) && LockUntouched(s.nodes[i], s'.nodes[i])
    requires NothingAsked(s, s', i)
    ensures HoldsLock(s', past + [a], i)
  {
    forall m | Open(s', past + [a], i, m) ensures Open(s, past, i, m) {
      StaysSettled(past, a, i, m.endHeight);
    }
    if s.nodes[i].blocked.Question? {
      assert WillAsk(s, i, s.nodes[i].blocked.endHeight);
      assert AskedFor(s', i, s.nodes[i].blocked.endHeight);
    }
  }

  lemma StaysSettled(past: seq<Action>, a: Action, i: nat, e: nat)
    ensures Settled(past + [a], i, e) <==> Settled(past, i, e) || (a.HandleAct? && Replies(a.m, i, e))
  {
    if Settled(past, i, e) {
      var b :| b in past && b.HandleAct? && Replies(b.m, i, e);
      assert b in past + [a];
    }
    if a.HandleAct? && Replies(a.m, i, e) { assert a in past + [a]; }
  }

  lemma QuestionsStay(s: Sys, s': Sys)
    requires Grows(s, s') && QuestionsDiffer(s) && forall i :: NothingAsked(s, s', i)
    ensures QuestionsDiffer(s')
  {
    forall m | m in s'.net && m.RequestOld? ensures m in s.net && AskedFor(s', m.sender, m.endHeight) {
      assert NothingAsked(s, s', m.sender);
      assert AskedFor(s, m.sender, m.endHeight);
    }
  }

  /** One new question, for a height its node has not asked for. */
  lemma QuestionAdded(s: Sys, s': Sys, q: Msg)
    requires Grows(s, s') && QuestionsDiffer(s) && q.RequestOld? && AskedFor(s', q.sender, q.endHeight)
    requires forall m :: m in s'.net && m.RequestOld? ==> m in s.net || m == q
    requires forall m :: m in s.net ==> !Asks(m, q.sender, q.endHeight)
    ensures QuestionsDiffer(s')
  {
    forall m | m in s.net && m.RequestOld? ensures AskedFor(s', m.sender, m.endHeight) {
      assert AskedFor(s, m.sender, m.endHeight);
    }
  }

  lemma RepliesStayApart(s: Sys, s': Sys, past: seq<Action>, a: Action)
    requires Grows(s, s') && RepliesDiffer(s, past) && forall m :: m in s'.net && m.SendOld? ==> m in s.net
    ensures RepliesDiffer(s', past + [a])
  {
  }

  /** The leader answers a question it has not handled before. */
  lemma ReplyAdded(s: Sys, s': Sys, past: seq<Action>, q: Msg)
    requires Grows(s, s') && QuestionsDiffer(s) && RepliesDiffer(s, past) && q in s.net && q.RequestOld?
    requires HandleAct(s.leader, q) !in past
    requires forall m :: m in s'.net && m.SendOld? && m !in s.net ==> QuestionOf(m) == q
    requires forall m, m' :: m in s'.net - s.net && m' in s'.net - s.net && m.SendOld? && m'.SendOld? ==> m == m'
    ensures RepliesDiffer(s', past + [HandleAct(s.leader, q)])
  {
    forall m | m in s.net && m.SendOld? ensures !Replies(m, q.sender, q.endHeight) {
    }
  }

  // ---------- the invariant is kept ----------

  /** A step that asks nothing, replies nothing and leaves the locks alone. */
  lemma QuietStep(s: Sys, s': Sys, past: seq<Action>, a: Action)
    requires Grows(s, s') && LockInv(s, past)
    requires forall m :: m in s'.net && m !in s.net ==> !m.RequestOld? && !m.SendOld?
    requires forall i :: 0 <= i < |s.nodes| && i != s.leader ==> LockUntouched(s.nodes[i], s'.nodes[i])
    ensures LockInv(s', past + [a])
  {
    QuestionsStay(s, s');
    RepliesStayApart(s, s', past, a);
    forall i | 0 <= i < |s.nodes| && i != s.leader ensures HoldsLock(s', past + [a], i) {
      HoldsStill(s, s', past, a, i);
    }
  }

  lemma ReplyingStep(s: Sys, s': Sys, past: seq<Action>, m: Msg)
    requires Inv(s) && LockInv(s, past) && HandleStep(s, s', s.leader, m) && m.RequestOld?
    requires HandleAct(s.leader, m) !in past
    ensures LockInv(s', past + [HandleAct(s.leader, m)])
  {
    assert s.nodes[s.leader].id == s.leader;
    QuestionsStay(s, s');
    ReplyAdded(s, s', past, m);
    forall i | 0 <= i < |s.nodes| && i != s.leader ensures HoldsLock(s', past + [HandleAct(s.leader, m)], i) {
      HoldsStill(s, s', past, HandleAct(s.leader, m), i);
    }
  }

  /** A question about to be asked is new. */
  lemma NewQuestion(s: Sys, j: nat, m: Msg)
    requires Inv(s) && QuestionsDiffer(s) && j < |s.nodes| && m in s.net && MustAsk(s.nodes[j], s.f, m)
    ensures forall c :: c in s.net ==> !Asks(c, j, m.seqID)
    ensures 1 <= m.seqID <= |s.proposals| && m.digest == Digest(s.proposals[m.seqID-1])
  {
    assert MsgFollows(m, s.proposals, s.leader);
    forall c | c in s.net ensures !Asks(c, j, m.seqID) {
    }
  }

  lemma CommitStepKeeps(s: Sys, s': Sys, past: seq<Action>, j: nat, m: Msg)
    requires Inv(s) && LockInv(s, past) && HandleStep(s, s', j, m) && j != s.leader && !Waits(s.nodes[j], m)
    requires m.Commit?
    ensures LockInv(s', past + [HandleAct(j, m)])
  {
    var n := s.nodes[j];
    CommitLock(n, s.f, s.leader, m);
    if !MustAsk(n, s.f, m) {
      QuietStep(s, s', past, HandleAct(j, m));
    } else {
      NewQuestion(s, j, m);
      if n.askForLock { BlockingStep(s, s', past, j, m); } else { AskingStep(s, s', past, j, m); }
    }
  }

  lemma BlockingStep(s: Sys, s': Sys, past: seq<Action>, j: nat, m: Msg)
    requires Inv(s) && LockInv(s, past) && HandleStep(s, s', j, m) && j != s.leader && m.Commit?
    requires MustAsk(s.nodes[j], s.f, m) && s.nodes[j].askForLock
    ensures LockInv(s', past + [HandleAct(j, m)])
  {
    var a := HandleAct(j, m);
    assert s.nodes[j].id == j;
    CommitLock(s.nodes[j], s.f, s.leader, m);
    NewQuestion(s, j, m);
    assert s'.net == s.net;
    assert AskedFor(s', j, m.seqID) && WillAsk(s', j, m.seqID);
    QuestionsStay(s, s');
    RepliesStayApart(s, s', past, a);
    forall i | 0 <= i < |s.nodes| && i != s.leader ensures HoldsLock(s', past + [a], i) {
      if i != j {
        HoldsStill(s, s', past, a, i);
      } else {
        BlockedHolds(s, s', past, a, j, m.seqID);
      }
    }
  }

  lemma BlockedHolds(s: Sys, s': Sys, past: seq<Action>, a: Action, j: nat, e: nat)
    requires Grows(s, s') && s'.net == s.net && j < |s.nodes| && HoldsLock(s, past, j)
    requires s'.nodes[j].askForLock && s'.nodes[j].blocked == Question(e) && !s'.nodes[j].crashed
    requires WillAsk(s', j, e)
    ensures HoldsLock(s', past + [a], j)
  {
    SameQuestionsOpen(s, s', past, a, j);
  }

  /** No question opens where none is asked. */
  lemma SameQuestionsOpen(s: Sys, s': Sys, past: seq<Action>, a: Action, i: nat)
    requires Grows(s, s') && NothingAsked(s, s', i)
    ensures forall m :: Open(s', past + [a], i, m) ==> Open(s, past, i, m)
  {
    forall m | Open(s', past + [a], i, m) ensures Open(s, past, i, m) {
      StaysSettled(past, a, i, m.endHeight);
    }
  }

  lemma AskingStep(s: Sys, s': Sys, past: seq<Action>, j: nat, m: Msg)
    requires Inv(s) && LockInv(s, past) && HandleStep(s, s', j, m) && j != s.leader && m.Commit?
    requires MustAsk(s.nodes[j], s.f, m) && !s.nodes[j].askForLock
    ensures LockInv(s', past + [HandleAct(j, m)])
  {
    var a, q := HandleAct(j, m), RequestOld(s.nodes[j].sequenceID + 1, m.seqID, j);
    assert s.nodes[j].id == j && HoldsLock(s, past, j);
    CommitLock(s.nodes[j], s.f, s.leader, m);
    NewQuestion(s, j, m);
    assert AskedFor(s', j, m.seqID);
    QuestionAdded(s, s', q);
    RepliesStayApart(s, s', past, a);
    forall i | 0 <= i < |s.nodes| && i != s.leader ensures HoldsLock(s', past + [a], i) {
      if i != j {
        HoldsStill(s, s', past, a, i);
      } else {
        OneQuestionOpen(s, s', past, a, j, q);
      }
    }
  }

  /** Where all questions are settled by now, only the one just asked is open. */
  lemma OneQuestionOpen(s: Sys, s': Sys, past: seq<Action>, a: Action, i: nat, q: Msg)
    requires forall m :: Open(s, past, i, m) ==> a.HandleAct? && Replies(a.m, i, m.endHeight)
    requires forall m :: m in s'.net && m.RequestOld? && m.sender == i ==> m in s.net || m == q
    ensures forall m :: Open(s', past + [a], i, m) ==> m == q
  {
    forall m | Open(s', past + [a], i, m) ensures m == q {
      StaysSettled(past, a, i, m.endHeight);
      assert m in s.net ==> Open(s, past, i, m);
    }
  }

  /** A reply handled for the first time is to the open question. */
  lemma RepliesToOpen(s: Sys, past: seq<Action>, j: nat, m: Msg)
    requires LockInv(s, past) && m in s.net && m.SendOld? && m.to == j < |s.nodes| && j != s.leader
    requires HandleAct(j, m) !in past
    requires forall a :: a in past && a.HandleAct? ==> a.m in s.net && (a.m.SendOld? ==> a.i == a.m.to)
    ensures Open(s, past, j, QuestionOf(m)) && s.nodes[j].askForLock
    ensures forall q :: Open(s, past, j, q) ==> q.endHeight == m.endHeight
  {
    assert HoldsLock(s, past, j);
    assert Open(s, past, j, QuestionOf(m));
  }

  lemma ReplyStepKeeps(s: Sys, s': Sys, past: seq<Action>, j: nat, m: Msg)
    requires Inv(s) && LockInv(s, past) && HandleStep(s, s', j, m) && m.SendOld? && j != s.leader
    requires HandleAct(j, m) !in past
    requires forall a :: a in past && a.HandleAct? ==> a.m in s.net && (a.m.SendOld? ==> a.i == a.m.to)
    ensures LockInv(s', past + [HandleAct(j, m)])
  {
    var a, n := HandleAct(j, m), s.nodes[j];
    assert n.id == j && HoldsLock(s, past, j);
    ReplyLock(n, s.leader, m);
    RepliesToOpen(s, past, j, m);
    RepliesStayApart(s, s', past, a);
    var q := RequestOld(m.endHeight + 2, if n.blocked.Question? then n.blocked.endHeight else 0, j);
    if n.blocked.Question? {
      assert WillAsk(s, j, n.blocked.endHeight);
      assert AskedFor(s', j, n.blocked.endHeight);
      QuestionAdded(s, s', q);
    } else {
      QuestionsStay(s, s');
    }
    forall i | 0 <= i < |s.nodes| && i != s.leader ensures HoldsLock(s', past + [a], i) {
      if i != j {
        HoldsStill(s, s', past, a, i);
      } else {
        OneQuestionOpen(s, s', past, a, j, q);
        if !n.blocked.Question? { SameQuestionsOpen(s, s', past, a, j); }
      }
    }
  }

  /** The handlers that neither ask nor reply. */
  lemma QuietHandler(s: Sys, s': Sys, past: seq<Action>, j: nat, m: Msg)
    requires Inv(s) && LockInv(s, past) && HandleStep(s, s', j, m)
    requires m.PrePrepare? || m.Prepare? || (m.RequestOld? && j != s.leader) || (m.Commit? && j == s.leader)
    ensures LockInv(s', past + [HandleAct(j, m)])
  {
    var n := s.nodes[j];
    assert n.id == j && NodeFollows(n, s.proposals) && MsgFollows(m, s.proposals, s.leader);
    RepliesStay(n, s.f, s.leader, m);
    if m.Prepare? { PrepareKeeps(n, s.f, m); }
    if m.Commit? && m.seqID >= n.sequenceID { LeaderCommits(n, s.proposals, m); }
    QuietStep(s, s', past, HandleAct(j, m));
  }

  ghost predicate PastHandled(s: Sys, past: seq<Action>) {
    forall a :: a in past && a.HandleAct? ==> a.m in s.net && (a.m.SendOld? ==> a.i == a.m.to)
  }

  lemma LockStep(s: Sys, s': Sys, past: seq<Action>, a: Action)
    requires Inv(s) && LockInv(s, past) && PastHandled(s, past) && Step(s, s', a) && InStage(s, a)
    requires IsCatchUp(a) ==> a !in past
    ensures LockInv(s', past + [a]) && PastHandled(s', past + [a])
  {
    match a
    case ProposeAct(body, content, reqTime) => QuietStep(s, s', past, a);
    case HandleAct(j, m) =>
      if m.SendOld? {
        assert MsgFollows(m, s.proposals, s.leader);
        ReplyStepKeeps(s, s', past, j, m);
      } else if m.RequestOld? && j == s.leader {
        ReplyingStep(s, s', past, m);
      } else if m.Commit? && j != s.leader {
        CommitStepKeeps(s, s', past, j, m);
      } else {
        QuietHandler(s, s', past, j, m);
      }
  }

  lemma LockAtFirst(s: Sys)
    requires Init(s)
    ensures LockInv(s, []) && PastHandled(s, [])
  {
    forall i | 0 <= i < |s.nodes| && i != s.leader ensures HoldsLock(s, [], i) {
      assert StartsOn(s.nodes[i], i, s.proposals);
    }
  }

  lemma NotBefore(acts: seq<Action>, k: nat)
    requires CatchUpOnce(acts) && k < |acts|
    ensures IsCatchUp(acts[k]) ==> acts[k] !in acts[..k]
  {
  }

  lemma {:induction false} LockAlways(ss: seq<Sys>, acts: seq<Action>, k: nat)
    requires IsRun(ss, acts) && RespectsWaits(ss, acts) && CatchUpOnce(acts) && k <= |acts|
    ensures LockInv(ss[k], acts[..k]) && PastHandled(ss[k], acts[..k])
  {
    if k == 0 {
      LockAtFirst(ss[0]);
      assert acts[..0] == [];
    } else {
      LockAlways(ss, acts, k - 1);
      RunKeepsInv(ss, acts, k - 1);
      assert StepAt(ss, acts, k - 1) && InStage(ss[k-1], acts[k-1]);
      assert acts[..k] == acts[..k-1] + [acts[k-1]];
      NotBefore(acts, k - 1);
      LockStep(ss[k-1], ss[k], acts[..k-1], acts[k-1]);
    }
  }

  /**
   * In a run that respects the waits and in which no question and no reply is handled twice, no node ever releases a
   * lock it does not hold, neither the sequence lock nor the asking lock.
   */
  lemma NoNodeCrashes(ss: seq<Sys>, acts: seq<Action>, k: nat, i: nat)
    requires IsRun(ss, acts) && RespectsWaits(ss, acts) && CatchUpOnce(acts) && k < |ss| && i < |ss[k].nodes|
    ensures !ss[k].nodes[i].crashed
  {
    RunKeepsInv(ss, acts, k);
    LockAlways(ss, acts, k);
    if i != ss[k].leader { assert HoldsLock(ss[k], acts[..k], i); }
  }

  // ---------- exactly when a node crashes ----------

  /** In step j node i sends a question, and has taken the asking lock for it. */
  ghost predicate AsksAt(ss: seq<Sys>, acts: seq<Action>, j: nat, i: nat)
    requires |ss| == |acts| + 1 && j < |acts|
  {
    && acts[j].HandleAct? && acts[j].i == i < |ss[j].nodes|
    && SendsQuestion(Handle(ss[j].nodes[i], ss[j].f, ss[j].leader, acts[j].m).sent)
  }

  /** How many questions node i sends in the first k steps. */
  ghost function Asked(ss: seq<Sys>, acts: seq<Action>, k: nat, i: nat): nat
    requires |ss| == |acts| + 1 && k <= |acts|
  {
    if k == 0 then 0 else Asked(ss, acts, k - 1, i) + if AsksAt(ss, acts, k - 1, i) then 1 else 0
  }

  /** How many replies it handles. */
  function Replied(acts: seq<Action>, k: nat, i: nat): nat
    requires k <= |acts|
  {
    if k == 0 then 0
    else Replied(acts, k - 1, i) + if acts[k-1].HandleAct? && acts[k-1].i == i && acts[k-1].m.SendOld? then 1 else 0
  }

  function OneIf(b: bool): nat {
    if b then 1 else 0
  }

  /** What a handler asks and what it is told show in the lock; a reply without the lock is the one way to crash. */
  lemma HandlerCounts(n: Node, f: nat, leader: nat, m: Msg)
    requires n.id != leader && (n.blocked.Question? ==> n.askForLock)
    ensures var out := Handle(n, f, leader, m);
            && out.node.crashed == (n.crashed || (m.SendOld? && !n.askForLock))
            && OneIf(n.askForLock) + OneIf(SendsQuestion(out.sent))
                 == OneIf(out.node.askForLock) + OneIf(m.SendOld? && n.askForLock)
            && (m.SendOld? && !n.askForLock ==> !SendsQuestion(out.sent))
            && (out.node.blocked.Question? ==> out.node.askForLock)
  {
    match m
    case PrePrepare(_, _, _) =>
    case Prepare(_, _, _) => PrepareKeeps(n, f, m);
    case Commit(_, _, _) => CommitLock(n, f, leader, m);
    case RequestOld(_, _, _) =>
    case SendOld(_, _, _, _) => ReplyLock(n, leader, m);
  }

  /** The lock is held as long as one more question has been asked than replies handled. */
  ghost predicate CountsLock(n: Node, asked: nat, replied: nat) {
    && (n.blocked.Question? ==> n.askForLock)
    && (!n.crashed ==> asked == replied + OneIf(n.askForLock))
  }

  ghost predicate MoreReplies(ss: seq<Sys>, acts: seq<Action>, j: nat, i: nat)
    requires |ss| == |acts| + 1 && j <= |acts|
  {
    Replied(acts, j, i) > Asked(ss, acts, j, i)
  }

  ghost predicate Exceeded(ss: seq<Sys>, acts: seq<Action>, k: nat, i: nat)
    requires |ss| == |acts| + 1 && k <= |acts|
  {
    exists j :: 0 <= j <= k && MoreReplies(ss, acts, j, i)
  }

  lemma ExceededNext(ss: seq<Sys>, acts: seq<Action>, k: nat, i: nat)
    requires |ss| == |acts| + 1 && k < |acts|
    ensures Exceeded(ss, acts, k + 1, i) <==> Exceeded(ss, acts, k, i) || MoreReplies(ss, acts, k + 1, i)
  {
  }

  /** A step of node i, or of another, in these terms. */
  lemma CountStep(ss: seq<Sys>, acts: seq<Action>, k: nat, i: nat)
    requires IsRun(ss, acts) && k < |acts| && Inv(ss[k]) && i < |ss[k].nodes| && i != ss[k].leader
    requires CountsLock(ss[k].nodes[i], Asked(ss, acts, k, i), Replied(acts, k, i))
    ensures i < |ss[k+1].nodes|
    ensures CountsLock(ss[k+1].nodes[i], Asked(ss, acts, k + 1, i), Replied(acts, k + 1, i))
    ensures ss[k].nodes[i].crashed ==> ss[k+1].nodes[i].crashed
    ensures !ss[k].nodes[i].crashed ==> (ss[k+1].nodes[i].crashed <==> MoreReplies(ss, acts, k + 1, i))
  {
    assert StepAt(ss, acts, k);
    match acts[k]
    case ProposeAct(_, _, _) =>
    case HandleAct(j, m) =>
      if j == i {
        assert ss[k].nodes[i].id == i;
        HandlerCounts(ss[k].nodes[i], ss[k].f, ss[k].leader, m);
      }
  }

  /**
   * Exactly when a node other than the leader crashes, in every run: once it has handled more replies than it has
   * asked questions.
   */
  lemma {:induction false} CrashedIff(ss: seq<Sys>, acts: seq<Action>, k: nat, i: nat)
    requires IsRun(ss, acts) && k <= |acts| && i < |ss[0].nodes| && i != ss[0].leader
    ensures i < |ss[k].nodes| && i != ss[k].leader
    ensures CountsLock(ss[k].nodes[i], Asked(ss, acts, k, i), Replied(acts, k, i))
    ensures ss[k].nodes[i].crashed <==> Exceeded(ss, acts, k, i)
  {
    if k == 0 {
      assert StartsOn(ss[0].nodes[i], i, ss[0].proposals);
    } else {
      CrashedIff(ss, acts, k - 1, i);
      RunKeepsInv(ss, acts, k - 1);
      assert StepAt(ss, acts, k - 1);
      CountStep(ss, acts, k - 1, i);
      ExceededNext(ss, acts, k - 1, i);
    }
  }
}
