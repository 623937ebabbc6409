/** A consensus node, whose handlers update its fields as module Pbft specifies (consensus_shard/pbft_all). */
module PbftNode {
  import opened Pbft

  class PbftConsensusNode {
    const nodeID: nat
    const view: nat
    const maliciousNums: nat
    var chain: seq<Block>
    var sequenceID: nat
    var requestPool: map<Digest, Request>
    var height2Digest: map<nat, Digest>
    var cntPrepareConfirm: map<Digest, nat>
    var cntCommitConfirm: map<Digest, nat>
    var isCommitBordcast: set<Digest>
    var isReply: set<Digest>
    var pbftStage: nat
    var sequenceLock: bool
    var askForLock: bool
    var blocked: Question
    var crashed: bool

    function State(): Node
      reads this
    {
      Node(nodeID, chain, sequenceID, requestPool, height2Digest, cntPrepareConfirm, cntCommitConfirm,
           isCommitBordcast, isReply, pbftStage, sequenceLock, askForLock, blocked, crashed)
    }

    /** A node starts on the chain it has stored. */
    constructor (nodeID: nat, nodeNums: nat, stored: seq<Block>)
      requires nodeNums > 0
      ensures State() == InitNode(nodeID, stored) && view == 0 && maliciousNums == (nodeNums - 1) / 3
    {
      this.nodeID, view, maliciousNums := nodeID, 0, (nodeNums - 1) / 3;
      chain, sequenceID, requestPool, height2Digest := stored, CurrentNumber(stored) + 1, map[], map[];
      cntPrepareConfirm, cntCommitConfirm, isCommitBordcast, isReply := map[], map[], {}, {};
      pbftStage, sequenceLock, askForLock, blocked, crashed := 1, false, false, NoQuestion, false;
    }

    method AddBlock(b: Block)
      modifies this`chain
      ensures chain == Pbft.AddBlock(old(chain), b)
    {
      if b.header.number != CurrentNumber(chain) + 1 {
        return;
      }
      if b.header.parent != CurrentHash(chain) {
        return;
      }
      chain := chain + [b];
    }

    method Pool(r: Request, seqID: nat)
      modifies this`requestPool, this`height2Digest
      ensures State() == Pooled(old(State()), r, seqID)
    {
      requestPool := requestPool[Digest(r) := r];
      height2Digest := height2Digest[seqID := Digest(r)];
    }

    /** One more prepare or commit message for a digest. */
    method Set2DMap(isPrepareConfirm: bool, key: Digest)
      modifies this`cntPrepareConfirm, this`cntCommitConfirm
      ensures State() == if isPrepareConfirm then CountPrepare(old(State()), key) else CountCommit(old(State()), key)
    {
      if isPrepareConfirm {
        if key !in cntPrepareConfirm {
          cntPrepareConfirm := cntPrepareConfirm[key := 0];
        }
        cntPrepareConfirm := cntPrepareConfirm[key := cntPrepareConfirm[key] + 1];
      } else {
        if key !in cntCommitConfirm {
          cntCommitConfirm := cntCommitConfirm[key := 0];
        }
        cntCommitConfirm := cntCommitConfirm[key := cntCommitConfirm[key] + 1];
      }
    }

    method Propose(body: seq<nat>, content: nat, reqTime: nat) returns (sent: set<Msg>)
      requires nodeID == view && !sequenceLock
      modifies this
      ensures Outcome(State(), sent) == Pbft.Propose(old(State()), body, content, reqTime)
    {
      sequenceLock := true;
      var r := Request(GenerateBlock(chain, body, content), reqTime);
      Pool(r, sequenceID);
      sent := {PrePrepare(r, Digest(r), sequenceID)};
      pbftStage := 2;
    }

    /** A waiting handler changes nothing and is to be called again; the others run as module Pbft says. */
    method HandlePrePrepare(m: Msg) returns (waiting: bool, sent: set<Msg>)
      requires m.PrePrepare?
      modifies this
      ensures waiting <==> Waits(old(State()), m)
      ensures if waiting then State() == old(State()) && sent == {}
              else Outcome(State(), sent) == Pbft.HandlePrePrepare(old(State()), m)
    {
      waiting, sent := false, {};
      if blocked.Question? || (pbftStage < 1 && m.seqID >= sequenceID) {
        return true, {};
      }
      if m.seqID < sequenceID {
        return;
      }
      var flag := false;
      if Digest(m.request) != m.digest {
      } else if sequenceID < m.seqID {
        Pool(m.request, m.seqID);
      } else {
        flag := IsValidBlock(chain, m.request.block);
        Pool(m.request, m.seqID);
      }
      if flag {
        sent := {Prepare(m.digest, m.seqID, nodeID)};
        pbftStage := pbftStage + 1;
      }
    }

    method HandlePrepare(m: Msg) returns (waiting: bool, sent: set<Msg>)
      requires m.Prepare?
      modifies this
      ensures waiting <==> Waits(old(State()), m)
      ensures if waiting then State() == old(State()) && sent == {}
              else Outcome(State(), sent) == Pbft.HandlePrepare(old(State()), maliciousNums, m)
    {
      waiting, sent := false, {};
      if blocked.Question? || (pbftStage < 2 && m.seqID >= sequenceID) {
        return true, {};
      }
      if m.seqID < sequenceID {
        return;
      }
      if m.digest !in requestPool {
      } else if sequenceID < m.seqID {
      } else {
        Set2DMap(true, m.digest);
        var cnt := cntPrepareConfirm[m.digest];
        if cnt >= 2 * maliciousNums + 1 && m.digest !in isCommitBordcast {
          sent := {Commit(m.digest, m.seqID, nodeID)};
          isCommitBordcast := isCommitBordcast + {m.digest};
          pbftStage := pbftStage + 1;
        }
      }
    }

    /** Where it has to ask for blocks while an earlier question is open, it blocks after counting the message. */
    method HandleCommit(m: Msg) returns (waiting: bool, sent: set<Msg>)
      requires m.Commit?
      modifies this
      ensures waiting <==> Waits(old(State()), m)
      ensures if waiting then State() == old(State()) && sent == {}
              else Outcome(State(), sent) == Pbft.HandleCommit(old(State()), maliciousNums, view, m)
    {
      waiting, sent := false, {};
      if blocked.Question? || (pbftStage < 3 && m.seqID >= sequenceID) {
        return true, {};
      }
      if m.seqID < sequenceID {
        return;
      }
      Set2DMap(false, m.digest);
      var cnt := cntCommitConfirm[m.digest];
      if cnt >= 2 * maliciousNums + 1 && m.digest !in isReply {
        if m.digest !in requestPool {
          isReply := isReply + {m.digest};
          if askForLock {
            blocked := Question(m.seqID);
            return;
          }
          askForLock := true;
          sent := {RequestOld(sequenceID + 1, m.seqID, nodeID)};
        } else {
          CommitPooled(m.digest);
        }
        FinishRound();
      }
    }

    method CommitPooled(d: Digest)
      requires d in requestPool
      modifies this`chain, this`isReply, this`sequenceID
      ensures State() == CommitRequest(old(State()), d)
    {
      AddBlock(requestPool[d].block);
      isReply := isReply + {d};
      sequenceID := sequenceID + 1;
    }

    method FinishRound()
      modifies this`crashed, this`sequenceLock, this`pbftStage
      ensures State() == EndRound(old(State()), view)
    {
      pbftStage := 1;
      if nodeID == view {
        crashed := crashed || !sequenceLock;
        sequenceLock := false;
      }
    }

    method HandleRequestOldSeq(m: Msg) returns (sent: set<Msg>)
      requires m.RequestOld?
      ensures Outcome(State(), sent) == Pbft.HandleRequestOld(State(), view, m)
    {
      if view != nodeID {
        return {};
      }
      var oldR: seq<Request> := [];
      var height := m.startHeight;
      while height <= m.endHeight
        invariant m.startHeight <= height
        invariant Collected(State(), m.startHeight, m.endHeight) == oldR + Collected(State(), height, m.endHeight)
      {
        if height !in height2Digest {
          break;
        }
        if height2Digest[height] !in requestPool {
          break;
        }
        var r := requestPool[height2Digest[height]];
        assert oldR + ([r] + Collected(State(), height + 1, m.endHeight))
            == oldR + [r] + Collected(State(), height + 1, m.endHeight);
        oldR := oldR + [r];
        height := height + 1;
      }
      assert Collected(State(), height, m.endHeight) == [] && oldR + [] == oldR;
      sent := {SendOld(m.startHeight, m.endHeight, oldR, m.sender)};
    }

    method HandleSendOldSeq(m: Msg) returns (sent: set<Msg>)
      requires m.SendOld?
      modifies this
      ensures Outcome(State(), sent) == Pbft.HandleSendOld(old(State()), view, m)
    {
      TakeReply(m);
      sent := PrepareHeld();
      var asked := ReleaseAskForLock();
      sent := sent + asked;
    }

    method TakeReply(m: Msg)
      requires m.SendOld?
      modifies this
      ensures State() == CaughtUp(old(State()), m) && sequenceID == m.endHeight + 1
    {
      HandleForSequentialRequest(m);
      PoolOldRequests(m);
      sequenceID := m.endHeight + 1;
    }

    /** Prepares the request held for the height now waited for, if its block continues the chain. */
    method PrepareHeld() returns (sent: set<Msg>)
      ensures sent == PrepareNext(State(), sequenceID)
    {
      sent := {};
      if sequenceID in height2Digest {
        var rDigest := height2Digest[sequenceID];
        if rDigest in requestPool {
          var r := requestPool[rDigest];
          if IsValidBlock(chain, r.block) {
            sent := {Prepare(Digest(r), sequenceID, nodeID)};
          }
        }
      }
    }

    /** The lock goes to the handler blocked on it, if there is one, which asks and ends its round. */
    method ReleaseAskForLock() returns (sent: set<Msg>)
      modifies this`crashed, this`askForLock, this`blocked, this`sequenceLock, this`pbftStage
      ensures Outcome(State(), sent) == Answered(old(State()), view)
    {
      sent := {};
      crashed := crashed || !askForLock;
      askForLock := false;
      if blocked.Question? {
        askForLock := true;
        sent := {RequestOld(sequenceID + 1, blocked.endHeight, nodeID)};
        blocked := NoQuestion;
        FinishRound();
      }
    }

    /** Adds the caught-up blocks, unless some are missing. */
    method HandleForSequentialRequest(m: Msg)
      requires m.SendOld?
      modifies this`chain
      ensures chain == ChainAfter(old(chain), m)
    {
      if m.endHeight - m.startHeight + 1 != |m.oldRequest| {
        return;
      }
      for i := 0 to |m.oldRequest|
        invariant chain == AddBlocks(old(chain), m.oldRequest[..i])
      {
        assert m.oldRequest[..i+1][..i] == m.oldRequest[..i];
        AddBlock(m.oldRequest[i].block);
      }
      assert m.oldRequest[..|m.oldRequest|] == m.oldRequest;
    }

    method PoolOldRequests(m: Msg)
      requires m.SendOld?
      modifies this`requestPool, this`height2Digest, this`isReply
      ensures State() == PooledFrom(old(State()), m.oldRequest, m.startHeight)
    {
      var rs := m.oldRequest;
      for idx := 0 to |rs|
        invariant State() == PooledFrom(old(State()), rs[..idx], m.startHeight)
      {
        assert rs[..idx+1][..idx] == rs[..idx];
        Pool(rs[idx], m.startHeight + idx);
        isReply := isReply + {Digest(rs[idx])};
      }
      assert rs[..|rs|] == rs;
    }
  }
}
