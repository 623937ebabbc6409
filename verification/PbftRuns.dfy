/** Building concrete runs in which every handler waits as the program makes it wait. */
module PbftRuns {
  import opened Pbft

  ghost predicate Follows(s: Sys, s': Sys, a: Action) {
    Step(s, s', a) && InStage(s, a)
  }

  /** A run that respects every wait and has reached s. */
  ghost predicate Reached(ss: seq<Sys>, acts: seq<Action>, s: Sys) {
    IsRun(ss, acts) && RespectsWaits(ss, acts) && ss[|ss|-1] == s
  }

  lemma Extend(ss0: seq<Sys>, acts0: seq<Action>, s: Sys, s': Sys, a: Action)
    returns (ss: seq<Sys>, acts: seq<Action>)
    requires Reached(ss0, acts0, s) && Follows(s, s', a)
    ensures Reached(ss, acts, s') && ss == ss0 + [s'] && acts == acts0 + [a]
  {
    ss, acts := ss0 + [s'], acts0 + [a];
    forall i | 0 <= i < |acts| ensures StepAt(ss, acts, i) && InStage(ss[i], acts[i]) {
      if i < |acts0| { assert StepAt(ss0, acts0, i); }
    }
  }

  /** One handler call whose outcome is known. */
  lemma Handled(s: Sys, i: nat, m: Msg, n: Node, sent: set<Msg>)
    requires i < |s.nodes| && m in s.net && (m.SendOld? ==> m.to == i) && !Waits(s.nodes[i], m)
    requires Handle(s.nodes[i], s.f, s.leader, m) == Outcome(n, sent)
    ensures Follows(s, s.(nodes := s.nodes[i := n], net := s.net + sent), HandleAct(i, m))
  {
  }
}
