/** The checker and the service together. */
module EndToEnd {
  import opened Entries
  import M = KvModel
  import opened Service
  import opened ServiceHistory
  import Verdict

  lemma {:induction false} CompletionIsProper(s: System)
    requires Invariant(s)
    ensures M.Typed(Completion(s)) == true && ProperTimes(Completion(s)) == true
  {
    var h := Completion(s);
    forall i | 0 <= i < |h|
      ensures h[i].call < h[i].ret
    {
      assert CallOk(s, i);
    }
    forall i, j | 0 <= i < |h| && 0 <= j < |h|
      ensures h[i].ret != h[j].call
    {
      assert LogOk(s.calls[i], s.calls[j]) && CallOk(s, j);
    }
  }

  /** `CheckOperations` accepts the history of every run of clerks and servers. */
  method CheckRun(history: M.History, ghost states: seq<System>, ghost actions: seq<Action>, ghost i: nat)
    returns (ok: bool)
    requires IsRun(states, actions) && i < |states| && history == Completion(states[i]) && history != []
    ensures ok
  {
    RunsKeepInvariant(states, actions, i);
    CompletionIsProper(states[i]);
    RunsAreLinearizable(states, actions, i);
    ok := Verdict.CheckOperations(history);
  }
}
