/** The attempt ledger: recording one attempt, and choosing the accepted stack. */
module ControlPolicy {
  import opened Wrappers
  import opened CampaignModels

  datatype LedgerError = AlreadyEvaluated | NotAccepted(candidateId: string)

  /** `model_copy` with one more attempt: the ledger validator does not run. */
  function RecordOptimizationAttempt(l: Ledger, a: Attempt): Result<Ledger, LedgerError> {
    if exists i :: 0 <= i < |l.attempts| && l.attempts[i].fingerprint == a.fingerprint
    then Err(AlreadyEvaluated)
    else Ok(l.(attempts := l.attempts + [a]))
  }

  predicate AcceptedAttempt(a: Attempt, candidateId: string) {
    a.candidateId == candidateId && a.disposition.AttemptAccepted?
  }

  function AcceptedIndex(l: Ledger, candidateId: string): nat {
    First(l.attempts, a => AcceptedAttempt(a, candidateId))
  }

  function EntryOf(a: Attempt): StackEntry {
    StackEntry(a.candidateId, a.strategy, a.fingerprint, a.evidence)
  }

  /** The stack for `ids`, or the first id that has no accepted attempt. */
  function SelectStack(l: Ledger, ids: seq<string>): Result<seq<StackEntry>, LedgerError> {
    if ids == [] then Ok([])
    else
      var last := ids[|ids| - 1];
      match SelectStack(l, ids[..|ids| - 1])
      case Err(e) => Err(e)
      case Ok(stack) =>
        var k := AcceptedIndex(l, last);
        if k == |l.attempts| then Err(NotAccepted(last))
        else Ok(stack + [EntryOf(l.attempts[k])])
  }

  function SelectOptimizationStack(l: Ledger, ids: seq<string>): Result<Ledger, LedgerError> {
    match SelectStack(l, ids)
    case Err(e) => Err(e)
    case Ok(stack) => Ok(l.(acceptedStack := stack))
  }

  /** The entry shows the attempt. */
  predicate Stacks(e: StackEntry, a: Attempt) {
    && e.candidateId == a.candidateId && e.strategy == a.strategy && e.fingerprint == a.fingerprint
    && e.evidence == a.evidence
  }

  /** The first accepted attempt of a candidate. */
  predicate FirstAccepted(l: Ledger, id: string, i: nat) {
    && i < |l.attempts| && l.attempts[i].candidateId == id && l.attempts[i].disposition.AttemptAccepted?
    && forall j :: 0 <= j < i ==> l.attempts[j].candidateId != id || !l.attempts[j].disposition.AttemptAccepted?
  }

  /** Selection succeeds exactly when every id has an accepted attempt, and then
      the stack shows, position by position, that id's first accepted attempt. */
  lemma {:induction false} SelectStackMeaning(l: Ledger, ids: seq<string>)
    ensures SelectStack(l, ids).Ok? <==>
              forall k :: 0 <= k < |ids| ==>
                exists a :: a in l.attempts && a.candidateId == ids[k] && a.disposition.AttemptAccepted?
    ensures SelectStack(l, ids).Ok? ==>
              var stack := SelectStack(l, ids).value;
              && |stack| == |ids|
              && forall k :: 0 <= k < |ids| ==>
                   && FirstAccepted(l, ids[k], AcceptedIndex(l, ids[k]))
                   && Stacks(stack[k], l.attempts[AcceptedIndex(l, ids[k])])
  {
    if ids != [] {
      var init, last := ids[..|ids| - 1], ids[|ids| - 1];
      SelectStackMeaning(l, init);
      var k := AcceptedIndex(l, last);
      assert ids == init + [last];
      if SelectStack(l, ids).Ok? {
        assert l.attempts[k] in l.attempts && AcceptedAttempt(l.attempts[k], last);
        forall j | 0 <= j < |ids|
          ensures exists a :: a in l.attempts && AcceptedAttempt(a, ids[j])
        {
          if j < |init| { assert ids[j] == init[j]; }
        }
      }
    }
  }

  /** The loop of `select_optimization_stack`, appending one entry per id. */
  method SelectStackLoop(l: Ledger, ids: seq<string>) returns (r: Result<Ledger, LedgerError>)
    ensures r == SelectOptimizationStack(l, ids)
  {
    var selected: seq<StackEntry> := [];
    for n := 0 to |ids|
      invariant SelectStack(l, ids[..n]) == Ok(selected)
    {
      assert ids[..n + 1][..n] == ids[..n];
      var k := AcceptedIndex(l, ids[n]);
      if k == |l.attempts| {
        SelectStackStops(l, ids, n + 1);
        return Err(NotAccepted(ids[n]));
      }
      selected := selected + [EntryOf(l.attempts[k])];
    }
    assert ids[..|ids|] == ids;
    return Ok(l.(acceptedStack := selected));
  }

  /** A prefix that fails decides the whole selection. */
  lemma {:induction false} SelectStackStops(l: Ledger, ids: seq<string>, n: nat)
    requires n <= |ids| && SelectStack(l, ids[..n]).Err?
    ensures SelectStack(l, ids) == SelectStack(l, ids[..n])
    decreases |ids| - n
  {
    if n == |ids| {
      assert ids[..n] == ids;
    } else {
      assert ids[..n + 1][..n] == ids[..n];
      SelectStackStops(l, ids, n + 1);
    }
  }
}
