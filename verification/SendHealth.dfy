/** Counting consecutive failed report sends. */
module SendHealth {
  const MAX_CONSECUTIVE_FAILURES: nat := 10

  /** The length of the failing tail of a list of send results; true is a success. */
  function FailingTail(sends: seq<bool>): nat {
    if sends == [] || sends[|sends| - 1] then 0 else 1 + FailingTail(sends[..|sends| - 1])
  }

  class Health {
    var consecutiveFailures: nat
    ghost var sends: seq<bool>

    ghost predicate Valid()
      reads this
    {
      consecutiveFailures == FailingTail(sends)
    }

    constructor ()
      ensures Valid() && sends == []
    {
      consecutiveFailures, sends := 0, [];
    }

    method Record(success: bool)
      requires Valid()
      modifies this
      ensures Valid() && sends == old(sends) + [success]
      ensures consecutiveFailures == if success then 0 else old(consecutiveFailures) + 1
    {
      sends := sends + [success];
      assert sends[..|sends| - 1] == old(sends);
      if success {
        consecutiveFailures := 0;
        return;
      }
      consecutiveFailures := consecutiveFailures + 1;
    }

    method Reset()
      requires Valid()
      modifies this
      ensures Valid() && sends == [] && consecutiveFailures == 0
    {
      Record(true);
      sends := [];
    }

    method Failing() returns (failing: bool)
      requires Valid()
      ensures failing <==> LastAllFailed(sends)
    {
      TailBelow(sends, MAX_CONSECUTIVE_FAILURES);
      failing := !(consecutiveFailures < MAX_CONSECUTIVE_FAILURES);
    }
  }

  /** At least the permitted number of sends were recorded, and the last ones all failed. */
  ghost predicate LastAllFailed(sends: seq<bool>) {
    |sends| >= MAX_CONSECUTIVE_FAILURES
      && forall i | |sends| - MAX_CONSECUTIVE_FAILURES <= i < |sends| :: !sends[i]
  }

  lemma {:induction false} TailBelow(sends: seq<bool>, n: nat)
    ensures FailingTail(sends) >= n <==> |sends| >= n && forall i | |sends| - n <= i < |sends| :: !sends[i]
  {
    if n > 0 && sends != [] {
      var front := sends[..|sends| - 1];
      TailBelow(front, n - 1);
      assert forall i | 0 <= i < |front| :: front[i] == sends[i];
    }
  }
}
