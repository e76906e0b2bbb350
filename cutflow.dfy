/** get_cutflow: run the user's counter on one file, retrying after any
    exception, and give up with the file name after the fourth failure. */
module Cutflow {
  import opened Common

  /** What one attempt (load the config, open the file, call the counter)
      came to: an exception, or the counter's return value. */
  datatype Attempt = Raised | Returned(v: Value)

  /** The largest `numErrors` for which another attempt is made. */
  const MaxErrors: nat := 3

  /** get_cutflow(fname, numErrors). `counter(k)` is what the attempt made
      with `numErrors == k` comes to; the counter is an oracle because ROOT
      and the configuration file are foreign. */
  function GetCutflow(fname: string, counter: nat -> Attempt, numErrors: nat): Value
    decreases if numErrors > MaxErrors then 0 else MaxErrors + 1 - numErrors
  {
    if numErrors > MaxErrors then Str(fname)
    else match counter(numErrors)
      case Returned(v) => v
      case Raised => GetCutflow(fname, counter, numErrors + 1)
  }

  /** The first attempt that returns decides the result: the count is
      returned as it is. */
  lemma {:induction false} GetCutflowFirstSuccess(fname: string, counter: nat -> Attempt, numErrors: nat, k: nat)
    requires numErrors <= k <= MaxErrors
    requires counter(k).Returned?
    requires forall j :: numErrors <= j < k ==> counter(j).Raised?
    ensures GetCutflow(fname, counter, numErrors) == counter(k).v
    decreases k - numErrors
  {
    if numErrors < k {
      GetCutflowFirstSuccess(fname, counter, numErrors + 1, k);
    }
  }

  /** After four consecutive failures the file name itself comes back. */
  lemma {:induction false} GetCutflowGivesUp(fname: string, counter: nat -> Attempt, numErrors: nat)
    requires forall j :: numErrors <= j <= MaxErrors ==> counter(j).Raised?
    ensures GetCutflow(fname, counter, numErrors) == Str(fname)
    decreases if numErrors > MaxErrors then 0 else MaxErrors + 1 - numErrors
  {
    if numErrors <= MaxErrors {
      GetCutflowGivesUp(fname, counter, numErrors + 1);
    }
  }

  /** At most four attempts are made: attempts 0 to 3 are the only ones
      whose outcome can matter. */
  lemma {:induction false} GetCutflowAtMostFourAttempts(fname: string, counter: nat -> Attempt, other: nat -> Attempt, numErrors: nat)
    requires forall j :: numErrors <= j <= MaxErrors ==> counter(j) == other(j)
    ensures GetCutflow(fname, counter, numErrors) == GetCutflow(fname, other, numErrors)
    decreases if numErrors > MaxErrors then 0 else MaxErrors + 1 - numErrors
  {
    if numErrors <= MaxErrors {
      GetCutflowAtMostFourAttempts(fname, counter, other, numErrors + 1);
    }
  }

  /** The result is either some attempt's return value or the file name. */
  lemma {:induction false} GetCutflowOutcome(fname: string, counter: nat -> Attempt, numErrors: nat)
    ensures GetCutflow(fname, counter, numErrors) == Str(fname)
      || exists k :: numErrors <= k <= MaxErrors && counter(k) == Returned(GetCutflow(fname, counter, numErrors))
    decreases if numErrors > MaxErrors then 0 else MaxErrors + 1 - numErrors
  {
    if numErrors <= MaxErrors && counter(numErrors).Raised? {
      GetCutflowOutcome(fname, counter, numErrors + 1);
    }
  }
}
