/**
  The `requires_connection` wrappers as a state machine over the steps one
  call takes: running the wrapped operation once (`Invoked`) and replacing
  the connection (`Reconnected`), each with the error it raised, if any.
*/
module Retry {
  import opened Driver

  datatype Step = Invoked(raised: Option<ErrorKind>) | Reconnected(raised: Option<ErrorKind>)

  /** The error classes the synchronous wrapper treats as a lost connection. */
  predicate Retryable(e: ErrorKind)
  {
    e == OperationalError || e == InterfaceError
  }

  predicate RaisedRetryable(raised: Option<ErrorKind>)
  {
    raised.Some? && Retryable(raised.value)
  }

  /**
    The synchronous wrapper: run once; if that raised a retryable error,
    reconnect once and, if the reconnect succeeded, run once more. The call
    ends with `raised`, the error of its last step.
  */
  predicate RetriedOnce(steps: seq<Step>, raised: Option<ErrorKind>): (b: bool)
    ensures b ==> steps != [] && steps[0].Invoked? && steps[|steps| - 1].raised == raised
    ensures b ==> forall i | 0 <= i < |steps| - 1 ::
                    if steps[i].Invoked? then RaisedRetryable(steps[i].raised) else steps[i].raised == None
  {
    || (steps == [Invoked(raised)] && !RaisedRetryable(raised))
    || (|steps| == 2 && steps[0].Invoked? && RaisedRetryable(steps[0].raised)
        && steps[1] == Reconnected(raised) && raised.Some?)
    || (|steps| == 3 && steps[0].Invoked? && RaisedRetryable(steps[0].raised)
        && steps[1] == Reconnected(None) && steps[2] == Invoked(raised))
  }

  /** A reconnect succeeded, so the wrapped operation ran a second time. */
  predicate Rerun(steps: seq<Step>)
  {
    Reconnected(None) in steps
  }

  /**
    The steps of a synchronous call against the driver's fault schedule,
    with `s0` and `s1` the request counts before and after the call: after a
    retry, the first run failed on request `at - 1`, the reconnect is
    request `at`, and nothing follows a failed reconnect.
  */
  ghost predicate RetryScheduled(steps: seq<Step>, fault: nat -> Option<ErrorKind>, s0: nat, at: nat, s1: nat)
  {
    |steps| >= 2 ==>
      && s0 < at < s1
      && steps[0].raised == fault(at - 1) && steps[1].raised == fault(at)
      && (|steps| == 2 ==> s1 == at + 1)
  }

  /** The pooled wrapper: without a pool it raises AttributeError, otherwise it runs exactly once. */
  predicate CalledOnce(steps: seq<Step>, raised: Option<ErrorKind>, pooled: bool): (b: bool)
    ensures b ==> forall i | 0 <= i < |steps| :: steps[i] == Invoked(raised)
    ensures b ==> (|steps| == 1 <==> pooled) && (!pooled ==> raised == Some(AttributeError))
  {
    if pooled then steps == [Invoked(raised)] else steps == [] && raised == Some(AttributeError)
  }

  function Invocations(steps: seq<Step>): nat
  {
    if steps == [] then 0 else (if steps[0].Invoked? then 1 else 0) + Invocations(steps[1..])
  }

  function Reconnects(steps: seq<Step>): nat
  {
    if steps == [] then 0 else (if steps[0].Reconnected? then 1 else 0) + Reconnects(steps[1..])
  }

  /**
    The synchronous wrapper runs the operation once or twice and reconnects at
    most once; it reconnects exactly when the first run raised a retryable
    error, and runs a second time exactly when that reconnect succeeded.
  */
  lemma {:induction false} RetryBounded(steps: seq<Step>, raised: Option<ErrorKind>)
    requires RetriedOnce(steps, raised)
    ensures 1 <= Invocations(steps) <= 2 && Reconnects(steps) <= 1
    ensures Reconnects(steps) == 1 <==> RaisedRetryable(steps[0].raised)
    ensures Invocations(steps) == 2 <==> RaisedRetryable(steps[0].raised) && steps[1] == Reconnected(None)
  {
    var tail := steps[1..];
    if |steps| == 1 {
      assert tail == [];
    } else if |steps| == 2 {
      assert tail == [steps[1]] && tail[1..] == [];
      assert Invocations(tail) == 0 && Reconnects(tail) == 1;
    } else {
      assert tail == [steps[1], steps[2]] && tail[1..] == [steps[2]] && tail[1..][1..] == [];
      assert Invocations(tail) == 1 && Reconnects(tail) == 1;
    }
  }

  /**
    If the first run does not raise a retryable error, nothing else happens:
    its result (value or error) is the call's result.
  */
  lemma RetryFirstRunDecides(steps: seq<Step>, raised: Option<ErrorKind>)
    requires RetriedOnce(steps, raised)
    ensures !RaisedRetryable(steps[0].raised) ==> steps == [Invoked(raised)]
    ensures RaisedRetryable(steps[0].raised) ==> steps[1].Reconnected?
  {
  }

  /** The call succeeds only if its last run succeeded; an error of the reconnect or of the second run propagates. */
  lemma RetryResultIsLastStep(steps: seq<Step>, raised: Option<ErrorKind>)
    requires RetriedOnce(steps, raised)
    ensures steps[|steps| - 1].raised == raised
    ensures raised.None? ==> steps[|steps| - 1] == Invoked(None)
  {
  }

  /** The pooled wrapper never retries and never reconnects. */
  lemma {:induction false} CalledOnceNeverRetries(steps: seq<Step>, raised: Option<ErrorKind>, pooled: bool)
    requires CalledOnce(steps, raised, pooled)
    ensures Invocations(steps) == (if pooled then 1 else 0) && Reconnects(steps) == 0
  {
    if pooled {
      assert steps[1..] == [];
    }
  }
}
