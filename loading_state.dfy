/**
 * The global loading counter: `start` counts one more pending operation,
 * `stop` one fewer but never below zero, and the app is loading while any
 * operation is pending.
 */
module LoadingState {

  datatype Call = Start | Stop

  /** The count after one call; `stop` is `Math.max(0, count - 1)`. */
  function Next(count: nat, call: Call): (r: nat)
    ensures call == Start ==> r == count + 1
    ensures call == Stop ==> r == if count > 0 then count - 1 else 0
  {
    match call
    case Start => count + 1
    case Stop => if count - 1 > 0 then count - 1 else 0
  }

  /** The count after a sequence of calls, in order. */
  function Replay(count: nat, calls: seq<Call>): nat
    decreases |calls|
  {
    if |calls| == 0 then count else Replay(Next(count, calls[0]), calls[1..])
  }

  function Repeat(call: Call, n: nat): (r: seq<Call>)
    ensures |r| == n && forall i :: 0 <= i < n ==> r[i] == call
  {
    seq(n, _ => call)
  }

  lemma {:induction false} ReplayAppend(count: nat, a: seq<Call>, b: seq<Call>)
    ensures Replay(count, a + b) == Replay(Replay(count, a), b)
    decreases |a|
  {
    if |a| > 0 {
      assert (a + b)[1..] == a[1..] + b;
      ReplayAppend(Next(count, a[0]), a[1..], b);
    } else {
      assert a + b == b;
    }
  }

  /** `n` starts add exactly `n`. */
  lemma {:induction false} ReplayStarts(count: nat, n: nat)
    ensures Replay(count, Repeat(Start, n)) == count + n
    decreases n
  {
    if n > 0 {
      assert Repeat(Start, n)[1..] == Repeat(Start, n - 1);
      ReplayStarts(count + 1, n - 1);
    }
  }

  /** `k` stops subtract `k`, saturating at zero. */
  lemma {:induction false} ReplayStops(count: nat, k: nat)
    ensures Replay(count, Repeat(Stop, k)) == if k <= count then count - k else 0
    decreases k
  {
    if k > 0 {
      assert Repeat(Stop, k)[1..] == Repeat(Stop, k - 1);
      ReplayStops(Next(count, Stop), k - 1);
    }
  }

  /**
   * From idle, `n` starts followed by `k` stops leave the service loading
   * exactly when `k < n`: fewer stops keep it loading, `n` or more clear it.
   */
  lemma StartsThenStops(n: nat, k: nat)
    ensures Replay(0, Repeat(Start, n) + Repeat(Stop, k)) == if k <= n then n - k else 0
    ensures Replay(0, Repeat(Start, n) + Repeat(Stop, k)) > 0 <==> k < n
  {
    ReplayAppend(0, Repeat(Start, n), Repeat(Stop, k));
    ReplayStarts(0, n);
    ReplayStops(n, k);
  }

  class LoadingStateService {
    /** `_pending`. */
    var pending: nat

    constructor ()
      ensures pending == 0 && !IsLoading()
    {
      pending := 0;
    }

    /**
     * `isLoading()`: while loading, a stop retires one pending operation;
     * when idle, a stop changes nothing.
     */
    predicate IsLoading()
      reads this
      ensures IsLoading() ==> Next(pending, Call.Stop) == pending - 1
      ensures !IsLoading() ==> pending == 0 && Next(pending, Call.Stop) == pending
    {
      pending > 0
    }

    method Start()
      modifies this
      ensures pending == Next(old(pending), Call.Start) && IsLoading()
    {
      pending := pending + 1;
    }

    method Stop()
      modifies this
      ensures pending == Next(old(pending), Call.Stop)
      ensures old(pending) == 0 ==> pending == 0
    {
      var count: int := pending;
      pending := if count - 1 > 0 then count - 1 else 0;
    }
  }
}
