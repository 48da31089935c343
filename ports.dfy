/**
 * `PredefinedPortProvider`: hands out the ports of a fixed, copied list
 * front to back and fails once the list is used up.
 */
module Ports {
  import opened Results

  /** The exception `next()` throws once the list is used up. */
  datatype PortError = RunOutOfPorts

  /** The message of that exception. */
  function Message(e: PortError): string {
    match e
    case RunOutOfPorts => "Run out of Redis ports!"
  }

  /** One `next()` on the ports not yet handed out: its result, and the ports left after it. */
  function Step(remaining: seq<int>): (Result<int, PortError>, seq<int>) {
    if remaining == [] then (Err(RunOutOfPorts), remaining)
    else (Ok(remaining[0]), remaining[1..])
  }

  /** The results of `n` successive `next()` calls on the ports not yet handed out. */
  function Calls(remaining: seq<int>, n: nat): (rs: seq<Result<int, PortError>>)
    ensures |rs| == n
  {
    if n == 0 then []
    else
      var (r, rest) := Step(remaining);
      [r] + Calls(rest, n - 1)
  }

  /** The ports among some results, in the order they were handed out. */
  function Handed(rs: seq<Result<int, PortError>>): seq<int> {
    if rs == [] then []
    else if rs[0].Ok? then [rs[0].value] + Handed(rs[1..])
    else Handed(rs[1..])
  }

  class PredefinedPortProvider {
    /** The provider's own copy of the ports it was given. */
    const ports: seq<int>
    /** `current`: how many ports have been handed out. */
    var cursor: nat

    ghost predicate Valid()
      reads this
    {
      cursor <= |ports|
    }

    /** The ports still to be handed out, in order. */
    ghost function Remaining(): seq<int>
      reads this
      requires Valid()
    {
      ports[cursor..]
    }

    /**
     * Copies the given ports. A `seq` is a value, so nothing the caller does
     * afterwards can change the provider's copy.
     */
    constructor (given: seq<int>)
      ensures Valid()
      ensures ports == given && cursor == 0
      ensures Remaining() == given
    {
      ports := given;
      cursor := 0;
    }

    /** `next()`: the next port in order, or `RunOutOfPorts` with nothing changed. */
    method Next() returns (r: Result<int, PortError>)
      requires Valid()
      modifies this
      ensures Valid()
      ensures old(cursor) < |ports| ==> r == Ok(ports[old(cursor)]) && cursor == old(cursor) + 1
      ensures old(cursor) == |ports| ==> r == Err(RunOutOfPorts) && cursor == old(cursor)
      ensures (r, Remaining()) == Step(old(Remaining()))
    {
      if cursor == |ports| {
        return Err(RunOutOfPorts);
      }
      r := Ok(ports[cursor]);
      cursor := cursor + 1;
      assert ports[old(cursor)..][1..] == ports[cursor..];
    }
  }

  // ----- Properties of a run of calls -----

  /** A call fails exactly when nothing remains, and a failing call leaves the remaining ports as they were. */
  lemma StepFailsOnlyWhenExhausted(remaining: seq<int>)
    ensures Step(remaining).0.Err? <==> remaining == []
    ensures Step(remaining).0.Err? ==> Step(remaining).1 == remaining
    ensures Step(remaining).0.Ok? ==> [Step(remaining).0.value] + Step(remaining).1 == remaining
  {
  }

  /** Call i returns the i-th port while ports remain, and fails with `RunOutOfPorts` from then on. */
  lemma {:induction false} CallsInOrder(remaining: seq<int>, n: nat, i: nat)
    requires i < n
    ensures i < |remaining| ==> Calls(remaining, n)[i] == Ok(remaining[i])
    ensures i >= |remaining| ==> Calls(remaining, n)[i] == Err(RunOutOfPorts)
  {
    if i > 0 {
      var rest := Step(remaining).1;
      CallsInOrder(rest, n - 1, i - 1);
      if remaining != [] && i < |remaining| {
        assert rest[i - 1] == remaining[i];
      }
    }
  }

  /** Exhaustion is permanent: once a call fails, every later call fails too. */
  lemma FailureIsPermanent(remaining: seq<int>, n: nat, i: nat, j: nat)
    requires i <= j < n
    requires Calls(remaining, n)[i].Err?
    ensures Calls(remaining, n)[j] == Err(RunOutOfPorts)
  {
    CallsInOrder(remaining, n, i);
    CallsInOrder(remaining, n, j);
  }

  /** The first n calls hand out exactly the first n ports, in order, duplicates included. */
  lemma {:induction false} CallsHandOutPrefix(remaining: seq<int>, n: nat)
    ensures n <= |remaining| ==> Handed(Calls(remaining, n)) == remaining[..n]
    ensures n >= |remaining| ==> Handed(Calls(remaining, n)) == remaining
  {
    if n > 0 {
      var (r, rest) := Step(remaining);
      CallsHandOutPrefix(rest, n - 1);
      assert Calls(remaining, n) == [r] + Calls(rest, n - 1);
      assert Calls(remaining, n)[1..] == Calls(rest, n - 1);
      if remaining != [] && n <= |remaining| {
        assert remaining[..n] == [remaining[0]] + rest[..n - 1];
      }
    }
  }

  /**
   * With N ports, N + k calls hand out every port exactly as often as it was
   * given, and the (N + 1)-th and later calls all fail.
   */
  lemma ExactlyNCallsSucceed(ports: seq<int>, k: nat)
    ensures Handed(Calls(ports, |ports| + k)) == ports
    ensures multiset(Handed(Calls(ports, |ports| + k))) == multiset(ports)
    ensures var rs := Calls(ports, |ports| + k);
            forall i :: 0 <= i < |rs| ==> rs[i] == if i < |ports| then Ok(ports[i]) else Err(RunOutOfPorts)
  {
    CallsHandOutPrefix(ports, |ports| + k);
    var rs := Calls(ports, |ports| + k);
    forall i | 0 <= i < |rs|
      ensures rs[i] == if i < |ports| then Ok(ports[i]) else Err(RunOutOfPorts)
    {
      CallsInOrder(ports, |ports| + k, i);
    }
  }
}
