/** A caller that keeps the contract's state between invocations. The process
    itself forgets everything when it exits; a caller continues a contract by
    passing the state of each response as the `state` of its next request.
    `Replay` runs a sequence of method names that way, and the lemmas below
    say what counter such a session ends with. */
module Session {
  import opened Wrappers
  import opened SmartContract

  /** One invocation whose request carries `s` as its state: the state its
      response reports, or None when the counter would overflow. */
  function Invoke(methodName: string, s: ContractState): (t: Option<ContractState>)
    ensures t.None? <==> methodName == "increment" && s.counter == U64_MAX
    ensures t.Some? && methodName == "initialize" ==> t.value.counter == 0
    ensures t.Some? && methodName == "increment" ==> t.value.counter == s.counter + 1
    ensures t.Some? && methodName != "initialize" && methodName != "increment" ==> t.value == s
  {
    match Run(Parsed(Request(methodName, Some(s))))
    case Exit(_, response, _) => Some(response.state)
    case CounterOverflow(_) => None
  }

  /** The state after invoking `methods` in order, starting from `s` and
      feeding each response's state into the next request; None as soon as
      one invocation overflows. */
  function Replay(methods: seq<string>, s: ContractState): Option<ContractState>
    decreases |methods|
  {
    if methods == [] then Some(s)
    else
      match Replay(methods[..|methods| - 1], s)
      case None => None
      case Some(t) => Invoke(methods[|methods| - 1], t)
  }

  /** The position of the last `initialize` in `methods`, or -1 if there is none. */
  function LastReset(methods: seq<string>): (k: int)
    ensures -1 <= k < |methods|
    ensures 0 <= k ==> methods[k] == "initialize"
    ensures forall j :: k < j < |methods| ==> methods[j] != "initialize"
  {
    if methods == [] then -1
    else if methods[|methods| - 1] == "initialize" then |methods| - 1
    else LastReset(methods[..|methods| - 1])
  }

  /** How many of `methods` are `increment`. */
  function Increments(methods: seq<string>): nat {
    multiset(methods)["increment"]
  }

  /** The counter `ReplayCounter` promises after `methods`. */
  function CounterAfter(methods: seq<string>, s: ContractState): int {
    var k := LastReset(methods);
    (if k < 0 then s.counter else 0) + Increments(methods[k + 1..])
  }

  /** Splitting off a session's last method splits its increments. */
  lemma IncrementsLast(methods: seq<string>, k: int)
    requires methods != [] && -1 <= k < |methods| - 1
    ensures var n := |methods| - 1;
      Increments(methods[k + 1..]) == Increments(methods[..n][k + 1..]) + (if methods[n] == "increment" then 1 else 0)
  {
    var n := |methods| - 1;
    assert methods[k + 1..] == methods[..n][k + 1..] + [methods[n]];
  }

  /** Adding a method to a session moves the expected counter as that
      method moves the real one: to 0, up by one, or not at all. */
  lemma CounterAfterLast(methods: seq<string>, s: ContractState)
    requires methods != []
    ensures var n := |methods| - 1;
      CounterAfter(methods, s) ==
        if methods[n] == "initialize" then 0
        else if methods[n] == "increment" then CounterAfter(methods[..n], s) + 1
        else CounterAfter(methods[..n], s)
  {
    var n := |methods| - 1;
    if methods[n] == "initialize" {
      assert methods[n + 1..] == [];
    } else {
      IncrementsLast(methods, LastReset(methods[..n]));
    }
  }

  /** A session with no invocation expects the counter it started from. */
  lemma CounterAfterEmpty(s: ContractState)
    ensures CounterAfter([], s) == s.counter
  {
    var none: seq<string> := [];
    assert none[0..] == [];
  }

  /** A session ends with the number of increments since its last
      `initialize`, or, without one, the starting counter plus all its
      increments. */
  lemma {:induction false} ReplayCounter(methods: seq<string>, s: ContractState)
    requires Replay(methods, s).Some?
    ensures Replay(methods, s).value.counter == CounterAfter(methods, s)
  {
    if methods == [] {
      CounterAfterEmpty(s);
    } else {
      ReplayCounter(methods[..|methods| - 1], s);
      CounterAfterLast(methods, s);
    }
  }

  /** A session never ends above its starting counter plus its increments. */
  lemma {:induction false} ReplayBound(methods: seq<string>, s: ContractState)
    requires Replay(methods, s).Some?
    ensures Replay(methods, s).value.counter <= s.counter + Increments(methods)
  {
    if methods != [] {
      ReplayBound(methods[..|methods| - 1], s);
      IncrementsLast(methods, -1);
    }
  }

  /** A session cannot overflow while its starting counter plus its
      increments stays within u64. */
  lemma {:induction false} ReplayNoOverflow(methods: seq<string>, s: ContractState)
    requires s.counter + Increments(methods) <= U64_MAX
    ensures Replay(methods, s).Some?
  {
    if methods != [] {
      var prefix := methods[..|methods| - 1];
      IncrementsLast(methods, -1);
      ReplayNoOverflow(prefix, s);
      ReplayBound(prefix, s);
    }
  }

  /** Once a session has called `initialize`, where it started no longer
      matters: two runs of it that do not overflow end in the same state. */
  lemma {:induction false} ReplayAfterReset(methods: seq<string>, s1: ContractState, s2: ContractState)
    requires "initialize" in methods
    requires Replay(methods, s1).Some? && Replay(methods, s2).Some?
    ensures Replay(methods, s1) == Replay(methods, s2)
  {
    ReplayCounter(methods, s1);
    ReplayCounter(methods, s2);
  }

  /** Feeding a returned state back through `list_methods` or any unknown
      method, any number of times, gives the same state back. */
  lemma {:induction false} ReplayPassThrough(methods: seq<string>, s: ContractState)
    requires forall i :: 0 <= i < |methods| ==> methods[i] != "initialize" && methods[i] != "increment"
    ensures Replay(methods, s) == Some(s)
  {
    if methods != [] {
      ReplayPassThrough(methods[..|methods| - 1], s);
    }
  }
}
