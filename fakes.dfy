/**
  One faked zero-argument accessor of the generated transaction-context test double.

  The generated Go code repeats the same four fields and five methods for each of
  GetClientIdentity, GetMedicineList and GetStub, differing only in the result type.
  Here they are written once, generic in the result type `T`:

  - `FakeState` and the functions over it are the specification: what one call answers
    (`Answer`), what every operation does to the state (`Step`) and what a whole test
    script of operations does (`Run`), with lemmas about scripts;
  - `FakeMethod` is the object the test double mutates in place, with one method per
    generated Go method, each proved against `Step`.
*/
module Fakes {
  import opened Wrappers

  /** Go's `struct{}`: the accessors take no arguments, so each logged call is this value. */
  datatype NoArgs = NoArgs

  /**
    The bookkeeping of one accessor: the stub installed by `Calls` (nil when absent),
    the log of calls, the default result set by `Returns`, and the per-call results set
    by `ReturnsOnCall`, keyed by 0-based call index (a nil map until first written).
  */
  datatype FakeState<T> = FakeState(
    stub: Option<() -> T>,
    argsForCall: seq<NoArgs>,
    defaultReturn: T,
    returnsOnCall: Option<map<int, T>>)

  /** Go's two-result map read `v, ok := m[n]`, where a nil map reads as empty. */
  function Lookup<T>(table: Option<map<int, T>>, n: int): Option<T>
  {
    if table.Some? && n in table.value then Some(table.value[n]) else None
  }

  /** The entries of a per-call table; a nil map has none. */
  function Table<T>(table: Option<map<int, T>>): map<int, T>
  {
    if table.Some? then table.value else map[]
  }

  /**
    What the call with 0-based index `n` answers: the stub's result when a stub is set,
    otherwise the per-call result registered for `n`, otherwise the default.
  */
  function Answer<T>(f: FakeState<T>, n: int): T
  {
    match f.stub
    case Some(g) => g()
    case None =>
      match Lookup(f.returnsOnCall, n)
      case Some(r) => r
      case None => f.defaultReturn
  }

  /** The operations a test performs on one faked accessor. */
  datatype Op<T> =
    | Invoke
    | Calls(newStub: Option<() -> T>)
    | Returns(result: T)
    | ReturnsOnCall(index: int, result: T)

  /**
    One operation: the state afterwards and what it answers (one value for a call,
    nothing for a configuration). A call reads its answer at index `|argsForCall|`
    before appending to the log; `Returns` and `ReturnsOnCall` clear the stub.
  */
  function Step<T>(f: FakeState<T>, op: Op<T>): (FakeState<T>, seq<T>)
  {
    match op
    case Invoke =>
      (f.(argsForCall := f.argsForCall + [NoArgs]), [Answer(f, |f.argsForCall|)])
    case Calls(g) =>
      (f.(stub := g), [])
    case Returns(r) =>
      (f.(stub := None, defaultReturn := r), [])
    case ReturnsOnCall(i, r) =>
      (f.(stub := None, returnsOnCall := Some(Table(f.returnsOnCall)[i := r])), [])
  }

  /** The number of calls in a script. */
  function CallsIn<T>(ops: seq<Op<T>>): nat
  {
    if ops == [] then 0 else (if ops[0].Invoke? then 1 else 0) + CallsIn(ops[1..])
  }

  /**
    A script of operations run from `f`: the final state and the answers of its calls,
    in order. The call log only grows, by exactly one entry per call in the script.
  */
  function Run<T>(f: FakeState<T>, ops: seq<Op<T>>): (r: (FakeState<T>, seq<T>))
    ensures |r.0.argsForCall| == |f.argsForCall| + CallsIn(ops)
    ensures r.0.argsForCall[..|f.argsForCall|] == f.argsForCall
    ensures |r.1| == CallsIn(ops)
    decreases |ops|
  {
    if ops == [] then (f, [])
    else
      var (g, out) := Step(f, ops[0]);
      var (h, outs) := Run(g, ops[1..]);
      assert h.argsForCall[..|g.argsForCall|][..|f.argsForCall|] == h.argsForCall[..|f.argsForCall|];
      (h, out + outs)
  }

  /** A script split in two runs as its first part followed by its second. */
  lemma {:induction false} RunSplit<T>(f: FakeState<T>, a: seq<Op<T>>, b: seq<Op<T>>)
    ensures Run(f, a + b).0 == Run(Run(f, a).0, b).0
    ensures Run(f, a + b).1 == Run(f, a).1 + Run(Run(f, a).0, b).1
    decreases |a|
  {
    if a == [] {
      assert a + b == b;
    } else {
      assert (a + b)[0] == a[0];
      assert (a + b)[1..] == a[1..] + b;
      RunSplit(Step(f, a[0]).0, a[1..], b);
      assert Step(f, a[0]).1 + (Run(Step(f, a[0]).0, a[1..]).1 + Run(Run(f, a).0, b).1)
          == (Step(f, a[0]).1 + Run(Step(f, a[0]).0, a[1..]).1) + Run(Run(f, a).0, b).1;
    }
  }

  /**
    Consecutive calls with no configuration in between answer, in order, what `Answer`
    gives for the call indices they occupy.
  */
  lemma {:induction false} CallsAnswerInOrder<T>(f: FakeState<T>, ops: seq<Op<T>>)
    requires forall i :: 0 <= i < |ops| ==> ops[i].Invoke?
    ensures |Run(f, ops).1| == |ops|
    ensures forall j :: 0 <= j < |ops| ==> Run(f, ops).1[j] == Answer(f, |f.argsForCall| + j)
    decreases |ops|
  {
    if ops != [] {
      var g := Step(f, ops[0]).0;
      CallsAnswerInOrder(g, ops[1..]);
      forall j | 0 <= j < |ops|
        ensures Run(f, ops).1[j] == Answer(f, |f.argsForCall| + j)
      {
        if j > 0 {
          assert Run(f, ops).1[j] == Run(g, ops[1..]).1[j - 1];
        }
      }
    }
  }

  /**
    After `Calls(g)`, every call answers `g()`, whatever the default and the per-call
    table hold, for as long as the script makes only calls (the first `k` operations).
  */
  lemma StubHoldsUntilReset<T>(f: FakeState<T>, g: () -> T, ops: seq<Op<T>>, k: nat)
    requires k <= |ops|
    requires forall i :: 0 <= i < k ==> ops[i].Invoke?
    ensures |Run(Step(f, Calls(Some(g))).0, ops).1| >= k
    ensures forall j :: 0 <= j < k ==> Run(Step(f, Calls(Some(g))).0, ops).1[j] == g()
  {
    var stubbed := Step(f, Calls(Some(g))).0;
    assert ops == ops[..k] + ops[k..];
    RunSplit(stubbed, ops[..k], ops[k..]);
    CallsAnswerInOrder(stubbed, ops[..k]);
  }

  /**
    After `ReturnsOnCall(i, r)` for an index not yet reached, the call with index `i`
    answers `r`, provided the script makes only calls until then.
  */
  lemma ReturnsOnCallAnswersAtIndex<T>(f: FakeState<T>, i: int, r: T, ops: seq<Op<T>>, k: nat)
    requires k <= |ops|
    requires forall m :: 0 <= m < k ==> ops[m].Invoke?
    requires |f.argsForCall| <= i < |f.argsForCall| + k
    ensures |Run(Step(f, ReturnsOnCall(i, r)).0, ops).1| >= k
    ensures Run(Step(f, ReturnsOnCall(i, r)).0, ops).1[i - |f.argsForCall|] == r
  {
    var configured := Step(f, ReturnsOnCall(i, r)).0;
    assert ops == ops[..k] + ops[k..];
    RunSplit(configured, ops[..k], ops[k..]);
    CallsAnswerInOrder(configured, ops[..k]);
  }

  /**
    After `Returns(r)`, calls whose indices have no per-call entry answer `r`, for as long
    as the script makes only calls.
  */
  lemma ReturnsAnswersDefault<T>(f: FakeState<T>, r: T, ops: seq<Op<T>>, k: nat)
    requires k <= |ops|
    requires forall m :: 0 <= m < k ==> ops[m].Invoke?
    ensures |Run(Step(f, Returns(r)).0, ops).1| >= k
    ensures forall j :: 0 <= j < k && Lookup(f.returnsOnCall, |f.argsForCall| + j).None? ==>
      Run(Step(f, Returns(r)).0, ops).1[j] == r
  {
    var configured := Step(f, Returns(r)).0;
    assert ops == ops[..k] + ops[k..];
    RunSplit(configured, ops[..k], ops[k..]);
    CallsAnswerInOrder(configured, ops[..k]);
  }

  /**
    Two states that agree on everything a later call can still observe: the stub, the
    log, the default, and the per-call entries at indices not yet reached.
  */
  ghost predicate Agree<T>(f: FakeState<T>, g: FakeState<T>)
  {
    && f.stub == g.stub
    && f.argsForCall == g.argsForCall
    && f.defaultReturn == g.defaultReturn
    && forall n :: n >= |f.argsForCall| ==> Lookup(f.returnsOnCall, n) == Lookup(g.returnsOnCall, n)
  }

  lemma AgreeStep<T>(f: FakeState<T>, g: FakeState<T>, op: Op<T>)
    requires Agree(f, g)
    ensures Step(f, op).1 == Step(g, op).1
    ensures Agree(Step(f, op).0, Step(g, op).0)
  {
    var (f', g') := (Step(f, op).0, Step(g, op).0);
    forall n | n >= |f'.argsForCall|
      ensures Lookup(f'.returnsOnCall, n) == Lookup(g'.returnsOnCall, n)
    {
      assert Lookup(f.returnsOnCall, n) == Lookup(g.returnsOnCall, n);
      if op.ReturnsOnCall? && n != op.index {
        assert Lookup(f'.returnsOnCall, n) == Lookup(f.returnsOnCall, n);
        assert Lookup(g'.returnsOnCall, n) == Lookup(g.returnsOnCall, n);
      }
    }
  }

  /** States that agree answer every script alike and still agree afterwards. */
  lemma {:induction false} AgreeRun<T>(f: FakeState<T>, g: FakeState<T>, ops: seq<Op<T>>)
    requires Agree(f, g)
    ensures Run(f, ops).1 == Run(g, ops).1
    ensures Agree(Run(f, ops).0, Run(g, ops).0)
    decreases |ops|
  {
    if ops != [] {
      AgreeStep(f, g, ops[0]);
      AgreeRun(Step(f, ops[0]).0, Step(g, ops[0]).0, ops[1..]);
    }
  }

  /**
    `ReturnsOnCall(i, r)` for an index already passed is never consulted: for every later
    script it answers exactly as `Calls(nil)` would (it only clears the stub).
  */
  lemma PastReturnsOnCallIgnored<T>(f: FakeState<T>, i: int, r: T, ops: seq<Op<T>>)
    requires i < |f.argsForCall|
    ensures Run(Step(f, ReturnsOnCall(i, r)).0, ops).1 == Run(Step(f, Calls(None)).0, ops).1
  {
    AgreeRun(Step(f, ReturnsOnCall(i, r)).0, Step(f, Calls(None)).0, ops);
  }

  /** One accessor of the test double, updated in place. */
  class FakeMethod<T> {
    var stub: Option<() -> T>
    var argsForCall: seq<NoArgs>
    var defaultReturn: T
    var returnsOnCall: Option<map<int, T>>

    ghost function State(): FakeState<T>
      reads this
    {
      FakeState(stub, argsForCall, defaultReturn, returnsOnCall)
    }

    /** The zero value of the Go struct: no stub, no calls, `zero` as default, nil table. */
    constructor (zero: T)
      ensures State() == FakeState(None, [], zero, None)
    {
      stub := None;
      argsForCall := [];
      defaultReturn := zero;
      returnsOnCall := None;
    }

    /**
      The faked accessor itself: reads the per-call entry for the current call index,
      logs the call, and answers from the stub, the per-call entry or the default,
      in that order of precedence. Nothing but the log changes.
    */
    method Call() returns (r: T)
      modifies this
      ensures argsForCall == old(argsForCall) + [NoArgs]
      ensures stub == old(stub) && defaultReturn == old(defaultReturn) && returnsOnCall == old(returnsOnCall)
      ensures old(stub).Some? ==> r == old(stub).value()
      ensures old(stub).None? && Lookup(returnsOnCall, |old(argsForCall)|).Some? ==>
        r == Lookup(returnsOnCall, |old(argsForCall)|).value
      ensures old(stub).None? && Lookup(returnsOnCall, |old(argsForCall)|).None? ==> r == defaultReturn
      ensures State() == Step(old(State()), Invoke).0 && [r] == Step(old(State()), Invoke).1
    {
      var ret := Lookup(returnsOnCall, |argsForCall|);
      argsForCall := argsForCall + [NoArgs];
      var s := stub;
      var fakeReturns := defaultReturn;
      if s.Some? {
        return s.value();
      }
      if ret.Some? {
        return ret.value;
      }
      return fakeReturns;
    }

    /** The number of calls so far; changes nothing. */
    method CallCount() returns (n: int)
      ensures n == |argsForCall|
    {
      n := |argsForCall|;
    }

    /** Installs (or, with nil, removes) the stub; nothing else changes. */
    method Calls(newStub: Option<() -> T>)
      modifies this
      ensures stub == newStub
      ensures argsForCall == old(argsForCall) && defaultReturn == old(defaultReturn) && returnsOnCall == old(returnsOnCall)
      ensures State() == Step(old(State()), Op.Calls(newStub)).0
    {
      stub := newStub;
    }

    /** Clears the stub and sets the default result; the log and the per-call table are kept. */
    method Returns(result: T)
      modifies this
      ensures stub == None && defaultReturn == result
      ensures argsForCall == old(argsForCall) && returnsOnCall == old(returnsOnCall)
      ensures State() == Step(old(State()), Op.Returns(result)).0
    {
      stub := None;
      defaultReturn := result;
    }

    /**
      Clears the stub and sets the per-call result for call index `i`, creating the table
      when it is nil; every other index, the default and the log are kept.
    */
    method ReturnsOnCall(i: int, result: T)
      modifies this
      ensures stub == None && returnsOnCall.Some?
      ensures Lookup(returnsOnCall, i) == Some(result)
      ensures forall n :: n != i ==> Lookup(returnsOnCall, n) == Lookup(old(returnsOnCall), n)
      ensures argsForCall == old(argsForCall) && defaultReturn == old(defaultReturn)
      ensures State() == Step(old(State()), Op.ReturnsOnCall(i, result)).0
    {
      stub := None;
      if returnsOnCall.None? {
        returnsOnCall := Some(map[]);
      }
      returnsOnCall := Some(returnsOnCall.value[i := result]);
    }
  }
}
