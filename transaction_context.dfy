/**
  The generated record-and-replay test double of the chaincode transaction context.

  It fakes three accessors, GetClientIdentity, GetMedicineList and GetStub, whose result
  types are the Fabric client identity, the medicine list and the chaincode stub; here
  they are the type parameters `I`, `L` and `S`. Each accessor's bookkeeping is one
  `FakeMethod`; the context adds the shared log of every call, keyed by method name.
*/
module Mocks {
  import opened Wrappers
  import opened Fakes
  import opened InvocationLog

  const CLIENT_IDENTITY := "GetClientIdentity"
  const MEDICINE_LIST := "GetMedicineList"
  const STUB := "GetStub"

  class TransactionContext<I, L, S> {
    const getClientIdentity: FakeMethod<I>
    const getMedicineList: FakeMethod<L>
    const getStub: FakeMethod<S>
    var invocations: Option<Log>

    /**
      The three accessors keep separate bookkeeping, and the shared log agrees with it:
      it names only the three accessors, holds as many entries under each name as that
      accessor's call count, and every entry is the empty argument list.
    */
    ghost predicate Valid()
      reads this, getClientIdentity, getMedicineList, getStub
    {
      && getClientIdentity as object != getMedicineList as object
      && getClientIdentity as object != getStub as object
      && getMedicineList as object != getStub as object
      && Contents(invocations).Keys <= {CLIENT_IDENTITY, MEDICINE_LIST, STUB}
      && |CallsOf(invocations, CLIENT_IDENTITY)| == |getClientIdentity.argsForCall|
      && |CallsOf(invocations, MEDICINE_LIST)| == |getMedicineList.argsForCall|
      && |CallsOf(invocations, STUB)| == |getStub.argsForCall|
      && forall k, j :: k in Contents(invocations) && 0 <= j < |Contents(invocations)[k]| ==>
           Contents(invocations)[k][j] == []
    }

    /** The zero value of the Go struct, given the zero value of each result type. */
    constructor (zeroIdentity: I, zeroList: L, zeroStub: S)
      ensures Valid()
      ensures fresh(getClientIdentity) && fresh(getMedicineList) && fresh(getStub)
      ensures getClientIdentity.State() == FakeState(None, [], zeroIdentity, None)
      ensures getMedicineList.State() == FakeState(None, [], zeroList, None)
      ensures getStub.State() == FakeState(None, [], zeroStub, None)
      ensures invocations == None
    {
      getClientIdentity := new FakeMethod(zeroIdentity);
      getMedicineList := new FakeMethod(zeroList);
      getStub := new FakeMethod(zeroStub);
      invocations := None;
    }

    // GetClientIdentity

    /**
      One call: answers from the stub, the per-call entry for this call's index or the
      default, in that order; logs exactly one more call of this accessor and one more
      empty entry under its name; the other two accessors are untouched.
    */
    method GetClientIdentity() returns (r: I)
      requires Valid()
      modifies this, getClientIdentity
      ensures Valid()
      ensures r == Answer(old(getClientIdentity.State()), old(|getClientIdentity.argsForCall|))
      ensures getClientIdentity.State() == Step(old(getClientIdentity.State()), Invoke).0
      ensures unchanged(getMedicineList) && unchanged(getStub)
      ensures invocations == Some(Recorded(old(invocations), CLIENT_IDENTITY, []))
    {
      r := getClientIdentity.Call();
      RecordInvocation(CLIENT_IDENTITY, []);
    }

    method GetClientIdentityCallCount() returns (n: int)
      requires Valid()
      ensures n == |getClientIdentity.argsForCall| == |CallsOf(invocations, CLIENT_IDENTITY)|
    {
      n := getClientIdentity.CallCount();
    }

    method GetClientIdentityCalls(stub: Option<() -> I>)
      requires Valid()
      modifies getClientIdentity
      ensures Valid()
      ensures getClientIdentity.State() == Step(old(getClientIdentity.State()), Op.Calls(stub)).0
    {
      getClientIdentity.Calls(stub);
    }

    method GetClientIdentityReturns(result: I)
      requires Valid()
      modifies getClientIdentity
      ensures Valid()
      ensures getClientIdentity.State() == Step(old(getClientIdentity.State()), Op.Returns(result)).0
    {
      getClientIdentity.Returns(result);
    }

    method GetClientIdentityReturnsOnCall(i: int, result: I)
      requires Valid()
      modifies getClientIdentity
      ensures Valid()
      ensures getClientIdentity.State() == Step(old(getClientIdentity.State()), Op.ReturnsOnCall(i, result)).0
    {
      getClientIdentity.ReturnsOnCall(i, result);
    }

    // GetMedicineList

    /** As `GetClientIdentity`, for the medicine list accessor. */
    method GetMedicineList() returns (r: L)
      requires Valid()
      modifies this, getMedicineList
      ensures Valid()
      ensures r == Answer(old(getMedicineList.State()), old(|getMedicineList.argsForCall|))
      ensures getMedicineList.State() == Step(old(getMedicineList.State()), Invoke).0
      ensures unchanged(getClientIdentity) && unchanged(getStub)
      ensures invocations == Some(Recorded(old(invocations), MEDICINE_LIST, []))
    {
      r := getMedicineList.Call();
      RecordInvocation(MEDICINE_LIST, []);
    }

    method GetMedicineListCallCount() returns (n: int)
      requires Valid()
      ensures n == |getMedicineList.argsForCall| == |CallsOf(invocations, MEDICINE_LIST)|
    {
      n := getMedicineList.CallCount();
    }

    method GetMedicineListCalls(stub: Option<() -> L>)
      requires Valid()
      modifies getMedicineList
      ensures Valid()
      ensures getMedicineList.State() == Step(old(getMedicineList.State()), Op.Calls(stub)).0
    {
      getMedicineList.Calls(stub);
    }

    method GetMedicineListReturns(result: L)
      requires Valid()
      modifies getMedicineList
      ensures Valid()
      ensures getMedicineList.State() == Step(old(getMedicineList.State()), Op.Returns(result)).0
    {
      getMedicineList.Returns(result);
    }

    method GetMedicineListReturnsOnCall(i: int, result: L)
      requires Valid()
      modifies getMedicineList
      ensures Valid()
      ensures getMedicineList.State() == Step(old(getMedicineList.State()), Op.ReturnsOnCall(i, result)).0
    {
      getMedicineList.ReturnsOnCall(i, result);
    }

    // GetStub

    /** As `GetClientIdentity`, for the chaincode stub accessor. */
    method GetStub() returns (r: S)
      requires Valid()
      modifies this, getStub
      ensures Valid()
      ensures r == Answer(old(getStub.State()), old(|getStub.argsForCall|))
      ensures getStub.State() == Step(old(getStub.State()), Invoke).0
      ensures unchanged(getClientIdentity) && unchanged(getMedicineList)
      ensures invocations == Some(Recorded(old(invocations), STUB, []))
    {
      r := getStub.Call();
      RecordInvocation(STUB, []);
    }

    method GetStubCallCount() returns (n: int)
      requires Valid()
      ensures n == |getStub.argsForCall| == |CallsOf(invocations, STUB)|
    {
      n := getStub.CallCount();
    }

    method GetStubCalls(stub: Option<() -> S>)
      requires Valid()
      modifies getStub
      ensures Valid()
      ensures getStub.State() == Step(old(getStub.State()), Op.Calls(stub)).0
    {
      getStub.Calls(stub);
    }

    method GetStubReturns(result: S)
      requires Valid()
      modifies getStub
      ensures Valid()
      ensures getStub.State() == Step(old(getStub.State()), Op.Returns(result)).0
    {
      getStub.Returns(result);
    }

    method GetStubReturnsOnCall(i: int, result: S)
      requires Valid()
      modifies getStub
      ensures Valid()
      ensures getStub.State() == Step(old(getStub.State()), Op.ReturnsOnCall(i, result)).0
    {
      getStub.ReturnsOnCall(i, result);
    }

    // The shared log

    /** A copy of the log, key by key: the same keys and the same lists; changes nothing. */
    method Invocations() returns (copied: Log)
      ensures copied == Contents(invocations)
    {
      copied := map[];
      var source := Contents(invocations);
      var remaining := source.Keys;
      while remaining != {}
        invariant remaining <= source.Keys
        invariant copied.Keys == source.Keys - remaining
        invariant forall k :: k in copied ==> copied[k] == source[k]
        decreases remaining
      {
        var key :| key in remaining;
        copied := copied[key := source[key]];
        remaining := remaining - {key};
      }
    }

    /** Appends `args` under `key`, creating the map and the key's list when missing. */
    method RecordInvocation(key: string, args: Args)
      modifies this
      ensures invocations == Some(Recorded(old(invocations), key, args))
    {
      if invocations.None? {
        invocations := Some(map[]);
      }
      var m := invocations.value;
      if key !in m {
        m := m[key := []];
      }
      invocations := Some(m[key := m[key] + [args]]);
      assert invocations.value == Recorded(old(invocations), key, args);
    }
  }
}
