# Medical-supply transaction-context test double, in Dafny

This project models the record-and-replay test double of the medical-supply chaincode's
transaction context (`mocks.TransactionContext`, generated by counterfeiter). The double
fakes three zero-argument accessors:

- `GetClientIdentity` (a Fabric `cid.ClientIdentity`);
- `GetMedicineList` (the contract's `ListInterface`);
- `GetStub` (a `shim.ChaincodeStubInterface`).

For each accessor the double keeps four things:

- a log of calls;
- a default result (`…Returns`);
- per-call results keyed by 0-based call index (`…ReturnsOnCall`);
- an optional stub function (`…Calls`).

A shared log records every call under the accessor's name.

The Go code repeats the same fields and methods for each accessor. The model writes them
once, generic in the result type:

- `wrappers.dfy`: `Option`, standing for Go's nil.
- `fakes.dfy`, module `Fakes`: the specification of one accessor and the class that is
  updated in place.
  - `FakeState` is the accessor's state as a value.
  - `Answer` gives what the call with index `n` returns: the stub's result, else the
    per-call result for `n`, else the default.
  - `Step` applies one operation: a call, `Calls`, `Returns` or `ReturnsOnCall`.
  - `Run` applies a whole test script of operations.
  - Lemmas about scripts state what a test can rely on.
  - Class `FakeMethod` has the four Go fields. Each of its state-changing methods is proved against `Step`.
- `invocation_log.dfy`, module `InvocationLog`: the shared log and what recording one
  call does to it.
- `transaction_context.dfy`, module `Mocks`: class `TransactionContext`.
  - It holds three `FakeMethod`s and the shared log.
  - It has every generated Go method.
  - Its invariant `Valid()` ties the shared log to the three call logs. The log has
    exactly as many empty entries under each accessor's name as that accessor has been
    called.

The Fabric result types are the type parameters `I`, `L` and `S`. Go's nil value of each
is passed to the constructor. A stub is a Dafny function value `() -> T`.

The accessors are not idempotent: each call answers what the stub, the per-call table or
the default gives for that call's index, so successive calls can return different values.

## Model

| member | source | states |
|---|---|---|
| `Fakes.Run` | regulators/chaincode/medical-supply/mocks/transactioncontext.go:47-69 | a script of operations grows the call log by exactly one entry per call in it and keeps the earlier entries (the log is append-only), so the call count afterwards is the count before plus the number of calls; it answers one value per call |
| `Fakes.CallsAnswerInOrder` | regulators/chaincode/medical-supply/mocks/transactioncontext.go:49-62 | consecutive calls answer, in order, the value for the 0-based call index each occupies: the stub's result, else the per-call entry for that index, else the default |
| `Fakes.StubHoldsUntilReset` | regulators/chaincode/medical-supply/mocks/transactioncontext.go:71-75 | after `Calls(g)` every call answers `g()`, whatever the default and per-call entries are, up to the next configuration operation; later operations of any kind do not change those earlier answers |
| `Fakes.ReturnsOnCallAnswersAtIndex` | regulators/chaincode/medical-supply/mocks/transactioncontext.go:86-98 | after `ReturnsOnCall(i, r)` for an index not yet reached, the call with index `i` answers `r` (the stub having been cleared), as long as only calls follow until that call; a later `Calls` or `ReturnsOnCall(i, …)` is outside this lemma |
| `Fakes.ReturnsAnswersDefault` | regulators/chaincode/medical-supply/mocks/transactioncontext.go:77-84 | after `Returns(r)`, as long as only calls follow, every call whose index has no per-call entry answers `r` (the stub having been cleared; `Returns` and calls leave the per-call table as it was, so the entries read are those present when `Returns` ran) |
| `Fakes.PastReturnsOnCallIgnored` | regulators/chaincode/medical-supply/mocks/transactioncontext.go:49 | a per-call entry for an index already passed is never consulted: for every later script, `ReturnsOnCall(i, r)` with `i` below the call count answers exactly as `Calls(nil)` does |
| `Fakes.AgreeRun` | regulators/chaincode/medical-supply/mocks/transactioncontext.go:49-62 | two states that agree on the stub, the log, the default and the per-call entries not yet reached answer every script alike and still agree afterwards |
| `Fakes.FakeMethod.constructor` | regulators/chaincode/medical-supply/mocks/transactioncontext.go:12-22 | the zero value: no stub, empty log, the result type's zero value as default, nil per-call table |
| `Fakes.FakeMethod.Call` | regulators/chaincode/medical-supply/mocks/transactioncontext.go:47-63 | looks up the per-call entry at the current call count, appends one log entry and changes nothing else; answers the stub's result if set, else the per-call entry, else the default |
| `Fakes.FakeMethod.CallCount` | regulators/chaincode/medical-supply/mocks/transactioncontext.go:65-69 | returns the length of the call log and changes no state |
| `Fakes.FakeMethod.Calls` | regulators/chaincode/medical-supply/mocks/transactioncontext.go:71-75 | installs the given stub (nil removes it); log, default and per-call table unchanged |
| `Fakes.FakeMethod.Returns` | regulators/chaincode/medical-supply/mocks/transactioncontext.go:77-84 | clears the stub and sets the default; log and per-call table unchanged |
| `Fakes.FakeMethod.ReturnsOnCall` | regulators/chaincode/medical-supply/mocks/transactioncontext.go:86-98 | clears the stub, creates the per-call table when nil and sets entry `i` to the result; every other index, the default and the log unchanged |
| `InvocationLog.Recorded` | regulators/chaincode/medical-supply/mocks/transactioncontext.go:222-232 | recording a call adds the key if missing and appends exactly one entry at the end of that key's list; every other key keeps its list |
| `Mocks.TransactionContext.constructor` | regulators/chaincode/medical-supply/mocks/transactioncontext.go:12-45 | the zero value: three fresh, separate accessor states with no stub, no calls and nil tables, and a nil log; the invariant holds |
| `Mocks.TransactionContext.GetClientIdentity` | regulators/chaincode/medical-supply/mocks/transactioncontext.go:47-63 | answers by the stub / per-call / default precedence for the current index; the accessor's state takes one call step; one empty entry is recorded under "GetClientIdentity"; the other two accessors are unchanged; the invariant is kept |
| `Mocks.TransactionContext.GetClientIdentityCallCount` | regulators/chaincode/medical-supply/mocks/transactioncontext.go:65-69 | returns the number of calls, which equals the number of log entries under "GetClientIdentity"; changes nothing |
| `Mocks.TransactionContext.GetClientIdentityCalls` | regulators/chaincode/medical-supply/mocks/transactioncontext.go:71-75 | the accessor's state takes the `Calls` step; nothing else changes |
| `Mocks.TransactionContext.GetClientIdentityReturns` | regulators/chaincode/medical-supply/mocks/transactioncontext.go:77-84 | the accessor's state takes the `Returns` step (stub cleared, default set); nothing else changes |
| `Mocks.TransactionContext.GetClientIdentityReturnsOnCall` | regulators/chaincode/medical-supply/mocks/transactioncontext.go:86-98 | the accessor's state takes the `ReturnsOnCall` step (stub cleared, entry `i` set); nothing else changes |
| `Mocks.TransactionContext.GetMedicineList` | regulators/chaincode/medical-supply/mocks/transactioncontext.go:100-116 | as `GetClientIdentity`, for the medicine list accessor and the key "GetMedicineList" |
| `Mocks.TransactionContext.GetMedicineListCallCount` | regulators/chaincode/medical-supply/mocks/transactioncontext.go:118-122 | returns the number of calls, which equals the number of log entries under "GetMedicineList"; changes nothing |
| `Mocks.TransactionContext.GetMedicineListCalls` | regulators/chaincode/medical-supply/mocks/transactioncontext.go:124-128 | the accessor's state takes the `Calls` step; nothing else changes |
| `Mocks.TransactionContext.GetMedicineListReturns` | regulators/chaincode/medical-supply/mocks/transactioncontext.go:130-137 | the accessor's state takes the `Returns` step; nothing else changes |
| `Mocks.TransactionContext.GetMedicineListReturnsOnCall` | regulators/chaincode/medical-supply/mocks/transactioncontext.go:139-151 | the accessor's state takes the `ReturnsOnCall` step; nothing else changes |
| `Mocks.TransactionContext.GetStub` | regulators/chaincode/medical-supply/mocks/transactioncontext.go:153-169 | as `GetClientIdentity`, for the chaincode stub accessor and the key "GetStub" |
| `Mocks.TransactionContext.GetStubCallCount` | regulators/chaincode/medical-supply/mocks/transactioncontext.go:171-175 | returns the number of calls, which equals the number of log entries under "GetStub"; changes nothing |
| `Mocks.TransactionContext.GetStubCalls` | regulators/chaincode/medical-supply/mocks/transactioncontext.go:177-181 | the accessor's state takes the `Calls` step; nothing else changes |
| `Mocks.TransactionContext.GetStubReturns` | regulators/chaincode/medical-supply/mocks/transactioncontext.go:183-190 | the accessor's state takes the `Returns` step; nothing else changes |
| `Mocks.TransactionContext.GetStubReturnsOnCall` | regulators/chaincode/medical-supply/mocks/transactioncontext.go:192-204 | the accessor's state takes the `ReturnsOnCall` step; nothing else changes |
| `Mocks.TransactionContext.Invocations` | regulators/chaincode/medical-supply/mocks/transactioncontext.go:206-220 | returns a map with exactly the keys and lists of the recorded log (empty when the log is nil); changes no state |
| `Mocks.TransactionContext.RecordInvocation` | regulators/chaincode/medical-supply/mocks/transactioncontext.go:222-232 | creates the log when nil and records `args` under `key` as `Recorded` states |

## Left out

- The `sync.RWMutex` fields and every lock and unlock. They only serve concurrent use. The model is single-threaded, so interleavings of concurrent calls are not modelled.
- Side effects of a stub. A stub is a pure Dafny function. Go calls it after releasing the lock, so a stub that reconfigures the double or calls it again is not modelled. A pure `() -> T` answers the same value every time, so a Go closure stub whose answer changes from call to call is not modelled either.
- Direct writes to the exported `…Stub` fields. Tests can set these fields without calling `…Calls`; the effect is the same as `Calls`, so there is no separate operation.
- Go's 64-bit `int`. Call counts and call indices are unbounded integers, so overflow of the call count is not modelled.
- Slice aliasing. Go's `Invocations` returns a new map whose slices share storage with the recorded log. The model's map and sequence values cannot alias.
- The nil-slice case in recording (line 228). A key present with a nil list cannot arise, because lists are only ever appended to. The model treats only a missing key as empty.
- The Fabric types `cid.ClientIdentity`, `shim.ChaincodeStubInterface` and `ListInterface`. They are opaque type parameters, and their zero values are constructor arguments.
- The medicine contract (issue, request, approve, history), its record list and its ledger. That source is not part of this model.
- `customers/application/app.go`. It is only wiring: environment, wallet and certificate files, the gateway connection and network submission.
- `caliper/workload/createMS.js`. It is a benchmark driver built on randomness, clock time and network requests.
