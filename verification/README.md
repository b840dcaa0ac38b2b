# BuckPal `sendMoney`: a verified model of the money-transfer protocol

BuckPal's send-money use case moves an amount from a source account to a target
account. `SendMoneyService.sendMoney(command)`:

1. throws `ThresholdExceededException` when the amount is strictly greater than the
   configured maximum transfer threshold (the test's shared service is built with
   `Money.of(Long.MAX_VALUE)`);
2. loads both accounts and throws `IllegalStateException` with the message
   "expected source account ID not to be empty" or "expected target account ID not
   to be empty" when a loaded account reports no id (the model checks the source first);
3. locks the source account and withdraws the amount towards the target id. If the
   withdrawal fails, it releases the source and returns `false`;
4. locks the target account and deposits the amount from the source id. If the
   deposit fails, it releases both accounts and returns `false`;
5. hands both accounts to `updateActivities`, releases both locks and returns `true`.

The model follows the protocol that `SendMoneyServiceTest` pins down;
`SendMoneyService`'s implementation is not modelled. Every collaborator is a stub in
that test: the lock, the persistence port, the loading port and the two accounts. The
model treats them the same way:

- `Domain.Account` is a value. It holds the id the account reports through `getId()`
  and the stubbed answers of `withdraw` and `deposit`.
- The loading port is a total function `AccountId -> Account`.
- `Ports.Collaborators` is an object. Each call the service makes on the lock, the
  accounts or the persistence port is appended to its `calls` trace, in call order.

`SendMoney.Expected` is a pure function. It gives the outcome and the calls of one
transfer. Its outcome is either `Thrown(failure)` or `Returned(success)`.
`SendMoney.SendMoneyService.SendMoney` is the imperative method. It makes the calls
one by one. Its contract says it returns `Expected`'s outcome and appends exactly
`Expected`'s calls to the trace. It also says that no lock count changes: every lock
taken is released again. The lemmas prove the test's assertions as properties of
`Expected` for all inputs. `Ports.Count` is the model of Mockito's `times(n)`: it
counts occurrences in the trace. `Ports.UpdatedAccounts` is the model of the argument
captor: it lists the accounts passed to `updateActivities`. The tests use two
distinct ids (41 and 42). The "exactly once" lemmas therefore require the two ids to
differ. The lock-balance lemma holds for every input.

The test leaves some points open. The model settles them as follows:

- an amount equal to the threshold passes the check;
- the source id is checked before the target id, so an empty source id wins when both are empty;
- a thrown outcome makes no collaborator calls;
- nothing is persisted on a failure path;
- locks are released target first, then source.

Two of these choices reach lemma statements. The "only if" directions of
`ThresholdExceededIsThrown`, `EmptySourceId`, `EmptyTargetId`, `SuccessIffBothLegsSucceed`
and `Expected`'s own contract rest on the equality choice: they let an amount equal to
the threshold through. `EmptySourceId` and `EmptyTargetId` also rest on the check
order: with both ids empty they give the source-id exception. The test exercises
neither case. The other three choices show only in the exact trace `Expected` returns;
no lemma states them.

## Model

| member | source | states |
|---|---|---|
| `Domain.DefaultProperties` | src/test/java/io/reflectoring/buckpal/application/domain/service/SendMoneyServiceTest.java:228-230 | The test fixture's threshold is `Long.MAX_VALUE`, so no amount that fits in a `long` is greater than it |
| `SendMoney.Expected` | src/test/java/io/reflectoring/buckpal/application/domain/service/SendMoneyServiceTest.java:36-173 | The protocol of one `sendMoney` call: it returns a boolean exactly when the threshold check and both id checks pass (otherwise it throws), and the boolean is true exactly when both the withdrawal and the deposit succeed |
| `Ports.Count` | src/test/java/io/reflectoring/buckpal/application/domain/service/SendMoneyServiceTest.java:109-111 | How often a call was made, as a `times(n)` verification reads it: never more than the trace length, and zero exactly when the call does not occur |
| `Ports.CountIsMultiplicity` | src/test/java/io/reflectoring/buckpal/application/domain/service/SendMoneyServiceTest.java:135-138 | `Count` equals the multiplicity of the call in the trace's multiset, an independent definition of "how often" |
| `Ports.UpdatedAccounts` | src/test/java/io/reflectoring/buckpal/application/domain/service/SendMoneyServiceTest.java:175-184 | The captured accounts are exactly the accounts passed to `updateActivities` in the trace, and there are no more of them than calls |
| `Ports.UpdatedAccountsMultiplicity` | src/test/java/io/reflectoring/buckpal/application/domain/service/SendMoneyServiceTest.java:177-178 | Each account is captured exactly as often as `updateActivities` was called with it |
| `Ports.Collaborators.constructor` | src/test/java/io/reflectoring/buckpal/application/domain/service/SendMoneyServiceTest.java:24-31 | Fresh mocks have recorded no interaction |
| `Ports.Collaborators.LockAccount` | src/test/java/io/reflectoring/buckpal/application/domain/service/SendMoneyServiceTest.java:27-28 | `lockAccount(id)` is recorded as the next call, and nothing else changes |
| `Ports.Collaborators.ReleaseAccount` | src/test/java/io/reflectoring/buckpal/application/domain/service/SendMoneyServiceTest.java:27-28 | `releaseAccount(id)` is recorded as the next call, and nothing else changes |
| `Ports.Collaborators.Withdraw` | src/test/java/io/reflectoring/buckpal/application/domain/service/SendMoneyServiceTest.java:201-209 | `withdraw(money, targetId)` on the account is recorded and answers as the account was stubbed |
| `Ports.Collaborators.Deposit` | src/test/java/io/reflectoring/buckpal/application/domain/service/SendMoneyServiceTest.java:191-199 | `deposit(money, sourceId)` on the account is recorded and answers as the account was stubbed |
| `Ports.Collaborators.UpdateActivities` | src/test/java/io/reflectoring/buckpal/application/domain/service/SendMoneyServiceTest.java:30-31 | `updateActivities(account)` is recorded as the next call |
| `SendMoney.SendMoneyService.constructor` | src/test/java/io/reflectoring/buckpal/application/domain/service/SendMoneyServiceTest.java:33-34 | The service keeps the loading port, the collaborators and the threshold configuration it is built with |
| `SendMoney.SendMoneyService.SendMoney` | src/test/java/io/reflectoring/buckpal/application/domain/service/SendMoneyServiceTest.java:36-173 | The outcome and the appended calls are those of the protocol for the loaded accounts; every account's held-lock count is the same afterwards as before; the captured updated accounts are the earlier ones followed by this call's |
| `SendMoney.ThresholdExceededIsThrown` | src/test/java/io/reflectoring/buckpal/application/domain/service/SendMoneyServiceTest.java:37-46 | ThresholdExceeded (with amount and threshold) is thrown if and only if the amount is strictly greater than the threshold |
| `SendMoney.DefaultThresholdAdmitsEveryLong` | src/test/java/io/reflectoring/buckpal/application/domain/service/SendMoneyServiceTest.java:228-230 | Under the test fixture's `Long.MAX_VALUE` threshold, no `long` amount throws ThresholdExceeded |
| `SendMoney.DefaultThresholdReachesIdCheck` | src/test/java/io/reflectoring/buckpal/application/domain/service/SendMoneyServiceTest.java:59-66 | The test's own sample: amount 2000 under the test fixture's `Long.MAX_VALUE` threshold with an empty source id ends in the empty-source-id exception, not a threshold failure (for every `long` amount this follows from `DefaultThresholdAdmitsEveryLong` and `EmptySourceId`) |
| `SendMoney.EmptySourceId` | src/test/java/io/reflectoring/buckpal/application/domain/service/SendMoneyServiceTest.java:50-67 | IllegalState "expected source account ID not to be empty" is thrown if and only if the threshold check passes and the source account reports no id |
| `SendMoney.EmptyTargetId` | src/test/java/io/reflectoring/buckpal/application/domain/service/SendMoneyServiceTest.java:69-86 | IllegalState "expected target account ID not to be empty" is thrown if and only if the threshold check passes, the source reports an id and the target reports none |
| `SendMoney.SuccessIffBothLegsSucceed` | src/test/java/io/reflectoring/buckpal/application/domain/service/SendMoneyServiceTest.java:105-159 | `true` is returned if and only if both checks pass and both the withdrawal and the deposit succeed |
| `SendMoney.WithdrawalFails` | src/test/java/io/reflectoring/buckpal/application/domain/service/SendMoneyServiceTest.java:88-112 | A failed withdrawal returns false, locks and releases the source exactly once and never locks the target |
| `SendMoney.DepositFails` | src/test/java/io/reflectoring/buckpal/application/domain/service/SendMoneyServiceTest.java:114-139 | A failed deposit returns false and locks and releases source and target exactly once each |
| `SendMoney.TransferSucceeds` | src/test/java/io/reflectoring/buckpal/application/domain/service/SendMoneyServiceTest.java:141-170 | A successful transfer returns true, calls `withdraw(money, targetId)` on the source and `deposit(money, sourceId)` on the target exactly once each, and locks and releases each account exactly once |
| `SendMoney.AccountsUpdated` | src/test/java/io/reflectoring/buckpal/application/domain/service/SendMoneyServiceTest.java:172-188 | On success `updateActivities` is called exactly twice, and the updated accounts' ids include both the source id and the target id |
| `SendMoney.LockBalance` | src/test/java/io/reflectoring/buckpal/application/domain/service/SendMoneyServiceTest.java:88-170 | On every path and for every account id, lock calls and release calls are equal in number |

## Left out

- Account internals (balance, activity window, the rule that decides whether `withdraw` succeeds): the accounts are stubs, so their answers are inputs.
- The loading port's baseline timestamp, and the recording of load calls: the test checks neither.
- The persistence mechanics behind `updateActivities`: only the call is observable.
- `AccountLock` as a real mutual-exclusion primitive, and concurrency or deadlock: one sequential call is modelled.
- Any validation `SendMoneyCommand` performs (the model accepts every amount and id): the command class is not part of this model.
- A failing or null-returning `loadAccount`: the loading port is a total function, so loading never fails. The test stubs every load it uses.
- The text of the ThresholdExceeded message: the test does not check it.
- The order of calls across different mocks: the model puts all calls on one trace, but the test checks each mock separately. No lemma relies on the order between two calls.
- Mockito and AssertJ plumbing (stubbing, verification, captors): only what they observe is modelled, as `Count` and `UpdatedAccounts`.
