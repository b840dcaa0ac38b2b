/**
 * The collaborators of the send-money service (AccountLock, UpdateAccountStatePort
 * and the two loaded accounts), seen only through the calls made on them.
 */
module Ports {
  import opened Domain

  /** One call the service makes on a collaborator. */
  datatype Call =
    | Lock(id: AccountId)
    | Release(id: AccountId)
    | Withdraw(account: Account, money: Money, targetId: AccountId)
    | Deposit(account: Account, money: Money, sourceId: AccountId)
    | Update(account: Account)

  /** How often `c` occurs in `calls` (what a `times(n)` verification looks at). */
  function Count(calls: seq<Call>, c: Call): (n: nat)
    ensures n <= |calls|
    ensures n == 0 <==> c !in calls
  {
    if calls == [] then 0
    else Count(calls[..|calls| - 1], c) + (if calls[|calls| - 1] == c then 1 else 0)
  }

  lemma {:induction false} CountAppend(a: seq<Call>, b: seq<Call>, c: Call)
    ensures Count(a + b, c) == Count(a, c) + Count(b, c)
    decreases |b|
  {
    if b == [] {
      assert a + b == a;
    } else {
      var b' := b[..|b| - 1];
      assert (a + b)[..|a + b| - 1] == a + b';
      CountAppend(a, b', c);
    }
  }

  /** `Count` agrees with the multiplicity of `c` in the multiset of the trace. */
  lemma {:induction false} CountIsMultiplicity(calls: seq<Call>, c: Call)
    ensures Count(calls, c) == multiset(calls)[c]
    decreases |calls|
  {
    if calls != [] {
      var init := calls[..|calls| - 1];
      assert calls == init + [calls[|calls| - 1]];
      CountIsMultiplicity(init, c);
    }
  }

  /** Locks on `id` taken and not yet released. */
  function Held(calls: seq<Call>, id: AccountId): int {
    Count(calls, Lock(id)) - Count(calls, Release(id))
  }

  /** The accounts handed to `updateActivities`, in call order (what an argument captor collects). */
  function UpdatedAccounts(calls: seq<Call>): (u: seq<Account>)
    ensures |u| <= |calls|
    ensures forall a :: a in u <==> Update(a) in calls
  {
    if calls == [] then []
    else
      var last := calls[|calls| - 1];
      UpdatedAccounts(calls[..|calls| - 1]) + (if last.Update? then [last.account] else [])
  }

  /** Each account is captured exactly as often as `updateActivities` was called with it. */
  lemma {:induction false} UpdatedAccountsMultiplicity(calls: seq<Call>, a: Account)
    ensures multiset(UpdatedAccounts(calls))[a] == Count(calls, Update(a))
    decreases |calls|
  {
    if calls != [] {
      UpdatedAccountsMultiplicity(calls[..|calls| - 1], a);
    }
  }

  lemma {:induction false} UpdatedAccountsAppend(a: seq<Call>, b: seq<Call>)
    ensures UpdatedAccounts(a + b) == UpdatedAccounts(a) + UpdatedAccounts(b)
    decreases |b|
  {
    if b == [] {
      assert a + b == a;
    } else {
      var b' := b[..|b| - 1];
      assert (a + b)[..|a + b| - 1] == a + b';
      UpdatedAccountsAppend(a, b');
    }
  }

  lemma {:induction false} NoUpdatedAccounts(calls: seq<Call>)
    requires forall c :: c in calls ==> !c.Update?
    ensures UpdatedAccounts(calls) == []
    decreases |calls|
  {
    if calls != [] {
      var init := calls[..|calls| - 1];
      assert forall c :: c in init ==> c in calls;
      NoUpdatedAccounts(init);
    }
  }

  /** The recording collaborators: every call lands, in order, on one trace. */
  class Collaborators {
    var calls: seq<Call>

    constructor ()
      ensures calls == []
    {
      calls := [];
    }

    /** `AccountLock.lockAccount`. */
    method LockAccount(id: AccountId)
      modifies this
      ensures calls == old(calls) + [Lock(id)]
    {
      calls := calls + [Lock(id)];
    }

    /** `AccountLock.releaseAccount`. */
    method ReleaseAccount(id: AccountId)
      modifies this
      ensures calls == old(calls) + [Release(id)]
    {
      calls := calls + [Release(id)];
    }

    /** `Account.withdraw` on `account`; answers as the account was set up to. */
    method Withdraw(account: Account, money: Money, targetId: AccountId) returns (ok: bool)
      modifies this
      ensures ok == account.withdrawSucceeds
      ensures calls == old(calls) + [Call.Withdraw(account, money, targetId)]
    {
      calls := calls + [Call.Withdraw(account, money, targetId)];
      ok := account.withdrawSucceeds;
    }

    /** `Account.deposit` on `account`; answers as the account was set up to. */
    method Deposit(account: Account, money: Money, sourceId: AccountId) returns (ok: bool)
      modifies this
      ensures ok == account.depositSucceeds
      ensures calls == old(calls) + [Call.Deposit(account, money, sourceId)]
    {
      calls := calls + [Call.Deposit(account, money, sourceId)];
      ok := account.depositSucceeds;
    }

    /** `UpdateAccountStatePort.updateActivities`. */
    method UpdateActivities(account: Account)
      modifies this
      ensures calls == old(calls) + [Update(account)]
    {
      calls := calls + [Update(account)];
    }
  }
}
