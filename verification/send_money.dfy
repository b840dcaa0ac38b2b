/**
 * The send-money use case: check the threshold, check that both loaded
 * accounts report an id, then lock the source, withdraw, lock the target,
 * deposit, persist both accounts and release every lock taken.
 */
module SendMoney {
  import opened Domain
  import opened Ports

  const SourceIdEmpty: string := "expected source account ID not to be empty"
  const TargetIdEmpty: string := "expected target account ID not to be empty"

  /** The exceptions `sendMoney` throws. */
  datatype Failure =
    | ThresholdExceeded(money: Money, threshold: Money)
    | IllegalState(message: string)

  /** Either `sendMoney` threw, or it returned a boolean. */
  datatype Outcome = Thrown(failure: Failure) | Returned(success: bool)

  /** What one `sendMoney` call does: its outcome and the calls it makes, in order. */
  datatype Transcript = Transcript(outcome: Outcome, calls: seq<Call>)

  /**
   * The protocol as a function of the configuration, the amount and the two
   * accounts the loading port returns for the command's ids.
   */
  function Expected(properties: MoneyTransferProperties, money: Money, source: Account, target: Account): (r: Transcript)
    ensures r.outcome.Returned?
      <==> !money.IsGreaterThan(properties.maximumTransferThreshold) && source.id.Some? && target.id.Some?
    ensures r.outcome.Returned? ==> r.outcome.success == (source.withdrawSucceeds && target.depositSucceeds)
  {
    var threshold := properties.maximumTransferThreshold;
    if money.IsGreaterThan(threshold) then
      Transcript(Thrown(ThresholdExceeded(money, threshold)), [])
    else if source.id.None? then
      Transcript(Thrown(IllegalState(SourceIdEmpty)), [])
    else if target.id.None? then
      Transcript(Thrown(IllegalState(TargetIdEmpty)), [])
    else
      var s, t := source.id.value, target.id.value;
      if !source.withdrawSucceeds then
        Transcript(Returned(false), [Lock(s), Withdraw(source, money, t), Release(s)])
      else if !target.depositSucceeds then
        Transcript(Returned(false),
          [Lock(s), Withdraw(source, money, t), Lock(t), Deposit(target, money, s), Release(t), Release(s)])
      else
        Transcript(Returned(true),
          [Lock(s), Withdraw(source, money, t), Lock(t), Deposit(target, money, s),
           Update(source), Update(target), Release(t), Release(s)])
  }

  class SendMoneyService {
    /** `LoadAccountPort.loadAccount`: the account it returns for an id. */
    const load: AccountId -> Account
    const ports: Collaborators
    const properties: MoneyTransferProperties

    constructor (load: AccountId -> Account, ports: Collaborators, properties: MoneyTransferProperties)
      ensures this.load == load && this.ports == ports && this.properties == properties
    {
      this.load := load;
      this.ports := ports;
      this.properties := properties;
    }

    /** `sendMoney(command)`. */
    method SendMoney(command: SendMoneyCommand) returns (outcome: Outcome)
      modifies ports
      ensures var e := Expected(properties, command.money, load(command.sourceAccountId), load(command.targetAccountId));
        outcome == e.outcome && ports.calls == old(ports.calls) + e.calls
      ensures forall id :: Held(ports.calls, id) == old(Held(ports.calls, id))
      ensures UpdatedAccounts(ports.calls)
        == old(UpdatedAccounts(ports.calls)) + UpdatedAccounts(Expected(properties, command.money,
             load(command.sourceAccountId), load(command.targetAccountId)).calls)
    {
      ghost var before := ports.calls;
      var threshold := properties.maximumTransferThreshold;
      if command.money.IsGreaterThan(threshold) {
        outcome := Thrown(ThresholdExceeded(command.money, threshold));
        assert ports.calls == before + [];
        return;
      }
      var sourceAccount := load(command.sourceAccountId);
      var targetAccount := load(command.targetAccountId);
      if sourceAccount.id.None? {
        outcome := Thrown(IllegalState(SourceIdEmpty));
        assert ports.calls == before + [];
        return;
      }
      if targetAccount.id.None? {
        outcome := Thrown(IllegalState(TargetIdEmpty));
        assert ports.calls == before + [];
        return;
      }
      var sourceId, targetId := sourceAccount.id.value, targetAccount.id.value;
      ghost var e := Expected(properties, command.money, sourceAccount, targetAccount);

      ports.LockAccount(sourceId);
      var withdrawn := ports.Withdraw(sourceAccount, command.money, targetId);
      if !withdrawn {
        ports.ReleaseAccount(sourceId);
        outcome := Returned(false);
        KeepsLocksBalanced(before, e.calls, ports.calls, properties, command.money, sourceAccount, targetAccount);
        UpdatedAccountsAppend(before, e.calls);
        return;
      }

      ports.LockAccount(targetId);
      var deposited := ports.Deposit(targetAccount, command.money, sourceId);
      if !deposited {
        ports.ReleaseAccount(targetId);
        ports.ReleaseAccount(sourceId);
        outcome := Returned(false);
        KeepsLocksBalanced(before, e.calls, ports.calls, properties, command.money, sourceAccount, targetAccount);
        UpdatedAccountsAppend(before, e.calls);
        return;
      }

      ports.UpdateActivities(sourceAccount);
      ports.UpdateActivities(targetAccount);
      ports.ReleaseAccount(targetId);
      ports.ReleaseAccount(sourceId);
      outcome := Returned(true);
      KeepsLocksBalanced(before, e.calls, ports.calls, properties, command.money, sourceAccount, targetAccount);
      UpdatedAccountsAppend(before, e.calls);
    }
  }

  /** Appending one call's trace to any earlier trace leaves every lock count where it was. */
  lemma KeepsLocksBalanced(before: seq<Call>, added: seq<Call>, after: seq<Call>,
                           properties: MoneyTransferProperties, money: Money, source: Account, target: Account)
    requires added == Expected(properties, money, source, target).calls
    requires after == before + added
    ensures forall id :: Held(after, id) == Held(before, id)
  {
    forall id ensures Held(after, id) == Held(before, id) {
      CountAppend(before, added, Lock(id));
      CountAppend(before, added, Release(id));
      LockBalance(properties, money, source, target);
    }
  }

  // ----- Properties of the protocol -----

  /** An amount strictly above the threshold throws ThresholdExceeded, and nothing else does. */
  lemma ThresholdExceededIsThrown(properties: MoneyTransferProperties, money: Money, source: Account, target: Account)
    ensures var e := Expected(properties, money, source, target);
      e.outcome == Thrown(ThresholdExceeded(money, properties.maximumTransferThreshold))
      <==> money.IsGreaterThan(properties.maximumTransferThreshold)
  {
  }

  /** With the test fixture's `Long.MAX_VALUE` threshold, every `long` amount gets past the threshold check. */
  lemma DefaultThresholdAdmitsEveryLong(money: Money, source: Account, target: Account)
    requires money.amount <= LongMax
    ensures var e := Expected(DefaultProperties(), money, source, target);
      !(e.outcome.Thrown? && e.outcome.failure.ThresholdExceeded?)
  {
  }

  /** The empty-source-id exception, and exactly when it is thrown. */
  lemma EmptySourceId(properties: MoneyTransferProperties, money: Money, source: Account, target: Account)
    ensures Expected(properties, money, source, target).outcome
              == Thrown(IllegalState("expected source account ID not to be empty"))
      <==> !money.IsGreaterThan(properties.maximumTransferThreshold) && source.id.None?
  {
  }

  /** The empty-target-id exception, and exactly when it is thrown. */
  lemma EmptyTargetId(properties: MoneyTransferProperties, money: Money, source: Account, target: Account)
    ensures Expected(properties, money, source, target).outcome
              == Thrown(IllegalState("expected target account ID not to be empty"))
      <==> !money.IsGreaterThan(properties.maximumTransferThreshold) && source.id.Some? && target.id.None?
  {
  }

  /**
   * The sample of the empty-source-id test, kept as that test's concrete case:
   * amount 2000 under the test fixture's threshold. For every amount it follows from
   * DefaultThresholdAdmitsEveryLong and EmptySourceId.
   */
  lemma DefaultThresholdReachesIdCheck(source: Account, target: Account)
    requires source.id.None?
    ensures Expected(DefaultProperties(), Money(2000), source, target).outcome
              == Thrown(IllegalState(SourceIdEmpty))
  {
  }

  /** `sendMoney` returns true exactly when both legs succeed after both checks pass. */
  lemma SuccessIffBothLegsSucceed(properties: MoneyTransferProperties, money: Money, source: Account, target: Account)
    ensures Expected(properties, money, source, target).outcome == Returned(true)
      <==> !money.IsGreaterThan(properties.maximumTransferThreshold) && source.id.Some? && target.id.Some?
           && source.withdrawSucceeds && target.depositSucceeds
  {
  }

  /** A failed withdrawal: false, the source locked and released once, the target never locked. */
  lemma WithdrawalFails(properties: MoneyTransferProperties, money: Money, source: Account, target: Account)
    requires !money.IsGreaterThan(properties.maximumTransferThreshold)
    requires source.id.Some? && target.id.Some? && source.id != target.id
    requires !source.withdrawSucceeds
    ensures var e := Expected(properties, money, source, target);
      var s, t := source.id.value, target.id.value;
      e.outcome == Returned(false)
      && Count(e.calls, Lock(s)) == 1 && Count(e.calls, Release(s)) == 1
      && Count(e.calls, Lock(t)) == 0
  {
  }

  /** A failed deposit: false, source and target each locked once and released once. */
  lemma DepositFails(properties: MoneyTransferProperties, money: Money, source: Account, target: Account)
    requires !money.IsGreaterThan(properties.maximumTransferThreshold)
    requires source.id.Some? && target.id.Some? && source.id != target.id
    requires source.withdrawSucceeds && !target.depositSucceeds
    ensures var e := Expected(properties, money, source, target);
      var s, t := source.id.value, target.id.value;
      e.outcome == Returned(false)
      && Count(e.calls, Lock(s)) == 1 && Count(e.calls, Release(s)) == 1
      && Count(e.calls, Lock(t)) == 1 && Count(e.calls, Release(t)) == 1
  {
    var e := Expected(properties, money, source, target);
    var s, t := source.id.value, target.id.value;
    var calls := [Lock(s), Withdraw(source, money, t), Lock(t), Deposit(target, money, s), Release(t), Release(s)];
    assert e.calls == calls;
    assert Count(calls, Lock(s)) == 1 by { CountIsMultiplicity(calls, Lock(s)); }
    assert Count(calls, Release(s)) == 1 by { CountIsMultiplicity(calls, Release(s)); }
    assert Count(calls, Lock(t)) == 1 by { CountIsMultiplicity(calls, Lock(t)); }
    assert Count(calls, Release(t)) == 1 by { CountIsMultiplicity(calls, Release(t)); }
  }

  /**
   * A successful transfer: true, the source withdraws the amount towards the
   * target, the target takes the deposit from the source, each account is
   * locked once and released once.
   */
  lemma TransferSucceeds(properties: MoneyTransferProperties, money: Money, source: Account, target: Account)
    requires !money.IsGreaterThan(properties.maximumTransferThreshold)
    requires source.id.Some? && target.id.Some? && source.id != target.id
    requires source.withdrawSucceeds && target.depositSucceeds
    ensures var e := Expected(properties, money, source, target);
      var s, t := source.id.value, target.id.value;
      e.outcome == Returned(true)
      && Count(e.calls, Withdraw(source, money, t)) == 1
      && Count(e.calls, Deposit(target, money, s)) == 1
      && Count(e.calls, Lock(s)) == 1 && Count(e.calls, Release(s)) == 1
      && Count(e.calls, Lock(t)) == 1 && Count(e.calls, Release(t)) == 1
  {
    var e := Expected(properties, money, source, target);
    var s, t := source.id.value, target.id.value;
    var calls := [Lock(s), Withdraw(source, money, t), Lock(t), Deposit(target, money, s),
                  Update(source), Update(target), Release(t), Release(s)];
    assert e.calls == calls;
    assert Count(calls, Withdraw(source, money, t)) == 1 by { CountIsMultiplicity(calls, Withdraw(source, money, t)); }
    assert Count(calls, Deposit(target, money, s)) == 1 by { CountIsMultiplicity(calls, Deposit(target, money, s)); }
    assert Count(calls, Lock(s)) == 1 by { CountIsMultiplicity(calls, Lock(s)); }
    assert Count(calls, Release(s)) == 1 by { CountIsMultiplicity(calls, Release(s)); }
    assert Count(calls, Lock(t)) == 1 by { CountIsMultiplicity(calls, Lock(t)); }
    assert Count(calls, Release(t)) == 1 by { CountIsMultiplicity(calls, Release(t)); }
  }

  /** On success `updateActivities` runs twice, once with each of the two accounts' ids. */
  lemma AccountsUpdated(properties: MoneyTransferProperties, money: Money, source: Account, target: Account)
    requires Expected(properties, money, source, target).outcome == Returned(true)
    ensures var updated := UpdatedAccounts(Expected(properties, money, source, target).calls);
      |updated| == 2
      && (exists i :: 0 <= i < |updated| && updated[i].id == source.id)
      && (exists i :: 0 <= i < |updated| && updated[i].id == target.id)
      && source.id.Some? && target.id.Some?
  {
    SuccessUpdates(money, source, target, source.id.value, target.id.value);
    var updated := UpdatedAccounts(Expected(properties, money, source, target).calls);
    assert updated[0].id == source.id && updated[1].id == target.id;
  }

  /** The accounts persisted along the success path, in order. */
  lemma SuccessUpdates(money: Money, source: Account, target: Account, s: AccountId, t: AccountId)
    ensures UpdatedAccounts([Lock(s), Withdraw(source, money, t), Lock(t), Deposit(target, money, s),
                             Update(source), Update(target), Release(t), Release(s)]) == [source, target]
  {
    var legs := [Lock(s), Withdraw(source, money, t), Lock(t), Deposit(target, money, s)];
    var releases := [Release(t), Release(s)];
    assert [Lock(s), Withdraw(source, money, t), Lock(t), Deposit(target, money, s),
            Update(source), Update(target), Release(t), Release(s)]
        == legs + [Update(source)] + [Update(target)] + releases;
    NoUpdatedAccounts(legs);
    NoUpdatedAccounts(releases);
    assert UpdatedAccounts([Update(source)]) == [source];
    assert UpdatedAccounts([Update(target)]) == [target];
    UpdatedAccountsAppend(legs, [Update(source)]);
    UpdatedAccountsAppend(legs + [Update(source)], [Update(target)]);
    UpdatedAccountsAppend(legs + [Update(source)] + [Update(target)], releases);
  }

  /** On every path, for every id, the locks taken equal the locks released. */
  lemma LockBalance(properties: MoneyTransferProperties, money: Money, source: Account, target: Account)
    ensures var calls := Expected(properties, money, source, target).calls;
      forall id :: Count(calls, Lock(id)) == Count(calls, Release(id))
  {
    var e := Expected(properties, money, source, target);
    if e.calls != [] {
      var s, t := source.id.value, target.id.value;
      forall id ensures Count(e.calls, Lock(id)) == Count(e.calls, Release(id)) {
        PathLockCounts(money, source, target, s, t, id);
      }
    }
  }

  /** Locks taken and released on `id` along each of the three paths that reach the accounts. */
  lemma PathLockCounts(money: Money, source: Account, target: Account, s: AccountId, t: AccountId, id: AccountId)
    ensures var n := if id == s then 1 else 0;
      var calls := [Lock(s), Withdraw(source, money, t), Release(s)];
      Count(calls, Lock(id)) == n && Count(calls, Release(id)) == n
    ensures var n := (if id == s then 1 else 0) + (if id == t then 1 else 0);
      var calls := [Lock(s), Withdraw(source, money, t), Lock(t), Deposit(target, money, s), Release(t), Release(s)];
      Count(calls, Lock(id)) == n && Count(calls, Release(id)) == n
    ensures var n := (if id == s then 1 else 0) + (if id == t then 1 else 0);
      var calls := [Lock(s), Withdraw(source, money, t), Lock(t), Deposit(target, money, s),
                    Update(source), Update(target), Release(t), Release(s)];
      Count(calls, Lock(id)) == n && Count(calls, Release(id)) == n
  {
    var w, d := Withdraw(source, money, t), Deposit(target, money, s);
    var withdrawalFailed := [Lock(s), w, Release(s)];
    var depositFailed := [Lock(s), w, Lock(t), d, Release(t), Release(s)];
    var succeeded := [Lock(s), w, Lock(t), d, Update(source), Update(target), Release(t), Release(s)];
    CountIsMultiplicity(withdrawalFailed, Lock(id));
    CountIsMultiplicity(withdrawalFailed, Release(id));
    CountIsMultiplicity(depositFailed, Lock(id));
    CountIsMultiplicity(depositFailed, Release(id));
    CountIsMultiplicity(succeeded, Lock(id));
    CountIsMultiplicity(succeeded, Release(id));
  }
}
