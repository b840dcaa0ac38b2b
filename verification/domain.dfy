/** Value types of the BuckPal money-transfer domain as the send-money use case sees them. */
module Domain {

  datatype Option<+T> = None | Some(value: T)

  /** Largest value of a Java `long`; the test fixture's shared service uses `Money.of(Long.MAX_VALUE)` as its threshold. */
  const LongMax: int := 0x7FFF_FFFF_FFFF_FFFF

  /** A monetary amount. `Money.of(long)` wraps an arbitrary-precision integer, so no wrap-around. */
  datatype Money = Money(amount: int) {
    predicate IsGreaterThan(other: Money) {
      amount > other.amount
    }
  }

  datatype AccountId = AccountId(value: int)

  /**
   * An account as the loading port hands it to the service. Its internals
   * (balance, activity window) are not visible: what matters is the id it
   * reports through `getId()` and how its two transfer legs answer.
   */
  datatype Account = Account(id: Option<AccountId>, withdrawSucceeds: bool, depositSucceeds: bool)

  /** Configuration of the service: the largest amount one transfer may move. */
  datatype MoneyTransferProperties = MoneyTransferProperties(maximumTransferThreshold: Money)

  /**
   * The properties the test fixture builds its shared service with (threshold
   * `Money.of(Long.MAX_VALUE)`). The service's own default configuration is
   * not part of this model.
   */
  function DefaultProperties(): (p: MoneyTransferProperties)
    ensures forall m: Money :: m.amount <= LongMax ==> !m.IsGreaterThan(p.maximumTransferThreshold)
  {
    MoneyTransferProperties(Money(LongMax))
  }

  datatype SendMoneyCommand = SendMoneyCommand(sourceAccountId: AccountId, targetAccountId: AccountId, money: Money)
}
