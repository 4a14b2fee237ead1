/**
 * The state-changing operations of src/divvy/logic.py, as methods over the
 * store: recording expenses, deposits and refunds, adding, removing and
 * re-adding members, and closing the open period.  The source returns a
 * message string; here each operation returns an outcome value naming the
 * same case, and the money strings are left to the caller (an amount that does
 * not parse arrives as `None`).
 */
module Logic {
  import opened Common
  import opened Store
  import opened Rotation
  import opened Balances

  // ---------------------------------------------------------------------------
  // record_expense (logic.py:43-122)
  // ---------------------------------------------------------------------------

  datatype ExpenseOutcome =
    | ExpenseBadAmount
    | ExpensePayerNotFound
    | ExpenseCategoryNotFound
    | ExpenseNoActiveMembers
      /** The new row's id, the remainder `amount mod n`, and the member reported as taking it ("N/A" is None). */
    | ExpenseRecorded(txId: nat, remainder: int, remainderPayer: Option<Member>)

  /**
   * `record_expense`.  The checks run in the source's order and each failure
   * writes nothing.  On success the remainder step has run on the member table
   * (see Rotation) and exactly one expense row has been appended to the open
   * period.
   */
  method RecordExpense(db: Database, description: Option<string>, amount: Option<int>,
                       payerName: string, categoryName: string)
    returns (r: ExpenseOutcome)
    requires db.Valid()
    modifies db
    ensures db.Valid()
    ensures amount.None? ==> r == ExpenseBadAmount
    ensures amount.Some? && FindMemberByName(old(db.members), payerName).None? ==> r == ExpensePayerNotFound
    ensures (amount.Some? && FindMemberByName(old(db.members), payerName).Some?
             && FindCategoryByName(old(db.categories), categoryName).None?) ==> r == ExpenseCategoryNotFound
    ensures (amount.Some? && FindMemberByName(old(db.members), payerName).Some?
             && FindCategoryByName(old(db.categories), categoryName).Some?
             && ActiveMembers(old(db.members)) == []) ==> r == ExpenseNoActiveMembers
    ensures (amount.Some? && FindMemberByName(old(db.members), payerName).Some?
             && FindCategoryByName(old(db.categories), categoryName).Some?
             && ActiveMembers(old(db.members)) != []) ==> r.ExpenseRecorded?
    ensures !r.ExpenseRecorded? ==> unchanged(db)
    ensures r.ExpenseRecorded? ==>
      && amount.Some? && FindMemberByName(old(db.members), payerName).Some?
      && FindCategoryByName(old(db.categories), categoryName).Some? && ActiveMembers(old(db.members)) != []
      && r.remainder == amount.value % |ActiveMembers(old(db.members))|
    ensures r.ExpenseRecorded? && r.remainder == 0 ==> r.remainderPayer.None? && db.members == old(db.members)
    ensures r.ExpenseRecorded? && r.remainder != 0 ==>
      && r.remainderPayer == Some(RemainderAssignee(old(db.members)))
      && db.members == FlagsAfterRemainder(old(db.members))
    ensures r.ExpenseRecorded? ==>
      && db.categories == old(db.categories)
      && db.periods == PeriodsAfterNewRow(old(db.periods), old(db.clock))
      && db.clock > old(db.clock)
    ensures r.ExpenseRecorded? ==>
      && r.txId == |old(db.transactions)| + 1
      && db.transactions == old(db.transactions) + [Transaction(r.txId, Expense, amount.value, description,
           Some(FindMemberByName(old(db.members), payerName).value.id),
           Some(FindCategoryByName(old(db.categories), categoryName).value.id),
           PeriodOfNewRow(old(db.periods), old(db.clock)).id, db.clock - 1)]
  {
    if amount.None? {
      return ExpenseBadAmount;
    }
    var amountCents := amount.value;
    var payer := FindMemberByName(db.members, payerName);
    if payer.None? {
      return ExpensePayerNotFound;
    }
    var category := FindCategoryByName(db.categories, categoryName);
    if category.None? {
      return ExpenseCategoryNotFound;
    }
    var active := ActiveMembers(db.members);
    if active == [] {
      return ExpenseNoActiveMembers;
    }
    var remainder, remainderPayer := SplitRemainder(db, amountCents);
    assert db.transactions == old(db.transactions) && db.periods == old(db.periods) && db.clock == old(db.clock);
    var id := db.AddTransaction(Expense, amountCents, description, Some(payer.value.id), Some(category.value.id), None);
    r := ExpenseRecorded(id, remainder, remainderPayer);
    assert Some(payer.value.id) == Some(FindMemberByName(old(db.members), payerName).value.id);
    assert Some(category.value.id) == Some(FindCategoryByName(old(db.categories), categoryName).value.id);
    assert db.transactions == old(db.transactions) + [Transaction(r.txId, Expense, amount.value, description,
      Some(FindMemberByName(old(db.members), payerName).value.id),
      Some(FindCategoryByName(old(db.categories), categoryName).value.id),
      PeriodOfNewRow(old(db.periods), old(db.clock)).id, db.clock - 1)];
  }

  /**
   * The remainder of an expense split over the active members (logic.py:75-100):
   * `amount mod n`, and when it is not zero the member who takes it.
   */
  method SplitRemainder(db: Database, amountCents: int) returns (remainder: int, taker: Option<Member>)
    requires db.Valid() && ActiveMembers(db.members) != []
    modifies db
    ensures db.Valid()
    ensures remainder == amountCents % |ActiveMembers(old(db.members))|
    ensures remainder == 0 ==> taker.None? && unchanged(db)
    ensures remainder != 0 ==>
      && taker == Some(RemainderAssignee(old(db.members)))
      && db.members == FlagsAfterRemainder(old(db.members))
      && db.categories == old(db.categories) && db.periods == old(db.periods)
      && db.transactions == old(db.transactions) && db.clock == old(db.clock)
  {
    var n := |ActiveMembers(db.members)|;
    remainder := amountCents % n;
    taker := None;
    if remainder > 0 {
      taker := AssignRemainder(db);
    }
  }

  /**
   * The remainder step of `record_expense` (logic.py:81-100): find whether
   * every active member has paid, reset the cycle if so, then give the
   * remainder to the first active member with a clear flag.
   */
  method AssignRemainder(db: Database) returns (taker: Option<Member>)
    requires db.Valid() && ActiveMembers(db.members) != []
    modifies db
    ensures db.Valid()
    ensures taker == Some(RemainderAssignee(old(db.members)))
    ensures db.members == FlagsAfterRemainder(old(db.members))
    ensures db.categories == old(db.categories) && db.periods == old(db.periods)
    ensures db.transactions == old(db.transactions) && db.clock == old(db.clock)
  {
    var active := ActiveMembers(db.members);
    // the first loop: stops at the first member with a clear flag
    var i := 0;
    while i < |active| && active[i].paidRemainderInCycle
      invariant 0 <= i <= |active|
      invariant forall j :: 0 <= j < i ==> active[j].paidRemainderInCycle
    {
      i := i + 1;
    }
    var allPaid := i == |active|;
    if allPaid {
      db.ResetAllMemberRemainderStatus();
      active := ActiveMembers(db.members);
    }
    assert db.members == ClearedIfAllPaid(old(db.members));
    ClearedHasUnpaid(old(db.members));
    // the second loop: the first member with a clear flag takes the remainder
    var k := 0;
    while k < |active| && active[k].paidRemainderInCycle
      invariant 0 <= k <= |active|
      invariant forall j :: 0 <= j < k ==> active[j].paidRemainderInCycle
    {
      k := k + 1;
    }
    assert k == FirstUnpaid(active);
    taker := Some(active[k]);
    db.UpdateMemberRemainderStatus(active[k].id, true);
  }

  /**
   * The spreading of an expense in the aggregators ignores the rotation: the
   * remainder step leaves the active ids, and so every later balance, as they were.
   */
  lemma RemainderStepKeepsSpread(ms: seq<Member>)
    requires MemberIds(ms) && ActiveMembers(ms) != []
    ensures IdsOf(ActiveMembers(FlagsAfterRemainder(ms))) == IdsOf(ActiveMembers(ms))
  {
    RemainderKeepsMembers(ms);
  }

  /** An expense appended to a period adds its amount to that period's expense total and leaves the deposits alone. */
  lemma RecordedExpenseTotals(txs: seq<Transaction>, t: Transaction)
    requires t.kind == Expense
    ensures PeriodTotals(TxsInPeriod(txs + [t], t.periodId)).expenses == PeriodTotals(TxsInPeriod(txs, t.periodId)).expenses + t.amount
    ensures PeriodTotals(TxsInPeriod(txs + [t], t.periodId)).deposits == PeriodTotals(TxsInPeriod(txs, t.periodId)).deposits
    ensures PeriodTotals(TxsInPeriod(txs + [t], t.periodId)).count == PeriodTotals(TxsInPeriod(txs, t.periodId)).count + 1
  {
    TxsInPeriodAppend(txs, t, t.periodId);
    TotalsAppend(TxsInPeriod(txs, t.periodId), t);
  }

  // ---------------------------------------------------------------------------
  // record_deposit and record_refund (logic.py:125-201)
  // ---------------------------------------------------------------------------

  /** The row both `record_deposit` and `record_refund` write: a deposit by the member, in the current period. */
  method AddMemberDeposit(db: Database, amount: int, description: Option<string>, memberId: nat) returns (id: nat)
    requires db.Valid()
    modifies db
    ensures db.Valid()
    ensures db.members == old(db.members) && db.categories == old(db.categories)
    ensures db.periods == PeriodsAfterNewRow(old(db.periods), old(db.clock))
    ensures db.clock > old(db.clock)
    ensures id == |old(db.transactions)| + 1
    ensures db.transactions == old(db.transactions) + [Transaction(id, Deposit, amount, description, Some(memberId), None,
      PeriodOfNewRow(old(db.periods), old(db.clock)).id, db.clock - 1)]
  {
    id := db.AddTransaction(Deposit, amount, description, Some(memberId), None, None);
  }

  datatype DepositOutcome = DepositBadAmount | DepositPayerNotFound | DepositRecorded(txId: nat, description: Option<string>)

  /** `record_deposit`: one deposit row from the named member, or an error that writes nothing. */
  method RecordDeposit(db: Database, description: Option<string>, amount: Option<int>, payerName: string)
    returns (r: DepositOutcome)
    requires db.Valid()
    modifies db
    ensures db.Valid()
    ensures amount.None? ==> r == DepositBadAmount
    ensures amount.Some? && FindMemberByName(old(db.members), payerName).None? ==> r == DepositPayerNotFound
    ensures amount.Some? && FindMemberByName(old(db.members), payerName).Some? ==> r.DepositRecorded?
    ensures !r.DepositRecorded? ==> unchanged(db)
    ensures r.DepositRecorded? ==> amount.Some? && FindMemberByName(old(db.members), payerName).Some?
    ensures r.DepositRecorded? ==>
      && db.members == old(db.members) && db.categories == old(db.categories)
      && db.periods == PeriodsAfterNewRow(old(db.periods), old(db.clock))
    ensures r.DepositRecorded? ==> r.description == description
    ensures r.DepositRecorded? ==>
      && db.clock > old(db.clock)
      && r.txId == |old(db.transactions)| + 1
      && db.transactions == old(db.transactions) + [Transaction(r.txId, Deposit, amount.value, description,
           Some(FindMemberByName(old(db.members), payerName).value.id), None,
           PeriodOfNewRow(old(db.periods), old(db.clock)).id, db.clock - 1)]
  {
    if amount.None? {
      return DepositBadAmount;
    }
    var payer := FindMemberByName(db.members, payerName);
    if payer.None? {
      return DepositPayerNotFound;
    }
    var id := AddMemberDeposit(db, amount.value, description, payer.value.id);
    r := DepositRecorded(id, description);
  }

  /** Python truthiness of an optional string. */
  predicate Truthy(s: Option<string>)
  {
    s.Some? && s.value != ""
  }

  /**
   * The description stored with a refund (logic.py:184-186): an empty one
   * becomes "Refund to <name>", one already starting with "Refund" is kept,
   * any other gets the prefix "Refund: ".
   */
  function RefundDescription(description: Option<string>, recipientName: string): (d: string)
    ensures StartsWith(d, "Refund")
    ensures !Truthy(description) ==> d == "Refund to " + recipientName
    ensures Truthy(description) && StartsWith(description.value, "Refund") ==> d == description.value
    ensures Truthy(description) && !StartsWith(description.value, "Refund") ==> d == "Refund: " + description.value
  {
    var refundDesc := if Truthy(description) then description.value else "Refund to " + recipientName;
    if !Truthy(description) || !StartsWith(description.value, "Refund") then
      (if Truthy(description) then "Refund: " + refundDesc else "Refund to " + recipientName)
    else refundDesc
  }

  /** Storing a refund description is idempotent: a stored description is stored again unchanged. */
  lemma RefundDescriptionIdempotent(description: Option<string>, recipientName: string)
    ensures RefundDescription(Some(RefundDescription(description, recipientName)), recipientName)
            == RefundDescription(description, recipientName)
  {
    var d := RefundDescription(description, recipientName);
    assert d != "";
  }

  /** `record_refund`: a deposit row of the negated amount for the named member (active or not). */
  method RecordRefund(db: Database, description: Option<string>, amount: Option<int>, recipientName: string)
    returns (r: DepositOutcome)
    requires db.Valid()
    modifies db
    ensures db.Valid()
    ensures amount.None? ==> r == DepositBadAmount
    ensures amount.Some? && FindMemberByName(old(db.members), recipientName).None? ==> r == DepositPayerNotFound
    ensures amount.Some? && FindMemberByName(old(db.members), recipientName).Some? ==> r.DepositRecorded?
    ensures !r.DepositRecorded? ==> unchanged(db)
    ensures r.DepositRecorded? ==> amount.Some? && FindMemberByName(old(db.members), recipientName).Some?
    ensures r.DepositRecorded? ==>
      && db.members == old(db.members) && db.categories == old(db.categories)
      && db.periods == PeriodsAfterNewRow(old(db.periods), old(db.clock))
    ensures r.DepositRecorded? ==> r.description == Some(RefundDescription(description, recipientName))
    ensures r.DepositRecorded? ==>
      && db.clock > old(db.clock)
      && r.txId == |old(db.transactions)| + 1
      && db.transactions == old(db.transactions) + [Transaction(r.txId, Deposit, -amount.value,
           Some(RefundDescription(description, recipientName)),
           Some(FindMemberByName(old(db.members), recipientName).value.id), None,
           PeriodOfNewRow(old(db.periods), old(db.clock)).id, db.clock - 1)]
  {
    if amount.None? {
      return DepositBadAmount;
    }
    var recipient := FindMemberByName(db.members, recipientName);
    if recipient.None? {
      return DepositPayerNotFound;
    }
    var refundDesc := RefundDescription(description, recipientName);
    var id := AddMemberDeposit(db, -amount.value, Some(refundDesc), recipient.value.id);
    r := DepositRecorded(id, Some(refundDesc));
  }

  /** A refund to an active member lowers exactly that member's active balance by the refunded amount. */
  lemma RefundLowersBalance(bal: map<nat, int>, ids: seq<nat>, t: Transaction, amount: int, recipient: nat)
    requires Covers(bal, ids)
    requires t.kind == Deposit && t.amount == -amount && t.payerId == Some(recipient) && recipient != 0
    requires recipient in bal
    ensures ActiveStep(bal, t, ids) == bal[recipient := bal[recipient] - amount]
  {
  }

  // ---------------------------------------------------------------------------
  // Members (logic.py:22-40, 252-281)
  // ---------------------------------------------------------------------------

  datatype MemberOutcome =
    | MemberAlreadyActive
    | MemberInactive
    | MemberNotFound
    | MemberAdded(id: nat)
    | MemberRemoved
    | MemberRejoined

  /**
   * `add_new_member`: a name already in the table (active or not) is refused;
   * otherwise a new active member with a clear flag is appended.
   */
  method AddNewMember(db: Database, name: string) returns (r: MemberOutcome)
    requires db.Valid()
    modifies db
    ensures db.Valid()
    ensures FindMemberByName(old(db.members), name).Some? ==>
      unchanged(db) && r == (if FindMemberByName(old(db.members), name).value.isActive then MemberAlreadyActive else MemberInactive)
    ensures FindMemberByName(old(db.members), name).None? ==>
      && r == MemberAdded(|old(db.members)| + 1)
      && db.members == old(db.members) + [Member(|old(db.members)| + 1, name, true, false)]
      && db.categories == old(db.categories) && db.periods == old(db.periods)
      && db.transactions == old(db.transactions) && db.clock == old(db.clock)
  {
    var existing := FindMemberByName(db.members, name);
    if existing.Some? {
      if existing.value.isActive {
        return MemberAlreadyActive;
      } else {
        return MemberInactive;
      }
    }
    var id := db.AddMember(name);
    r := MemberAdded(id.value);
  }

  /** `remove_member`: deactivates a known active member; other cases write nothing. */
  method RemoveMember(db: Database, name: string) returns (r: MemberOutcome)
    requires db.Valid()
    modifies db
    ensures db.Valid()
    ensures FindMemberByName(old(db.members), name).None? ==> r == MemberNotFound && unchanged(db)
    ensures FindMemberByName(old(db.members), name).Some? && !FindMemberByName(old(db.members), name).value.isActive
      ==> r == MemberInactive && unchanged(db)
    ensures FindMemberByName(old(db.members), name).Some? && FindMemberByName(old(db.members), name).value.isActive
      ==> && r == MemberRemoved
          && db.members == SetActive(old(db.members), FindMemberByName(old(db.members), name).value.id, false)
          && db.categories == old(db.categories) && db.periods == old(db.periods)
          && db.transactions == old(db.transactions) && db.clock == old(db.clock)
  {
    var member := FindMemberByName(db.members, name);
    if member.None? {
      return MemberNotFound;
    }
    if !member.value.isActive {
      return MemberInactive;
    }
    var _ := db.DeactivateMember(member.value.id);
    r := MemberRemoved;
  }

  /** `rejoin_member`: reactivates a known inactive member; other cases write nothing. */
  method RejoinMember(db: Database, name: string) returns (r: MemberOutcome)
    requires db.Valid()
    modifies db
    ensures db.Valid()
    ensures FindMemberByName(old(db.members), name).None? ==> r == MemberNotFound && unchanged(db)
    ensures FindMemberByName(old(db.members), name).Some? && FindMemberByName(old(db.members), name).value.isActive
      ==> r == MemberAlreadyActive && unchanged(db)
    ensures FindMemberByName(old(db.members), name).Some? && !FindMemberByName(old(db.members), name).value.isActive
      ==> && r == MemberRejoined
          && db.members == SetActive(old(db.members), FindMemberByName(old(db.members), name).value.id, true)
          && db.categories == old(db.categories) && db.periods == old(db.periods)
          && db.transactions == old(db.transactions) && db.clock == old(db.clock)
  {
    var member := FindMemberByName(db.members, name);
    if member.None? {
      return MemberNotFound;
    }
    if member.value.isActive {
      return MemberAlreadyActive;
    }
    var _ := db.ReactivateMember(member.value.id);
    r := MemberRejoined;
  }

  /**
   * Removing a member takes exactly that member out of the active list and
   * keeps the others in order; rejoining puts them back.
   */
  lemma {:induction false} RemoveThenRejoin(ms: seq<Member>, id: nat)
    ensures forall m :: m in ActiveMembers(SetActive(ms, id, false)) <==> m in ActiveMembers(ms) && m.id != id
    ensures SetActive(SetActive(ms, id, false), id, true) == SetActive(ms, id, true)
  {
    ActiveMembersAre(ms);
    ActiveMembersAre(SetActive(ms, id, false));
    forall m | m in ActiveMembers(ms) && m.id != id
      ensures m in SetActive(ms, id, false)
    {
      var i :| 0 <= i < |ms| && ms[i] == m;
      assert SetActive(ms, id, false)[i] == m;
    }
    forall m | m in SetActive(ms, id, false) && m.isActive
      ensures m in ms && m.id != id
    {
      var i :| 0 <= i < |SetActive(ms, id, false)| && SetActive(ms, id, false)[i] == m;
    }
  }

  // ---------------------------------------------------------------------------
  // settle_current_period (logic.py:430-462)
  // ---------------------------------------------------------------------------

  datatype SettleOutcome =
    | NoOpenPeriod
    | SettleKeyError
      /** The period closed, the one opened, and the closed period's totals. */
    | PeriodSettled(closedPeriod: Period, openedPeriod: Period, totals: Totals)

  /**
   * `settle_current_period`: the open period is summarised, marked settled with
   * an end stamp, a new open period is created under the given name (or
   * `defaultName`, standing for the month-and-year of the clock), and every
   * active member's rotation flag is cleared.  With no open period, or when the
   * summary raises KeyError, nothing is written.
   */
  method SettleCurrentPeriod(db: Database, periodName: Option<string>, defaultName: string)
    returns (r: SettleOutcome)
    requires db.Valid()
    modifies db
    ensures db.Valid()
    ensures CurrentPeriodOf(old(db.periods)).None? ==> r == NoOpenPeriod && unchanged(db)
    ensures r.SettleKeyError? ==>
      && CurrentPeriodOf(old(db.periods)).Some?
      && LedgerReport(old(db.members), TxsInPeriod(old(db.transactions), CurrentPeriodOf(old(db.periods)).value.id)).KeyError?
      && unchanged(db)
    ensures (CurrentPeriodOf(old(db.periods)).Some?
             && LedgerReport(old(db.members), TxsInPeriod(old(db.transactions), CurrentPeriodOf(old(db.periods)).value.id)).KeyError?) ==>
      r == SettleKeyError && unchanged(db)
    ensures CurrentPeriodOf(old(db.periods)).Some? && !r.SettleKeyError? ==>
      r.PeriodSettled? && r.closedPeriod == CurrentPeriodOf(old(db.periods)).value.(isSettled := true, endDate := Some(old(db.clock)))
    ensures CurrentPeriodOf(old(db.periods)).Some? && !r.SettleKeyError? ==>
      r.PeriodSettled? && r.openedPeriod == Period(|old(db.periods)| + 1, if periodName.Some? then periodName.value else defaultName, old(db.clock) + 1, None, false)
    ensures CurrentPeriodOf(old(db.periods)).Some? && !r.SettleKeyError? ==>
      r.PeriodSettled? && r.totals == PeriodTotals(TxsInPeriod(old(db.transactions), CurrentPeriodOf(old(db.periods)).value.id))
    ensures CurrentPeriodOf(old(db.periods)).Some? && !r.SettleKeyError? ==>
      r.PeriodSettled? && db.periods == MarkSettled(old(db.periods), CurrentPeriodOf(old(db.periods)).value.id, old(db.clock)) + [r.openedPeriod]
    ensures CurrentPeriodOf(old(db.periods)).Some? && !r.SettleKeyError? ==>
      r.PeriodSettled? && CurrentPeriodOf(db.periods) == Some(r.openedPeriod)
    ensures CurrentPeriodOf(old(db.periods)).Some? && !r.SettleKeyError? ==>
      r.PeriodSettled? && r.openedPeriod.id != r.closedPeriod.id
    ensures CurrentPeriodOf(old(db.periods)).Some? && !r.SettleKeyError? ==>
      && db.members == ClearActiveFlags(old(db.members))
      && db.categories == old(db.categories) && db.transactions == old(db.transactions)
      && db.clock == old(db.clock) + 2
  {
    var current := CurrentPeriodOf(db.periods);
    if current.None? {
      return NoOpenPeriod;
    }
    var periodId := current.value.id;
    var summary := GetPeriodSummary(db, Some(periodId));
    assert FindPeriodById(db.periods, periodId).Some?;
    if summary.SummaryKeyError? {
      return SettleKeyError;
    }
    assert summary.totals == PeriodTotals(TxsInPeriod(db.transactions, periodId));
    ghost var row :| 0 <= row < |db.periods| && db.periods[row] == current.value;
    assert periodId == row + 1 <= |db.periods|;
    var name := if periodName.Some? then periodName.value else defaultName;
    var stamp := db.clock;
    var newPeriod := CloseAndOpen(db, periodId, name);
    r := PeriodSettled(current.value.(isSettled := true, endDate := Some(stamp)), newPeriod, summary.totals);
  }

  /** The writes of `settle_current_period` (logic.py:443-455), in the source's order. */
  method CloseAndOpen(db: Database, periodId: nat, name: string) returns (newPeriod: Period)
    requires db.Valid()
    modifies db
    ensures db.Valid()
    ensures newPeriod == Period(|old(db.periods)| + 1, name, old(db.clock) + 1, None, false)
    ensures db.periods == MarkSettled(old(db.periods), periodId, old(db.clock)) + [newPeriod]
    ensures CurrentPeriodOf(db.periods) == Some(newPeriod)
    ensures db.members == ClearActiveFlags(old(db.members))
    ensures db.categories == old(db.categories) && db.transactions == old(db.transactions)
    ensures db.clock == old(db.clock) + 2
  {
    var stamp := db.clock;
    var _ := db.SettlePeriod(periodId);
    var newId := db.CreateNewPeriod(name);
    newPeriod := Period(newId, name, stamp + 1, None, false);
    db.ResetAllMemberRemainderStatus();
  }
}
