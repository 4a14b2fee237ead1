/**
 * The relational store of src/divvy/database.py.  The four SQLite tables
 * (members, categories, periods, transactions) become sequences of records in
 * one `Database` object; each store function becomes a method that reassigns
 * those sequences, or a function over them when it only reads.  Rows are never
 * deleted, so a row's id is its position plus one; `CURRENT_TIMESTAMP` is a
 * monotonic counter `clock`.
 */
module Store {
  import opened Common

  /** The member row that stands for the shared fund (database.py:10). */
  const VirtualMemberName: string := "_system_group_"
  /** The prefix that marks system members (database.py:11). */
  const SystemMemberPrefix: string := "_system_"
  /** Name of the period created when none is open (database.py:223). */
  const InitialPeriodName: string := "Initial Period"

  datatype Member = Member(id: nat, name: string, isActive: bool, paidRemainderInCycle: bool)

  datatype Category = Category(id: nat, name: string)

  datatype Period = Period(id: nat, name: string, startDate: nat, endDate: Option<nat>, isSettled: bool)

  /** `transaction_type` is free text in the table; the logic looks only for these two values. */
  datatype TxKind = Deposit | Expense | OtherKind(tag: string)

  datatype Transaction = Transaction(
    id: nat,
    kind: TxKind,
    amount: int,
    description: Option<string>,
    payerId: Option<nat>,
    categoryId: Option<nat>,
    periodId: nat,
    timestamp: nat)

  // ---------------------------------------------------------------------------
  // Shapes of the tables
  // ---------------------------------------------------------------------------

  ghost predicate MemberIds(ms: seq<Member>)
  {
    forall i :: 0 <= i < |ms| ==> ms[i].id == i + 1
  }

  ghost predicate IdsIncreasing(ms: seq<Member>)
  {
    forall i, j :: 0 <= i < j < |ms| ==> ms[i].id < ms[j].id
  }

  /** The UNIQUE constraint on `members.name`. */
  ghost predicate UniqueNames(ms: seq<Member>)
  {
    forall i, j :: 0 <= i < j < |ms| ==> ms[i].name != ms[j].name
  }

  ghost predicate PeriodTable(ps: seq<Period>, clock: nat)
  {
    && (forall i :: 0 <= i < |ps| ==> ps[i].id == i + 1 && ps[i].startDate < clock)
    && (forall i, j :: 0 <= i < j < |ps| ==> ps[i].startDate < ps[j].startDate)
  }

  ghost predicate StartsIncreasing(ps: seq<Period>)
  {
    forall i, j :: 0 <= i < j < |ps| ==> ps[i].startDate < ps[j].startDate
  }

  // ---------------------------------------------------------------------------
  // Member queries (database.py:66-105)
  // ---------------------------------------------------------------------------

  /** `get_active_members`: active rows other than the fund row, in id order. */
  function ActiveMembers(ms: seq<Member>): (r: seq<Member>)
    ensures |r| <= |ms|
  {
    if ms == [] then []
    else if ms[0].isActive && ms[0].name != VirtualMemberName then [ms[0]] + ActiveMembers(ms[1..])
    else ActiveMembers(ms[1..])
  }

  /** `get_all_members`: every row other than the fund row, in id order. */
  function AllMembers(ms: seq<Member>): (r: seq<Member>)
    ensures |r| <= |ms|
  {
    if ms == [] then []
    else if ms[0].name != VirtualMemberName then [ms[0]] + AllMembers(ms[1..])
    else AllMembers(ms[1..])
  }

  /** The active list holds exactly the active rows other than the fund row. */
  lemma {:induction false} ActiveMembersAre(ms: seq<Member>)
    ensures forall m :: m in ActiveMembers(ms) <==> m in ms && m.isActive && m.name != VirtualMemberName
  {
    if ms != [] {
      ActiveMembersAre(ms[1..]);
      assert ms == [ms[0]] + ms[1..];
    }
  }

  /** The active list keeps the table's id order. */
  lemma {:induction false} ActiveMembersOrdered(ms: seq<Member>)
    requires IdsIncreasing(ms)
    ensures IdsIncreasing(ActiveMembers(ms))
  {
    if ms != [] {
      ActiveMembersOrdered(ms[1..]);
      ActiveMembersAre(ms[1..]);
      var rest := ActiveMembers(ms[1..]);
      forall j | 0 <= j < |rest|
        ensures ms[0].id < rest[j].id
      {
        assert rest[j] in ms[1..];
      }
    }
  }

  /** The member list holds exactly the rows other than the fund row. */
  lemma {:induction false} AllMembersAre(ms: seq<Member>)
    ensures forall m :: m in AllMembers(ms) <==> m in ms && m.name != VirtualMemberName
  {
    if ms != [] {
      AllMembersAre(ms[1..]);
      assert ms == [ms[0]] + ms[1..];
    }
  }

  /** The member list keeps the table's id order. */
  lemma {:induction false} AllMembersOrdered(ms: seq<Member>)
    requires IdsIncreasing(ms)
    ensures IdsIncreasing(AllMembers(ms))
  {
    if ms != [] {
      AllMembersOrdered(ms[1..]);
      AllMembersAre(ms[1..]);
      var rest := AllMembers(ms[1..]);
      forall j | 0 <= j < |rest|
        ensures ms[0].id < rest[j].id
      {
        assert rest[j] in ms[1..];
      }
    }
  }

  /** `get_member_by_name`. */
  function FindMemberByName(ms: seq<Member>, name: string): (r: Option<Member>)
    ensures r.None? <==> forall m :: m in ms ==> m.name != name
    ensures r.Some? ==> r.value in ms && r.value.name == name
  {
    if ms == [] then None
    else if ms[0].name == name then Some(ms[0])
    else FindMemberByName(ms[1..], name)
  }

  /** `get_member_by_id`. */
  function FindMemberById(ms: seq<Member>, id: nat): (r: Option<Member>)
    ensures r.None? <==> forall m :: m in ms ==> m.id != id
    ensures r.Some? ==> r.value in ms && r.value.id == id
  {
    if ms == [] then None
    else if ms[0].id == id then Some(ms[0])
    else FindMemberById(ms[1..], id)
  }

  /** `get_category_by_name`. */
  function FindCategoryByName(cs: seq<Category>, name: string): (r: Option<Category>)
    ensures r.None? <==> forall c :: c in cs ==> c.name != name
    ensures r.Some? ==> r.value in cs && r.value.name == name
  {
    if cs == [] then None
    else if cs[0].name == name then Some(cs[0])
    else FindCategoryByName(cs[1..], name)
  }

  /** `get_period_by_id`. */
  function FindPeriodById(ps: seq<Period>, id: nat): (r: Option<Period>)
    ensures r.None? <==> forall p :: p in ps ==> p.id != id
    ensures r.Some? ==> r.value in ps && r.value.id == id
  {
    if ps == [] then None
    else if ps[0].id == id then Some(ps[0])
    else FindPeriodById(ps[1..], id)
  }

  /** `is_virtual_member`: a present member whose name carries the system prefix. */
  function IsVirtualMember(m: Option<Member>): (r: bool)
    ensures r <==> m.Some? && |m.value.name| >= 8 && m.value.name[..8] == "_system_"
    ensures m.Some? && m.value.name == VirtualMemberName ==> r
  {
    m.Some? && StartsWith(m.value.name, SystemMemberPrefix)
  }

  // ---------------------------------------------------------------------------
  // Member updates (database.py:108-141)
  // ---------------------------------------------------------------------------

  /** `UPDATE members SET paid_remainder_in_cycle = s WHERE id = id`. */
  function SetRemainderFlag(ms: seq<Member>, id: nat, s: bool): (r: seq<Member>)
    ensures |r| == |ms|
    ensures forall i :: 0 <= i < |ms| ==> r[i] == if ms[i].id == id then ms[i].(paidRemainderInCycle := s) else ms[i]
  {
    if ms == [] then []
    else [if ms[0].id == id then ms[0].(paidRemainderInCycle := s) else ms[0]] + SetRemainderFlag(ms[1..], id, s)
  }

  /** Setting a flag keeps the ids and the names of the member table. */
  lemma RemainderFlagKeepsTable(ms: seq<Member>, id: nat, s: bool)
    requires MemberIds(ms) && UniqueNames(ms)
    ensures MemberIds(SetRemainderFlag(ms, id, s)) && UniqueNames(SetRemainderFlag(ms, id, s))
  {
    var r := SetRemainderFlag(ms, id, s);
    forall i | 0 <= i < |ms| ensures r[i].id == ms[i].id && r[i].name == ms[i].name {
    }
  }

  /** `UPDATE members SET paid_remainder_in_cycle = 0 WHERE is_active = 1`. */
  function ClearActiveFlags(ms: seq<Member>): (r: seq<Member>)
    ensures |r| == |ms|
    ensures forall i :: 0 <= i < |ms| ==> r[i] == if ms[i].isActive then ms[i].(paidRemainderInCycle := false) else ms[i]
  {
    if ms == [] then []
    else [if ms[0].isActive then ms[0].(paidRemainderInCycle := false) else ms[0]] + ClearActiveFlags(ms[1..])
  }

  /** `UPDATE members SET is_active = a WHERE id = id`. */
  function SetActive(ms: seq<Member>, id: nat, a: bool): (r: seq<Member>)
    ensures |r| == |ms|
    ensures forall i :: 0 <= i < |ms| ==> r[i] == if ms[i].id == id then ms[i].(isActive := a) else ms[i]
  {
    if ms == [] then []
    else [if ms[0].id == id then ms[0].(isActive := a) else ms[0]] + SetActive(ms[1..], id, a)
  }

  // ---------------------------------------------------------------------------
  // Period and transaction queries (database.py:147-209)
  // ---------------------------------------------------------------------------

  /**
   * `get_current_period`: the unsettled period with the latest start.  Start
   * stamps increase with the row, so that is the last unsettled row.
   */
  function CurrentPeriodOf(ps: seq<Period>): (r: Option<Period>)
    ensures r.None? <==> forall p :: p in ps ==> p.isSettled
    ensures r.Some? ==> r.value in ps && !r.value.isSettled
    ensures r.Some? && StartsIncreasing(ps) ==>
      forall p :: p in ps && !p.isSettled ==> p.startDate <= r.value.startDate
  {
    if ps == [] then None
    else if !ps[|ps| - 1].isSettled then Some(ps[|ps| - 1])
    else
      var r := CurrentPeriodOf(ps[..|ps| - 1]);
      assert forall p :: p in ps ==> p in ps[..|ps| - 1] || p == ps[|ps| - 1];
      r
  }

  /** The period a row written now without a period id lands in. */
  function PeriodOfNewRow(ps: seq<Period>, clock: nat): Period
  {
    if CurrentPeriodOf(ps).Some? then CurrentPeriodOf(ps).value
    else Period(|ps| + 1, InitialPeriodName, clock, None, false)
  }

  /** The period table after a row is written without a period id. */
  function PeriodsAfterNewRow(ps: seq<Period>, clock: nat): seq<Period>
  {
    if CurrentPeriodOf(ps).Some? then ps else ps + [PeriodOfNewRow(ps, clock)]
  }

  /** The period table after `settle_period`: the row with that id is settled and stamped, the rest kept. */
  function MarkSettled(ps: seq<Period>, id: nat, stamp: nat): (r: seq<Period>)
    ensures |r| == |ps|
    ensures forall i :: 0 <= i < |ps| ==>
      r[i] == if ps[i].id == id then ps[i].(isSettled := true, endDate := Some(stamp)) else ps[i]
  {
    seq(|ps|, i requires 0 <= i < |ps| =>
      if ps[i].id == id then ps[i].(isSettled := true, endDate := Some(stamp)) else ps[i])
  }

  /** `get_transactions_by_period`: the period's rows in insertion order. */
  function TxsInPeriod(txs: seq<Transaction>, periodId: nat): (r: seq<Transaction>)
    ensures forall t :: t in r <==> t in txs && t.periodId == periodId
    ensures |r| <= |txs|
  {
    if txs == [] then []
    else
      var rest := TxsInPeriod(txs[1..], periodId);
      if txs[0].periodId == periodId then [txs[0]] + rest else rest
  }

  /** A row appended to the table joins its own period's list, at the end, and no other. */
  lemma {:induction false} TxsInPeriodAppend(txs: seq<Transaction>, t: Transaction, periodId: nat)
    ensures TxsInPeriod(txs + [t], periodId) == TxsInPeriod(txs, periodId) + (if t.periodId == periodId then [t] else [])
  {
    if txs != [] {
      TxsInPeriodAppend(txs[1..], t, periodId);
      assert (txs + [t])[1..] == txs[1..] + [t];
    }
  }

  // ---------------------------------------------------------------------------
  // The store
  // ---------------------------------------------------------------------------

  class Database {
    var members: seq<Member>
    var categories: seq<Category>
    var periods: seq<Period>
    var transactions: seq<Transaction>
    /** Stands for CURRENT_TIMESTAMP: every stamp written is taken from it and it then moves on. */
    var clock: nat

    ghost predicate Valid()
      reads this
    {
      && MemberIds(members)
      && UniqueNames(members)
      && (forall i :: 0 <= i < |categories| ==> categories[i].id == i + 1)
      && PeriodTable(periods, clock)
      && (forall i :: 0 <= i < |transactions| ==> transactions[i].id == i + 1)
    }

    /** A freshly created schema; the category table comes seeded. */
    constructor (categoryNames: seq<string>)
      ensures Valid()
      ensures members == [] && periods == [] && transactions == [] && clock == 0
      ensures |categories| == |categoryNames|
      ensures forall i :: 0 <= i < |categoryNames| ==> categories[i] == Category(i + 1, categoryNames[i])
    {
      members := [];
      periods := [];
      transactions := [];
      clock := 0;
      categories := seq(|categoryNames|, i requires 0 <= i < |categoryNames| => Category(i + 1, categoryNames[i]));
    }

    /**
     * The two calls `initialize_database` makes on every start, on an existing
     * schema as on a fresh one: open "Initial Period" when no period is open,
     * then add the fund row when it is missing.
     */
    method InitializeDatabase()
      requires Valid()
      modifies this
      ensures Valid()
      ensures CurrentPeriodOf(periods).Some?
      ensures FindMemberByName(members, VirtualMemberName).Some?
      ensures CurrentPeriodOf(old(periods)).Some? ==> periods == old(periods) && clock == old(clock)
      ensures CurrentPeriodOf(old(periods)).None? ==>
        && periods == old(periods) + [Period(|old(periods)| + 1, InitialPeriodName, old(clock), None, false)]
        && clock == old(clock) + 1
      ensures FindMemberByName(old(members), VirtualMemberName).Some? ==> members == old(members)
      ensures FindMemberByName(old(members), VirtualMemberName).None? ==>
        members == old(members) + [Member(|old(members)| + 1, VirtualMemberName, false, false)]
      ensures categories == old(categories) && transactions == old(transactions)
    {
      InitializeFirstPeriodIfNeeded();
      EnsureVirtualMemberExists();
    }

    /** `add_member`: a new active row with a clear flag, or None when the name is taken. */
    method AddMember(name: string) returns (id: Option<nat>)
      requires Valid()
      modifies this
      ensures Valid()
      ensures categories == old(categories) && periods == old(periods)
      ensures transactions == old(transactions) && clock == old(clock)
      ensures FindMemberByName(old(members), name).Some? ==> id.None? && members == old(members)
      ensures FindMemberByName(old(members), name).None? ==>
        && id == Some(|old(members)| + 1)
        && members == old(members) + [Member(|old(members)| + 1, name, true, false)]
    {
      if FindMemberByName(members, name).Some? {
        return None;
      }
      members := members + [Member(|members| + 1, name, true, false)];
      id := Some(|members|);
    }

    /** `ensure_virtual_member_exists`: an inactive fund row is added once. */
    method EnsureVirtualMemberExists()
      requires Valid()
      modifies this
      ensures Valid()
      ensures categories == old(categories) && periods == old(periods)
      ensures transactions == old(transactions) && clock == old(clock)
      ensures FindMemberByName(old(members), VirtualMemberName).Some? ==> members == old(members)
      ensures FindMemberByName(old(members), VirtualMemberName).None? ==>
        members == old(members) + [Member(|old(members)| + 1, VirtualMemberName, false, false)]
      ensures FindMemberByName(members, VirtualMemberName).Some?
    {
      if FindMemberByName(members, VirtualMemberName).None? {
        members := members + [Member(|members| + 1, VirtualMemberName, false, false)];
        assert members[|members| - 1].name == VirtualMemberName;
      }
    }

    /** `update_member_remainder_status`. */
    method UpdateMemberRemainderStatus(id: nat, status: bool)
      requires Valid()
      modifies this
      ensures Valid()
      ensures members == SetRemainderFlag(old(members), id, status)
      ensures categories == old(categories) && periods == old(periods)
      ensures transactions == old(transactions) && clock == old(clock)
    {
      RemainderFlagKeepsTable(members, id, status);
      members := SetRemainderFlag(members, id, status);
    }

    /** `reset_all_member_remainder_status`: clears the flag of every active row. */
    method ResetAllMemberRemainderStatus()
      requires Valid()
      modifies this
      ensures Valid()
      ensures members == ClearActiveFlags(old(members))
      ensures categories == old(categories) && periods == old(periods)
      ensures transactions == old(transactions) && clock == old(clock)
    {
      members := ClearActiveFlags(members);
    }

    /** `deactivate_member`: true iff a row with that id existed. */
    method DeactivateMember(id: nat) returns (found: bool)
      requires Valid()
      modifies this
      ensures Valid()
      ensures members == SetActive(old(members), id, false)
      ensures found <==> exists m :: m in old(members) && m.id == id
      ensures categories == old(categories) && periods == old(periods)
      ensures transactions == old(transactions) && clock == old(clock)
    {
      found := FindMemberById(members, id).Some?;
      members := SetActive(members, id, false);
    }

    /** `reactivate_member`: true iff a row with that id existed. */
    method ReactivateMember(id: nat) returns (found: bool)
      requires Valid()
      modifies this
      ensures Valid()
      ensures members == SetActive(old(members), id, true)
      ensures found <==> exists m :: m in old(members) && m.id == id
      ensures categories == old(categories) && periods == old(periods)
      ensures transactions == old(transactions) && clock == old(clock)
    {
      found := FindMemberById(members, id).Some?;
      members := SetActive(members, id, true);
    }

    /** `create_new_period`: a new open period stamped now. */
    method CreateNewPeriod(name: string) returns (id: nat)
      requires Valid()
      modifies this
      ensures Valid()
      ensures id == |old(periods)| + 1
      ensures periods == old(periods) + [Period(id, name, old(clock), None, false)]
      ensures CurrentPeriodOf(periods) == Some(Period(id, name, old(clock), None, false))
      ensures clock == old(clock) + 1
      ensures members == old(members) && categories == old(categories) && transactions == old(transactions)
    {
      periods := periods + [Period(|periods| + 1, name, clock, None, false)];
      clock := clock + 1;
      id := |periods|;
    }

    /** `settle_period`: marks the row settled with an end stamp; true iff it existed. */
    method SettlePeriod(id: nat) returns (found: bool)
      requires Valid()
      modifies this
      ensures Valid()
      ensures found <==> exists p :: p in old(periods) && p.id == id
      ensures periods == MarkSettled(old(periods), id, old(clock))
      ensures clock == old(clock) + 1
      ensures members == old(members) && categories == old(categories) && transactions == old(transactions)
    {
      found := FindPeriodById(periods, id).Some?;
      var stamp, ps := clock, periods;
      periods := MarkSettled(ps, id, stamp);
      clock := clock + 1;
    }

    /** `initialize_first_period_if_needed`. */
    method InitializeFirstPeriodIfNeeded()
      requires Valid()
      modifies this
      ensures Valid()
      ensures CurrentPeriodOf(old(periods)).Some? ==> periods == old(periods) && clock == old(clock)
      ensures CurrentPeriodOf(old(periods)).None? ==>
        && periods == old(periods) + [Period(|old(periods)| + 1, InitialPeriodName, old(clock), None, false)]
        && clock == old(clock) + 1
      ensures CurrentPeriodOf(periods).Some?
      ensures members == old(members) && categories == old(categories) && transactions == old(transactions)
    {
      if CurrentPeriodOf(periods).None? {
        var _ := CreateNewPeriod(InitialPeriodName);
      }
    }

    /**
     * `add_transaction`: appends one row and returns its id.  Without a period id
     * the row goes to the current period, which is created first when none is open.
     */
    method AddTransaction(kind: TxKind, amount: int, description: Option<string>,
                          payerId: Option<nat>, categoryId: Option<nat>, periodId: Option<nat>)
      returns (id: nat)
      requires Valid()
      modifies this
      ensures Valid()
      ensures members == old(members) && categories == old(categories)
      ensures periodId.Some? ==> periods == old(periods)
      ensures periodId.None? ==> periods == PeriodsAfterNewRow(old(periods), old(clock))
      ensures periodId.None? ==> CurrentPeriodOf(periods) == Some(PeriodOfNewRow(old(periods), old(clock)))
      ensures clock == old(clock) + 1 || clock == old(clock) + 2
      ensures id == |old(transactions)| + 1
      ensures transactions == old(transactions) + [Transaction(
        id, kind, amount, description, payerId, categoryId,
        if periodId.Some? then periodId.value else PeriodOfNewRow(old(periods), old(clock)).id,
        clock - 1)]
    {
      var pid: nat;
      if periodId.Some? {
        pid := periodId.value;
      } else {
        var current := CurrentPeriodOf(periods);
        if current.None? {
          InitializeFirstPeriodIfNeeded();
          current := CurrentPeriodOf(periods);
        }
        pid := current.value.id;
      }
      transactions := transactions + [Transaction(|transactions| + 1, kind, amount, description,
                                                  payerId, categoryId, pid, clock)];
      clock := clock + 1;
      id := |transactions|;
    }
  }

  /**
   * `initialize_database` on a database without tables: the schema script
   * creates the tables and seeds the categories, then the first period is
   * opened and the fund row added, so a fresh store holds exactly the open
   * "Initial Period" and the inactive fund row.
   */
  method NewDatabase(categoryNames: seq<string>) returns (db: Database)
    ensures fresh(db) && db.Valid()
    ensures db.members == [Member(1, VirtualMemberName, false, false)]
    ensures db.periods == [Period(1, InitialPeriodName, 0, None, false)]
    ensures CurrentPeriodOf(db.periods) == Some(db.periods[0])
    ensures db.transactions == [] && db.clock == 1
    ensures |db.categories| == |categoryNames|
    ensures forall i :: 0 <= i < |categoryNames| ==> db.categories[i] == Category(i + 1, categoryNames[i])
  {
    db := new Database(categoryNames);
    db.InitializeDatabase();
  }
}
