/**
 * The three balance aggregators of src/divvy/logic.py and the totals of
 * `get_period_summary`.  Each aggregator folds a list of transactions into a
 * dictionary from member id to cents: the payer is credited with the whole
 * amount, and an expense is spread over the members that are active *now*,
 * `amount div n` each, with one extra cent for each of the first
 * `amount mod n` of them in id order.  The folds are stated here as functions;
 * the methods that run the loops of the source are proved equal to them.
 */
module Balances {
  import opened Common
  import opened Store

  // ---------------------------------------------------------------------------
  // Shares of an expense
  // ---------------------------------------------------------------------------

  /** Python truthiness of `tx["payer_id"]`: a NULL payer and the id 0 both count as absent. */
  function PayerOf(t: Transaction): Option<nat>
  {
    if t.payerId.Some? && t.payerId.value != 0 then t.payerId else None
  }

  /** What the member at position `i` of `n` is debited for an expense: `amount // n`, plus 1 while `i < amount % n`. */
  function Share(amount: int, n: nat, i: nat): int
    requires n > 0
  {
    amount / n + (if i < amount % n then 1 else 0)
  }

  /** Sum of the shares of the first `k` positions. */
  function SharesUpTo(amount: int, n: nat, k: nat): int
    requires n > 0
  {
    if k == 0 then 0 else SharesUpTo(amount, n, k - 1) + Share(amount, n, k - 1)
  }

  /** The first `k` shares are `k` base shares plus one cent for each of them below the remainder. */
  lemma {:induction false} SharesUpToIs(amount: int, n: nat, k: nat)
    requires n > 0
    ensures SharesUpTo(amount, n, k) == k * (amount / n) + Min(k, amount % n)
  {
    if k > 0 {
      SharesUpToIs(amount, n, k - 1);
      var q := amount / n;
      assert (k - 1) * q + q == k * q;
    }
  }

  /** The shares of all `n` active members add up to exactly the expense: nothing is lost or made up. */
  lemma SharesTotal(amount: int, n: nat)
    requires n > 0
    ensures SharesUpTo(amount, n, n) == amount
  {
    SharesUpToIs(amount, n, n);
    assert amount == n * (amount / n) + amount % n;
  }

  /** Every share is the base share or one cent more, so shares differ by at most one cent. */
  lemma ShareBounds(amount: int, n: nat, i: nat)
    requires n > 0
    ensures amount / n <= Share(amount, n, i) <= amount / n + 1
    ensures Share(amount, n, i) == amount / n + 1 <==> i < amount % n
  {
  }

  // ---------------------------------------------------------------------------
  // Balance dictionaries
  // ---------------------------------------------------------------------------

  /** The ids of a member list, in order. */
  function IdsOf(ms: seq<Member>): (r: seq<nat>)
    ensures |r| == |ms|
    ensures forall i :: 0 <= i < |ms| ==> r[i] == ms[i].id
  {
    seq(|ms|, i requires 0 <= i < |ms| => ms[i].id)
  }

  ghost predicate Distinct(ids: seq<nat>)
  {
    forall i, j :: 0 <= i < j < |ids| ==> ids[i] != ids[j]
  }

  /** Every listed id has an entry. */
  predicate Covers(bal: map<nat, int>, ids: seq<nat>)
  {
    forall j :: 0 <= j < |ids| ==> ids[j] in bal
  }

  /** `{member["id"]: 0 for member in members}`. */
  function ZeroBalances(ids: seq<nat>): (r: map<nat, int>)
    ensures forall k :: k in r <==> k in ids
    ensures forall k :: k in r ==> r[k] == 0
  {
    map k | k in ids :: 0
  }

  /** Sum of the entries of the listed ids. */
  function SumOver(bal: map<nat, int>, ids: seq<nat>): int
    requires Covers(bal, ids)
  {
    if ids == [] then 0 else SumOver(bal, ids[..|ids| - 1]) + bal[ids[|ids| - 1]]
  }

  /** An all-zero dictionary sums to zero. */
  lemma {:induction false} SumOverZero(ids: seq<nat>)
    ensures Covers(ZeroBalances(ids), ids)
    ensures SumOver(ZeroBalances(ids), ids) == 0
  {
    if ids != [] {
      var z := ZeroBalances(ids);
      var init := ids[..|ids| - 1];
      SumOverZeroPrefix(z, init);
    }
  }

  lemma {:induction false} SumOverZeroPrefix(z: map<nat, int>, ids: seq<nat>)
    requires Covers(z, ids) && forall k :: k in z ==> z[k] == 0
    ensures SumOver(z, ids) == 0
  {
    if ids != [] {
      SumOverZeroPrefix(z, ids[..|ids| - 1]);
    }
  }

  /** Adding `d` to one entry adds `d` to the sum when that id is listed once, and nothing when it is not listed. */
  lemma {:induction false} SumOverUpdate(bal: map<nat, int>, ids: seq<nat>, key: nat, d: int)
    requires Covers(bal, ids) && Distinct(ids) && key in bal
    ensures Covers(bal[key := bal[key] + d], ids)
    ensures SumOver(bal[key := bal[key] + d], ids) == SumOver(bal, ids) + (if key in ids then d else 0)
  {
    if ids != [] {
      var init := ids[..|ids| - 1];
      SumOverUpdate(bal, init, key, d);
      assert ids == init + [ids[|ids| - 1]];
      assert key in ids <==> key in init || key == ids[|ids| - 1];
    }
  }

  /**
   * The inner loop of the aggregators (logic.py:376-382) run over the first
   * `k` active ids: each is debited its share.
   */
  function DebitFirst(bal: map<nat, int>, ids: seq<nat>, amount: int, k: nat): (r: map<nat, int>)
    requires 0 < |ids| && k <= |ids| && Covers(bal, ids)
    ensures r.Keys == bal.Keys
  {
    if k == 0 then bal
    else
      var prev := DebitFirst(bal, ids, amount, k - 1);
      prev[ids[k - 1] := prev[ids[k - 1]] - Share(amount, |ids|, k - 1)]
  }

  /**
   * After the first `k` debits, the member at position `i < k` has paid its
   * share, the later ones nothing yet, and ids outside the list are untouched.
   */
  lemma {:induction false} DebitFirstAt(bal: map<nat, int>, ids: seq<nat>, amount: int, k: nat)
    requires 0 < |ids| && k <= |ids| && Covers(bal, ids) && Distinct(ids)
    ensures forall i :: 0 <= i < |ids| ==>
      DebitFirst(bal, ids, amount, k)[ids[i]] == bal[ids[i]] - (if i < k then Share(amount, |ids|, i) else 0)
    ensures forall key :: key in bal && key !in ids ==> DebitFirst(bal, ids, amount, k)[key] == bal[key]
  {
    if k > 0 {
      DebitFirstAt(bal, ids, amount, k - 1);
    }
  }

  /** Spreading an expense over the whole active list: each member pays its share, everyone else nothing. */
  lemma SpreadCharges(bal: map<nat, int>, ids: seq<nat>, amount: int)
    requires 0 < |ids| && Covers(bal, ids) && Distinct(ids)
    ensures forall i :: 0 <= i < |ids| ==>
      DebitFirst(bal, ids, amount, |ids|)[ids[i]] == bal[ids[i]] - (amount / |ids| + (if i < amount % |ids| then 1 else 0))
    ensures forall key :: key in bal && key !in ids ==> DebitFirst(bal, ids, amount, |ids|)[key] == bal[key]
  {
    DebitFirstAt(bal, ids, amount, |ids|);
  }

  /** The debits of the first `k` positions lower a sum over a distinct list holding those ids by their shares. */
  lemma {:induction false} DebitFirstSum(bal: map<nat, int>, ids: seq<nat>, amount: int, k: nat, over: seq<nat>)
    requires 0 < |ids| && k <= |ids| && Covers(bal, ids)
    requires Covers(bal, over) && Distinct(over)
    requires forall j :: 0 <= j < |ids| ==> ids[j] in over
    ensures Covers(DebitFirst(bal, ids, amount, k), over)
    ensures SumOver(DebitFirst(bal, ids, amount, k), over) == SumOver(bal, over) - SharesUpTo(amount, |ids|, k)
  {
    if k > 0 {
      DebitFirstSum(bal, ids, amount, k - 1, over);
      var prev := DebitFirst(bal, ids, amount, k - 1);
      SumOverUpdate(prev, over, ids[k - 1], -Share(amount, |ids|, k - 1));
      assert prev[ids[k - 1] := prev[ids[k - 1]] + -Share(amount, |ids|, k - 1)] == DebitFirst(bal, ids, amount, k);
    }
  }

  /** Spreading an expense over the active list lowers the sum over any distinct list holding them by exactly the amount. */
  lemma SpreadConserves(bal: map<nat, int>, ids: seq<nat>, amount: int, over: seq<nat>)
    requires 0 < |ids| && Covers(bal, ids)
    requires Covers(bal, over) && Distinct(over)
    requires forall j :: 0 <= j < |ids| ==> ids[j] in over
    ensures Covers(DebitFirst(bal, ids, amount, |ids|), over)
    ensures SumOver(DebitFirst(bal, ids, amount, |ids|), over) == SumOver(bal, over) - amount
  {
    DebitFirstSum(bal, ids, amount, |ids|, over);
    SharesTotal(amount, |ids|);
  }

  // ---------------------------------------------------------------------------
  // get_active_member_balances (logic.py:343-389)
  // ---------------------------------------------------------------------------

  /** The payer counts in the active fold when it is truthy and has an entry. */
  predicate CountedBy(t: Transaction, bal: map<nat, int>)
  {
    PayerOf(t).Some? && PayerOf(t).value in bal
  }

  /** One pass of the loop at logic.py:360-382. */
  function ActiveStep(bal: map<nat, int>, t: Transaction, ids: seq<nat>): map<nat, int>
    requires Covers(bal, ids)
  {
    if t.kind == Deposit && CountedBy(t, bal) then
      bal[PayerOf(t).value := bal[PayerOf(t).value] + t.amount]
    else if t.kind == Expense && CountedBy(t, bal) then
      var credited := bal[PayerOf(t).value := bal[PayerOf(t).value] + t.amount];
      if |ids| == 0 then credited else DebitFirst(credited, ids, t.amount, |ids|)
    else bal
  }

  /** The loop at logic.py:360-382 over `txs`, from the dictionary `bal`. */
  function ActiveFold(bal: map<nat, int>, txs: seq<Transaction>, ids: seq<nat>): (r: map<nat, int>)
    requires Covers(bal, ids)
    ensures r.Keys == bal.Keys
  {
    if txs == [] then bal
    else ActiveStep(ActiveFold(bal, txs[..|txs| - 1], ids), txs[|txs| - 1], ids)
  }

  /** Deposits whose payer has an entry in a dictionary with keys `keys`. */
  function CountedDeposits(txs: seq<Transaction>, keys: set<nat>): int
  {
    if txs == [] then 0
    else
      var t := txs[|txs| - 1];
      CountedDeposits(txs[..|txs| - 1], keys)
        + (if t.kind == Deposit && PayerOf(t).Some? && PayerOf(t).value in keys then t.amount else 0)
  }

  /** The transactions the active fold does not skip. */
  function Counted(txs: seq<Transaction>, keys: set<nat>): (r: seq<Transaction>)
    ensures forall t :: t in r <==> t in txs && PayerOf(t).Some? && PayerOf(t).value in keys
  {
    if txs == [] then []
    else
      var t := txs[|txs| - 1];
      var init := txs[..|txs| - 1];
      assert txs == init + [t];
      Counted(init, keys) + (if PayerOf(t).Some? && PayerOf(t).value in keys then [t] else [])
  }

  /**
   * Conservation: every counted expense credits its payer the amount and
   * debits the active members exactly the amount, so the active balances move
   * in total by the counted deposits alone.
   */
  lemma {:induction false} ActiveConservation(bal: map<nat, int>, txs: seq<Transaction>, ids: seq<nat>)
    requires Covers(bal, ids) && Distinct(ids) && forall k :: k in bal ==> k in ids
    ensures SumOver(ActiveFold(bal, txs, ids), ids) == SumOver(bal, ids) + CountedDeposits(txs, bal.Keys)
  {
    if txs != [] {
      var init := txs[..|txs| - 1];
      var t := txs[|txs| - 1];
      ActiveConservation(bal, init, ids);
      var prev := ActiveFold(bal, init, ids);
      assert ActiveFold(bal, txs, ids) == ActiveStep(prev, t, ids);
      ActiveStepSum(prev, t, ids);
    }
  }

  /** One step of the active fold moves the total by the row's amount when it is a counted deposit, and not at all otherwise. */
  lemma ActiveStepSum(prev: map<nat, int>, t: Transaction, ids: seq<nat>)
    requires Covers(prev, ids) && Distinct(ids) && forall k :: k in prev ==> k in ids
    ensures SumOver(ActiveStep(prev, t, ids), ids)
            == SumOver(prev, ids) + (if t.kind == Deposit && CountedBy(t, prev) then t.amount else 0)
  {
    if CountedBy(t, prev) && (t.kind == Deposit || t.kind == Expense) {
      var p := PayerOf(t).value;
      var credited := prev[p := prev[p] + t.amount];
      SumOverUpdate(prev, ids, p, t.amount);
      assert p in ids;
      if t.kind == Deposit {
        assert ActiveStep(prev, t, ids) == credited;
      } else {
        assert |ids| > 0;
        assert ActiveStep(prev, t, ids) == DebitFirst(credited, ids, t.amount, |ids|);
        SpreadConserves(credited, ids, t.amount, ids);
      }
    }
  }

  /**
   * The active fold ignores every transaction whose payer is absent or has no
   * entry, such as an inactive member or the shared fund: folding only the
   * counted transactions gives the same balances.
   */
  lemma {:induction false} ActiveIgnoresUncounted(bal: map<nat, int>, txs: seq<Transaction>, ids: seq<nat>)
    requires Covers(bal, ids)
    ensures ActiveFold(bal, txs, ids) == ActiveFold(bal, Counted(txs, bal.Keys), ids)
  {
    if txs != [] {
      var init := txs[..|txs| - 1];
      var t := txs[|txs| - 1];
      ActiveIgnoresUncounted(bal, init, ids);
      var c := Counted(init, bal.Keys);
      var prev := ActiveFold(bal, init, ids);
      if PayerOf(t).Some? && PayerOf(t).value in bal.Keys {
        assert Counted(txs, bal.Keys) == c + [t];
        assert (c + [t])[..|c + [t]| - 1] == c;
      } else {
        assert Counted(txs, bal.Keys) == c;
        assert !CountedBy(t, prev);
      }
    }
  }

  /** No active member carries the fund row's id. */
  lemma FundRowNotActive(ms: seq<Member>, p: nat)
    requires MemberIds(ms)
    requires 0 < p <= |ms| && ms[p - 1].name == VirtualMemberName
    ensures forall j :: 0 <= j < |ActiveMembers(ms)| ==> ActiveMembers(ms)[j].id != p
  {
    var a := ActiveMembers(ms);
    ActiveMembersAre(ms);
    forall j | 0 <= j < |a|
      ensures a[j].id != p
    {
      assert a[j] in ms && a[j].name != VirtualMemberName;
      var i :| 0 <= i < |ms| && ms[i] == a[j];
      assert ms[i].id == i + 1;
    }
  }

  /** The fund row is never active, so a transaction paid by it leaves the active balances unchanged. */
  lemma FundPaymentIgnored(ms: seq<Member>, bal: map<nat, int>, t: Transaction)
    requires MemberIds(ms)
    requires forall k :: k in bal <==> k in IdsOf(ActiveMembers(ms))
    requires PayerOf(t).Some? && 0 < PayerOf(t).value <= |ms| && ms[PayerOf(t).value - 1].name == VirtualMemberName
    ensures Covers(bal, IdsOf(ActiveMembers(ms)))
    ensures ActiveStep(bal, t, IdsOf(ActiveMembers(ms))) == bal
  {
    var ids := IdsOf(ActiveMembers(ms));
    var p := PayerOf(t).value;
    FundRowNotActive(ms, p);
    assert p !in ids;
    assert !CountedBy(t, bal);
  }

  /** One row per active member, in id order, with its balance (logic.py:385-389). */
  function NamedRows(active: seq<Member>, bal: map<nat, int>): (r: seq<(string, int)>)
    requires Covers(bal, IdsOf(active))
    ensures |r| == |active|
    ensures forall i :: 0 <= i < |active| ==> r[i] == (active[i].name, bal[active[i].id])
  {
    seq(|active|, i requires 0 <= i < |active| => (active[i].name, bal[IdsOf(active)[i]]))
  }

  /** The period a query without an explicit id falls back to (logic.py:348-352, 290-294, 397-401). */
  function ResolvePeriod(ps: seq<Period>, periodId: Option<nat>): Option<nat>
  {
    if periodId.Some? then periodId
    else if CurrentPeriodOf(ps).Some? then Some(CurrentPeriodOf(ps).value.id)
    else None
  }

  /** Sum of the balances of a list of rows. */
  function SumRows(rows: seq<(string, int)>): int
  {
    if rows == [] then 0 else SumRows(rows[..|rows| - 1]) + rows[|rows| - 1].1
  }

  /** The rows of an active report sum to the entries of the active ids. */
  lemma {:induction false} SumRowsIsSumOver(active: seq<Member>, bal: map<nat, int>)
    requires Covers(bal, IdsOf(active))
    ensures SumRows(NamedRows(active, bal)) == SumOver(bal, IdsOf(active))
  {
    if active != [] {
      var init := active[..|active| - 1];
      SumRowsIsSumOver(init, bal);
      assert NamedRows(active, bal)[..|active| - 1] == NamedRows(init, bal);
      assert IdsOf(active)[..|active| - 1] == IdsOf(init);
    }
  }

  /** The active ids of a table with ids in row order are distinct. */
  lemma ActiveIdsDistinct(ms: seq<Member>)
    requires MemberIds(ms)
    ensures Distinct(IdsOf(ActiveMembers(ms)))
  {
    assert IdsIncreasing(ms);
    ActiveMembersOrdered(ms);
  }

  /**
   * The report of `get_active_member_balances` sums to the in-period deposits
   * whose payer is an active member.
   */
  lemma ActiveReportSum(ms: seq<Member>, txs: seq<Transaction>)
    requires MemberIds(ms)
    ensures Covers(ZeroBalances(IdsOf(ActiveMembers(ms))), IdsOf(ActiveMembers(ms)))
    ensures SumRows(NamedRows(ActiveMembers(ms),
              ActiveFold(ZeroBalances(IdsOf(ActiveMembers(ms))), txs, IdsOf(ActiveMembers(ms)))))
            == CountedDeposits(txs, set m | m in ActiveMembers(ms) :: m.id)
  {
    var a := ActiveMembers(ms);
    var ids := IdsOf(a);
    var z := ZeroBalances(ids);
    SumOverZero(ids);
    ActiveIdsDistinct(ms);
    ActiveConservation(z, txs, ids);
    var f := ActiveFold(z, txs, ids);
    SumRowsIsSumOver(a, f);
    ActiveIdKeys(a);
    assert SumRows(NamedRows(a, f)) == CountedDeposits(txs, z.Keys);
  }

  /** The keys of the zeroed dictionary are the ids of the listed members. */
  lemma ActiveIdKeys(a: seq<Member>)
    ensures ZeroBalances(IdsOf(a)).Keys == set m | m in a :: m.id
  {
    var ids := IdsOf(a);
    forall k | k in ZeroBalances(ids) ensures k in set m | m in a :: m.id {
      var j :| 0 <= j < |ids| && ids[j] == k;
      assert a[j] in a;
    }
  }

  /**
   * `get_active_member_balances`: one row per active member with its balance
   * in cents over the period's transactions, or no rows when no period is
   * given and none is open.
   */
  method GetActiveMemberBalances(db: Database, periodId: Option<nat>) returns (rows: seq<(string, int)>)
    requires db.Valid()
    ensures ResolvePeriod(db.periods, periodId).None? ==> rows == []
    ensures ResolvePeriod(db.periods, periodId).Some? ==>
      var ids := IdsOf(ActiveMembers(db.members));
      && Covers(ZeroBalances(ids), ids)
      && rows == NamedRows(ActiveMembers(db.members),
                   ActiveFold(ZeroBalances(ids), TxsInPeriod(db.transactions, ResolvePeriod(db.periods, periodId).value), ids))
  {
    var pid: nat;
    if periodId.None? {
      var current := CurrentPeriodOf(db.periods);
      if current.None? {
        return [];
      }
      pid := current.value.id;
    } else {
      pid := periodId.value;
    }
    var active := ActiveMembers(db.members);
    var bal := FoldActive(TxsInPeriod(db.transactions, pid), active);
    rows := ActiveRows(active, bal);
  }

  /** The loop at logic.py:360-382, from zero for every active member. */
  method FoldActive(txs: seq<Transaction>, active: seq<Member>) returns (bal: map<nat, int>)
    ensures Covers(ZeroBalances(IdsOf(active)), IdsOf(active))
    ensures bal == ActiveFold(ZeroBalances(IdsOf(active)), txs, IdsOf(active))
  {
    var ids := IdsOf(active);
    bal := ZeroBalances(ids);
    ghost var zero := bal;
    var i := 0;
    while i < |txs|
      invariant 0 <= i <= |txs|
      invariant Covers(bal, ids)
      invariant bal == ActiveFold(zero, txs[..i], ids)
    {
      ActiveFoldNext(zero, txs, i, ids);
      bal := ApplyActiveRow(bal, txs[i], active);
      i := i + 1;
    }
    assert txs[..|txs|] == txs;
  }

  /** One pass of the loop at logic.py:361-382. */
  method ApplyActiveRow(bal0: map<nat, int>, t: Transaction, active: seq<Member>) returns (bal: map<nat, int>)
    requires Covers(bal0, IdsOf(active))
    ensures bal == ActiveStep(bal0, t, IdsOf(active))
  {
    bal := bal0;
    var payer := PayerOf(t);
    if t.kind == Deposit {
      if payer.Some? && payer.value in bal {
        bal := bal[payer.value := bal[payer.value] + t.amount];
      }
    } else if t.kind == Expense && payer.Some? && payer.value in bal {
      bal := bal[payer.value := bal[payer.value] + t.amount];
      if |active| > 0 {
        bal := DebitActive(bal, active, t.amount);
      }
    }
  }

  /** The fold over one more row is one more step. */
  lemma ActiveFoldNext(bal: map<nat, int>, txs: seq<Transaction>, i: nat, ids: seq<nat>)
    requires Covers(bal, ids) && i < |txs|
    ensures ActiveFold(bal, txs[..i + 1], ids) == ActiveStep(ActiveFold(bal, txs[..i], ids), txs[i], ids)
  {
    assert txs[..i + 1][..i] == txs[..i];
  }

  /** The inner loop at logic.py:376-382: each active member pays the base share, the first `remainder` one cent more. */
  method DebitActive(bal0: map<nat, int>, active: seq<Member>, amount: int) returns (bal: map<nat, int>)
    requires 0 < |active| && Covers(bal0, IdsOf(active))
    ensures bal == DebitFirst(bal0, IdsOf(active), amount, |active|)
  {
    var ids := IdsOf(active);
    var n := |active|;
    var base, remainder := amount / n, amount % n;
    bal := bal0;
    var j := 0;
    while j < n
      invariant 0 <= j <= n
      invariant bal == DebitFirst(bal0, ids, amount, j)
    {
      var id := active[j].id;
      bal := bal[id := bal[id] - base];
      if j < remainder {
        bal := bal[id := bal[id] - 1];
      }
      j := j + 1;
    }
  }

  /** The loop at logic.py:385-389 building the name-keyed result. */
  method ActiveRows(active: seq<Member>, bal: map<nat, int>) returns (rows: seq<(string, int)>)
    requires Covers(bal, IdsOf(active))
    ensures rows == NamedRows(active, bal)
  {
    rows := [];
    var k := 0;
    while k < |active|
      invariant 0 <= k <= |active|
      invariant rows == NamedRows(active[..k], bal)
    {
      assert active[..k + 1][..k] == active[..k];
      rows := rows + [(active[k].name, bal[active[k].id])];
      k := k + 1;
    }
    assert active[..|active|] == active;
  }

  // ---------------------------------------------------------------------------
  // get_period_balances (logic.py:284-340) and get_settlement_balances (logic.py:204-249)
  // ---------------------------------------------------------------------------

  /** A transaction on which `member_balances[tx["payer_id"]]` raises KeyError. */
  predicate Raises(t: Transaction, bal: map<nat, int>)
  {
    (t.kind == Deposit || t.kind == Expense) && PayerOf(t).Some? && PayerOf(t).value !in bal
  }

  /** One pass of the loop at logic.py:307-327 (the same as logic.py:217-236); None is the KeyError. */
  function LedgerStep(bal: map<nat, int>, t: Transaction, ids: seq<nat>): Option<map<nat, int>>
    requires Covers(bal, ids)
  {
    if Raises(t, bal) then None
    else if t.kind == Deposit then
      Some(if PayerOf(t).Some? then bal[PayerOf(t).value := bal[PayerOf(t).value] + t.amount] else bal)
    else if t.kind == Expense then
      var credited := if PayerOf(t).Some? then bal[PayerOf(t).value := bal[PayerOf(t).value] + t.amount] else bal;
      Some(if |ids| == 0 then credited else DebitFirst(credited, ids, t.amount, |ids|))
    else Some(bal)
  }

  /** The whole loop; None when some transaction raised KeyError. */
  function LedgerFold(bal: map<nat, int>, txs: seq<Transaction>, ids: seq<nat>): (r: Option<map<nat, int>>)
    requires Covers(bal, ids)
    ensures r.Some? ==> r.value.Keys == bal.Keys
  {
    if txs == [] then Some(bal)
    else
      var prev := LedgerFold(bal, txs[..|txs| - 1], ids);
      if prev.None? then None else LedgerStep(prev.value, txs[|txs| - 1], ids)
  }

  /** The fold fails exactly when some deposit or expense has a truthy payer without an entry. */
  lemma {:induction false} LedgerFailsIff(bal: map<nat, int>, txs: seq<Transaction>, ids: seq<nat>)
    requires Covers(bal, ids)
    ensures LedgerFold(bal, txs, ids).None? <==> exists t :: t in txs && Raises(t, bal)
  {
    if txs != [] {
      var init := txs[..|txs| - 1];
      LedgerFailsIff(bal, init, ids);
      assert txs == init + [txs[|txs| - 1]];
      var prev := LedgerFold(bal, init, ids);
      if prev.Some? {
        assert forall t :: Raises(t, prev.value) <==> Raises(t, bal);
      }
    }
  }

  /** What one transaction adds to the sum of all balances: its credit, less the amount when it is spread. */
  function NetEffect(t: Transaction, spread: bool): int
  {
    if t.kind == Deposit then (if PayerOf(t).Some? then t.amount else 0)
    else if t.kind == Expense then (if PayerOf(t).Some? then t.amount else 0) - (if spread then t.amount else 0)
    else 0
  }

  function NetEffects(txs: seq<Transaction>, spread: bool): int
  {
    if txs == [] then 0 else NetEffects(txs[..|txs| - 1], spread) + NetEffect(txs[|txs| - 1], spread)
  }

  /** One successful step of the ledger fold moves the sum over all members by the transaction's net effect. */
  lemma LedgerStepConserves(b: map<nat, int>, t: Transaction, ids: seq<nat>, all: seq<nat>)
    requires Covers(b, ids) && Covers(b, all) && Distinct(all)
    requires forall k :: k in b ==> k in all
    requires forall j :: 0 <= j < |ids| ==> ids[j] in all
    ensures LedgerStep(b, t, ids).Some? ==>
      && Covers(LedgerStep(b, t, ids).value, all)
      && SumOver(LedgerStep(b, t, ids).value, all) == SumOver(b, all) + NetEffect(t, |ids| > 0)
  {
    if !Raises(t, b) && (t.kind == Deposit || t.kind == Expense) {
      var credited := if PayerOf(t).Some? then b[PayerOf(t).value := b[PayerOf(t).value] + t.amount] else b;
      if PayerOf(t).Some? {
        SumOverUpdate(b, all, PayerOf(t).value, t.amount);
      }
      if t.kind == Expense && |ids| > 0 {
        SpreadConserves(credited, ids, t.amount, all);
      }
    }
  }

  /**
   * Conservation in the ledger folds: when the fold succeeds, the sum over all
   * members moves by each transaction's credit, less each expense when there is
   * somebody to spread it over.
   */
  lemma {:induction false} LedgerConservation(bal: map<nat, int>, txs: seq<Transaction>, ids: seq<nat>, all: seq<nat>)
    requires Covers(bal, ids) && Covers(bal, all) && Distinct(all)
    requires forall k :: k in bal ==> k in all
    requires forall j :: 0 <= j < |ids| ==> ids[j] in all
    ensures LedgerFold(bal, txs, ids).Some? ==>
      SumOver(LedgerFold(bal, txs, ids).value, all) == SumOver(bal, all) + NetEffects(txs, |ids| > 0)
  {
    if txs != [] {
      var init := txs[..|txs| - 1];
      LedgerConservation(bal, init, ids, all);
      var prev := LedgerFold(bal, init, ids);
      if prev.Some? {
        LedgerStepConserves(prev.value, txs[|txs| - 1], ids, all);
      }
    }
  }

  /** How a balance is shown: owed, owing, or settled (logic.py:240-247). */
  datatype Standing = IsOwed(cents: nat) | Owes(cents: nat) | Settled

  function StandingOf(balance: int): (s: Standing)
    ensures s.IsOwed? <==> balance > 0
    ensures s.Owes? <==> balance < 0
  {
    if balance > 0 then IsOwed(balance) else if balance < 0 then Owes(-balance) else Settled
  }

  /** The signed balance a standing shows. */
  function SignedCents(s: Standing): int
  {
    match s
    case IsOwed(c) => c as int
    case Owes(c) => -(c as int)
    case Settled => 0
  }

  /** The display loses nothing: the balance can be read back from its standing. */
  lemma StandingRoundTrip(balance: int)
    ensures SignedCents(StandingOf(balance)) == balance
  {
  }

  /** One row per member of the table (fund row excluded), in id order, with its standing. */
  function StandingRows(members: seq<Member>, bal: map<nat, int>): (r: seq<(string, Standing)>)
    requires Covers(bal, IdsOf(members))
    ensures |r| == |members|
    ensures forall i :: 0 <= i < |members| ==> r[i] == (members[i].name, StandingOf(bal[members[i].id]))
  {
    seq(|members|, i requires 0 <= i < |members| => (members[i].name, StandingOf(bal[IdsOf(members)[i]])))
  }

  /** Outcome of `get_period_balances` and `get_settlement_balances`. */
  datatype Report = NoPeriod | KeyError | Rows(rows: seq<(string, Standing)>)

  /** The ledger fold over `txs` from zero for every member, spreading over the active ones. */
  method FoldLedger(txs: seq<Transaction>, all: seq<Member>, active: seq<Member>)
    returns (r: Option<map<nat, int>>)
    requires forall j :: 0 <= j < |active| ==> active[j].id in IdsOf(all)
    ensures Covers(ZeroBalances(IdsOf(all)), IdsOf(active))
    ensures r == LedgerFold(ZeroBalances(IdsOf(all)), txs, IdsOf(active))
  {
    var ids := IdsOf(active);
    var bal: map<nat, int> := ZeroBalances(IdsOf(all));
    ghost var zero := bal;
    var i := 0;
    while i < |txs|
      invariant 0 <= i <= |txs|
      invariant Covers(bal, ids)
      invariant LedgerFold(zero, txs[..i], ids) == Some(bal)
    {
      LedgerFoldNext(zero, txs, i, ids);
      var next := ApplyLedgerRow(bal, txs[i], active);
      if next.None? {
        LedgerFoldStaysFailed(zero, txs, ids, i + 1);
        return None;
      }
      bal := next.value;
      i := i + 1;
    }
    assert txs[..|txs|] == txs;
    r := Some(bal);
  }

  /** One pass of the loop at logic.py:361-382, which raises KeyError for a payer without an entry. */
  method ApplyLedgerRow(bal0: map<nat, int>, t: Transaction, active: seq<Member>) returns (r: Option<map<nat, int>>)
    requires Covers(bal0, IdsOf(active))
    ensures r == LedgerStep(bal0, t, IdsOf(active))
  {
    if t.kind != Deposit && t.kind != Expense {
      return Some(bal0);
    }
    var bal := bal0;
    var payer := PayerOf(t);
    if payer.Some? {
      if payer.value !in bal {
        return None;
      }
      bal := bal[payer.value := bal[payer.value] + t.amount];
    }
    if t.kind == Expense && |active| > 0 {
      bal := DebitActive(bal, active, t.amount);
    }
    r := Some(bal);
  }

  /** The fold over one more row is one more step, as long as it has not failed. */
  lemma LedgerFoldNext(bal: map<nat, int>, txs: seq<Transaction>, i: nat, ids: seq<nat>)
    requires Covers(bal, ids) && i < |txs|
    requires LedgerFold(bal, txs[..i], ids).Some?
    ensures Covers(LedgerFold(bal, txs[..i], ids).value, ids)
    ensures LedgerFold(bal, txs[..i + 1], ids) == LedgerStep(LedgerFold(bal, txs[..i], ids).value, txs[i], ids)
  {
    assert txs[..i + 1][..i] == txs[..i];
  }

  /** A fold that failed on a prefix fails on the whole list. */
  lemma {:induction false} LedgerFoldStaysFailed(bal: map<nat, int>, txs: seq<Transaction>, ids: seq<nat>, k: nat)
    requires Covers(bal, ids) && k <= |txs|
    requires LedgerFold(bal, txs[..k], ids).None?
    ensures LedgerFold(bal, txs, ids).None?
  {
    if k < |txs| {
      var init := txs[..|txs| - 1];
      assert init[..k] == txs[..k];
      LedgerFoldStaysFailed(bal, init, ids, k);
    } else {
      assert txs[..k] == txs;
    }
  }

  /** Every active member is a member. */
  lemma ActiveInAll(ms: seq<Member>)
    ensures forall j :: 0 <= j < |ActiveMembers(ms)| ==> ActiveMembers(ms)[j].id in IdsOf(AllMembers(ms))
    ensures Covers(ZeroBalances(IdsOf(AllMembers(ms))), IdsOf(ActiveMembers(ms)))
  {
    ActiveMembersAre(ms);
    AllMembersAre(ms);
    forall j | 0 <= j < |ActiveMembers(ms)|
      ensures ActiveMembers(ms)[j].id in IdsOf(AllMembers(ms))
    {
      var m := ActiveMembers(ms)[j];
      assert m in AllMembers(ms);
      var i :| 0 <= i < |AllMembers(ms)| && AllMembers(ms)[i] == m;
      assert IdsOf(AllMembers(ms))[i] == m.id;
    }
  }

  /** The dictionary the ledger aggregators compute over `txs`: zero for every member, spread over the active ones. */
  function LedgerBalances(ms: seq<Member>, txs: seq<Transaction>): (r: Option<map<nat, int>>)
    ensures r.Some? ==> Covers(r.value, IdsOf(AllMembers(ms)))
  {
    ActiveInAll(ms);
    LedgerFold(ZeroBalances(IdsOf(AllMembers(ms))), txs, IdsOf(ActiveMembers(ms)))
  }

  /** The report the ledger aggregators return for `txs`. */
  function LedgerReport(ms: seq<Member>, txs: seq<Transaction>): Report
  {
    var b := LedgerBalances(ms, txs);
    if b.None? then KeyError else Rows(StandingRows(AllMembers(ms), b.value))
  }

  /** Sum of the balances a list of standings shows. */
  function SumStandings(rows: seq<(string, Standing)>): int
  {
    if rows == [] then 0 else SumStandings(rows[..|rows| - 1]) + SignedCents(rows[|rows| - 1].1)
  }

  /** The standings of a report sum to the entries of the member ids. */
  lemma {:induction false} SumStandingsIsSumOver(members: seq<Member>, bal: map<nat, int>)
    requires Covers(bal, IdsOf(members))
    ensures SumStandings(StandingRows(members, bal)) == SumOver(bal, IdsOf(members))
  {
    if members != [] {
      var init := members[..|members| - 1];
      SumStandingsIsSumOver(init, bal);
      assert StandingRows(members, bal)[..|members| - 1] == StandingRows(init, bal);
      assert IdsOf(members)[..|members| - 1] == IdsOf(init);
      StandingRoundTrip(bal[members[|members| - 1].id]);
    }
  }

  /**
   * A ledger report that is not a KeyError shows balances summing to the
   * deposits with a payer plus the expenses with a payer, less every expense
   * when some member is active: with active members and a payer on every
   * expense, exactly the deposits.
   */
  lemma LedgerReportSum(ms: seq<Member>, txs: seq<Transaction>)
    requires MemberIds(ms)
    ensures LedgerReport(ms, txs).Rows? ==>
      SumStandings(LedgerReport(ms, txs).rows) == NetEffects(txs, |ActiveMembers(ms)| > 0)
  {
    var all := IdsOf(AllMembers(ms));
    var b := LedgerBalances(ms, txs);
    if b.Some? {
      ActiveInAll(ms);
      assert IdsIncreasing(ms);
      AllMembersOrdered(ms);
      var z := ZeroBalances(all);
      SumOverZero(all);
      LedgerConservation(z, txs, IdsOf(ActiveMembers(ms)), all);
      SumStandingsIsSumOver(AllMembers(ms), b.value);
    }
  }

  /** `member_balances.items()` formatted in key order (logic.py:239-247, 330-338). */
  method FormatStandings(members: seq<Member>, bal: map<nat, int>) returns (rows: seq<(string, Standing)>)
    requires Covers(bal, IdsOf(members))
    ensures rows == StandingRows(members, bal)
  {
    rows := [];
    var k := 0;
    while k < |members|
      invariant 0 <= k <= |members|
      invariant rows == StandingRows(members[..k], bal)
    {
      assert members[..k + 1][..k] == members[..k];
      var balance := bal[members[k].id];
      var standing: Standing;
      if balance > 0 {
        standing := IsOwed(balance);
      } else if balance < 0 {
        standing := Owes(-balance);
      } else {
        standing := Settled;
      }
      rows := rows + [(members[k].name, standing)];
      k := k + 1;
    }
    assert members[..|members|] == members;
  }

  /**
   * `get_period_balances`: for the given period, or the open one, the standing
   * of every member; nothing when there is no such period; KeyError when a
   * transaction of the period is paid by a row outside the member list (the
   * shared fund).
   */
  method GetPeriodBalances(db: Database, periodId: Option<nat>) returns (r: Report)
    requires db.Valid()
    ensures ResolvePeriod(db.periods, periodId).None? ==> r == NoPeriod
    ensures ResolvePeriod(db.periods, periodId).Some? ==>
      r == if FindPeriodById(db.periods, ResolvePeriod(db.periods, periodId).value).None? then NoPeriod
           else LedgerReport(db.members, TxsInPeriod(db.transactions, ResolvePeriod(db.periods, periodId).value))
  {
    var pid: nat;
    if periodId.None? {
      var current := CurrentPeriodOf(db.periods);
      if current.None? {
        return NoPeriod;
      }
      pid := current.value.id;
    } else {
      pid := periodId.value;
    }
    if FindPeriodById(db.periods, pid).None? {
      return NoPeriod;
    }
    r := LedgerReportOf(db.members, TxsInPeriod(db.transactions, pid));
  }

  /** `get_settlement_balances`: the standing of every member over all transactions, or KeyError. */
  method GetSettlementBalances(db: Database) returns (r: Report)
    requires db.Valid()
    ensures r == LedgerReport(db.members, db.transactions)
    ensures r != NoPeriod
  {
    r := LedgerReportOf(db.members, db.transactions);
  }

  /** The fold and formatting shared by the two ledger aggregators. */
  method LedgerReportOf(ms: seq<Member>, txs: seq<Transaction>) returns (r: Report)
    ensures r == LedgerReport(ms, txs)
  {
    ActiveInAll(ms);
    var all := AllMembers(ms);
    var b := FoldLedger(txs, all, ActiveMembers(ms));
    if b.None? {
      return KeyError;
    }
    var rows := FormatStandings(all, b.value);
    r := Rows(rows);
  }

  // ---------------------------------------------------------------------------
  // get_period_summary (logic.py:392-427)
  // ---------------------------------------------------------------------------

  /** `sum(tx["amount"] for tx in transactions if tx["transaction_type"] == kind)`. */
  function SumOfKind(txs: seq<Transaction>, kind: TxKind): int
  {
    if txs == [] then 0
    else SumOfKind(txs[..|txs| - 1], kind) + (if txs[|txs| - 1].kind == kind then txs[|txs| - 1].amount else 0)
  }

  /** The sum of a kind's amounts is additive over concatenation. */
  lemma {:induction false} SumOfKindAppend(a: seq<Transaction>, b: seq<Transaction>, kind: TxKind)
    ensures SumOfKind(a + b, kind) == SumOfKind(a, kind) + SumOfKind(b, kind)
  {
    if b != [] {
      SumOfKindAppend(a, b[..|b| - 1], kind);
      assert (a + b)[..|a + b| - 1] == a + b[..|b| - 1];
    } else {
      assert a + b == a;
    }
  }

  /**
   * The `totals` of a period summary (logic.py:411-426): the sum of the deposit
   * amounts, the sum of the expense amounts, what is left of the deposits after
   * the expenses, and the number of rows.
   */
  datatype Totals = Totals(deposits: int, expenses: int, net: int, count: nat)

  function PeriodTotals(txs: seq<Transaction>): (r: Totals)
    ensures r.net == r.deposits - r.expenses
    ensures r.count == |txs|
  {
    var deposits := SumOfKind(txs, Deposit);
    var expenses := SumOfKind(txs, Expense);
    Totals(deposits, expenses, deposits - expenses, |txs|)
  }

  /**
   * One more row moves the totals by its amount under its own kind only, and
   * the count by one; rows of any other kind leave the sums alone.
   */
  lemma TotalsAppend(txs: seq<Transaction>, t: Transaction)
    ensures PeriodTotals(txs + [t]).deposits == PeriodTotals(txs).deposits + (if t.kind == Deposit then t.amount else 0)
    ensures PeriodTotals(txs + [t]).expenses == PeriodTotals(txs).expenses + (if t.kind == Expense then t.amount else 0)
    ensures PeriodTotals(txs + [t]).count == PeriodTotals(txs).count + 1
  {
    SumOfKindAppend(txs, [t], Deposit);
    SumOfKindAppend(txs, [t], Expense);
    assert [t][..0] == [];
  }

  /** Outcome of `get_period_summary`. */
  datatype Summary =
    | NoSummary
    | SummaryKeyError
    | Summary(period: Period, transactions: seq<Transaction>, balances: seq<(string, Standing)>, totals: Totals)

  /**
   * `get_period_summary`: the period, its transactions, the standings of
   * `get_period_balances` and the totals; nothing when there is no such period;
   * KeyError when the balances raise it.
   */
  method GetPeriodSummary(db: Database, periodId: Option<nat>) returns (r: Summary)
    requires db.Valid()
    ensures ResolvePeriod(db.periods, periodId).None? ==> r == NoSummary
    ensures ResolvePeriod(db.periods, periodId).Some? ==>
      var pid := ResolvePeriod(db.periods, periodId).value;
      var txs := TxsInPeriod(db.transactions, pid);
      r == if FindPeriodById(db.periods, pid).None? then NoSummary
           else if LedgerReport(db.members, txs).KeyError? then SummaryKeyError
           else Summary(FindPeriodById(db.periods, pid).value, txs, LedgerReport(db.members, txs).rows, PeriodTotals(txs))
  {
    var pid: nat;
    if periodId.None? {
      var current := CurrentPeriodOf(db.periods);
      if current.None? {
        return NoSummary;
      }
      pid := current.value.id;
    } else {
      pid := periodId.value;
    }
    var period := FindPeriodById(db.periods, pid);
    if period.None? {
      return NoSummary;
    }
    var txs := TxsInPeriod(db.transactions, pid);
    var balances := GetPeriodBalances(db, Some(pid));
    if balances.KeyError? {
      return SummaryKeyError;
    }
    r := Summary(period.value, txs, balances.rows, PeriodTotals(txs));
  }
}
