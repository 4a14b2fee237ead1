/**
 * The remainder rule of `record_expense` (src/divvy/logic.py:76-100): when an
 * expense does not divide evenly among the active members, the whole remainder
 * is reported as taken by one member, chosen by a rotation over the members'
 * `paid_remainder_in_cycle` flags.  This module states the effect of that step
 * on the member table as functions of the table, and proves the rotation fair.
 */
module Rotation {
  import opened Common
  import opened Store

  /** Every listed member has already taken a remainder in this cycle. */
  predicate AllPaid(active: seq<Member>)
  {
    forall j :: 0 <= j < |active| ==> active[j].paidRemainderInCycle
  }

  /** Position of the first member, in list order, whose flag is clear (logic.py:95-100). */
  function FirstUnpaid(active: seq<Member>): (k: nat)
    requires !AllPaid(active)
    ensures k < |active| && !active[k].paidRemainderInCycle
    ensures forall j :: 0 <= j < k ==> active[j].paidRemainderInCycle
  {
    if !active[0].paidRemainderInCycle then 0 else 1 + FirstUnpaid(active[1..])
  }

  /** The table after the reset of logic.py:89-92, which happens only when every active member has paid. */
  function ClearedIfAllPaid(ms: seq<Member>): seq<Member>
  {
    if AllPaid(ActiveMembers(ms)) then ClearActiveFlags(ms) else ms
  }

  /**
   * The member that `record_expense` reports as taking the remainder: the first
   * active member with a clear flag or, when every active member has paid, the
   * first active member, whose flag the reset has just cleared.
   */
  function RemainderAssignee(ms: seq<Member>): Member
    requires ActiveMembers(ms) != []
  {
    var active := ActiveMembers(ms);
    if AllPaid(active) then active[0].(paidRemainderInCycle := false) else active[FirstUnpaid(active)]
  }

  /** The member table after the remainder step of `record_expense`. */
  function FlagsAfterRemainder(ms: seq<Member>): seq<Member>
    requires ActiveMembers(ms) != []
  {
    SetRemainderFlag(ClearedIfAllPaid(ms), RemainderAssignee(ms).id, true)
  }

  // ---------------------------------------------------------------------------
  // How the active list follows the table updates
  // ---------------------------------------------------------------------------

  /** Setting one row's flag sets the flag of the same member in the active list and nothing else. */
  lemma {:induction false} ActiveAfterSetFlag(ms: seq<Member>, id: nat, s: bool)
    ensures |ActiveMembers(SetRemainderFlag(ms, id, s))| == |ActiveMembers(ms)|
    ensures forall j :: 0 <= j < |ActiveMembers(ms)| ==>
      ActiveMembers(SetRemainderFlag(ms, id, s))[j] ==
        if ActiveMembers(ms)[j].id == id then ActiveMembers(ms)[j].(paidRemainderInCycle := s)
        else ActiveMembers(ms)[j]
  {
    if ms != [] {
      var ms' := SetRemainderFlag(ms, id, s);
      ActiveAfterSetFlag(ms[1..], id, s);
      assert ms'[1..] == SetRemainderFlag(ms[1..], id, s);
      assert ms'[0].isActive == ms[0].isActive && ms'[0].name == ms[0].name;
    }
  }

  /** Clearing the active rows' flags clears every flag in the active list and keeps its members. */
  lemma {:induction false} ActiveAfterClear(ms: seq<Member>)
    ensures |ActiveMembers(ClearActiveFlags(ms))| == |ActiveMembers(ms)|
    ensures forall j :: 0 <= j < |ActiveMembers(ms)| ==>
      ActiveMembers(ClearActiveFlags(ms))[j] == ActiveMembers(ms)[j].(paidRemainderInCycle := false)
  {
    if ms != [] {
      var ms' := ClearActiveFlags(ms);
      ActiveAfterClear(ms[1..]);
      assert ms'[1..] == ClearActiveFlags(ms[1..]);
      assert ms'[0].isActive == ms[0].isActive && ms'[0].name == ms[0].name;
    }
  }

  /**
   * After the reset of a full cycle somebody in the active list has a clear
   * flag, and the first such member is the remainder's taker: resetting and
   * then scanning the active list, as `record_expense` does, finds it.
   */
  lemma ClearedHasUnpaid(ms: seq<Member>)
    requires ActiveMembers(ms) != []
    ensures !AllPaid(ActiveMembers(ClearedIfAllPaid(ms)))
    ensures RemainderAssignee(ms) == ActiveMembers(ClearedIfAllPaid(ms))[FirstUnpaid(ActiveMembers(ClearedIfAllPaid(ms)))]
  {
    if AllPaid(ActiveMembers(ms)) {
      ActiveAfterClear(ms);
      var cleared := ActiveMembers(ClearActiveFlags(ms));
      assert !cleared[0].paidRemainderInCycle;
      assert FirstUnpaid(cleared) == 0;
    }
  }

  ghost predicate SameIds(a: seq<Member>, b: seq<Member>)
  {
    |a| == |b| && forall j :: 0 <= j < |a| ==> a[j].id == b[j].id
  }

  /** In a table whose ids are row positions, the active members come in strictly increasing id order. */
  lemma ActiveIdsIncreasing(ms: seq<Member>)
    requires MemberIds(ms)
    ensures IdsIncreasing(ActiveMembers(ms))
  {
    assert IdsIncreasing(ms);
    ActiveMembersOrdered(ms);
  }

  // ---------------------------------------------------------------------------
  // The remainder step
  // ---------------------------------------------------------------------------

  /**
   * While some active member has a clear flag, the remainder goes to the active
   * member with the lowest id whose flag is clear.
   */
  lemma RemainderGoesToFirstUnpaid(ms: seq<Member>)
    requires MemberIds(ms)
    requires !AllPaid(ActiveMembers(ms))
    ensures RemainderAssignee(ms) in ActiveMembers(ms)
    ensures !RemainderAssignee(ms).paidRemainderInCycle
    ensures forall m :: m in ActiveMembers(ms) && !m.paidRemainderInCycle ==> RemainderAssignee(ms).id <= m.id
  {
    ActiveIdsIncreasing(ms);
    FirstUnpaidIsLowest(ActiveMembers(ms));
  }

  /** In a list ordered by id, the first member with a clear flag has the lowest id among those with a clear flag. */
  lemma FirstUnpaidIsLowest(a: seq<Member>)
    requires IdsIncreasing(a) && !AllPaid(a)
    ensures forall m :: m in a && !m.paidRemainderInCycle ==> a[FirstUnpaid(a)].id <= m.id
  {
    var k := FirstUnpaid(a);
    forall m | m in a && !m.paidRemainderInCycle
      ensures a[k].id <= m.id
    {
      var j :| 0 <= j < |a| && a[j] == m;
      assert k <= j;
    }
  }

  /** While some active member has a clear flag, the taker's flag is the only thing in the table that changes. */
  lemma FlagsWhileUnpaid(ms: seq<Member>)
    requires !AllPaid(ActiveMembers(ms))
    ensures |FlagsAfterRemainder(ms)| == |ms|
    ensures forall i :: 0 <= i < |ms| ==>
      FlagsAfterRemainder(ms)[i] ==
        if ms[i].id == RemainderAssignee(ms).id then ms[i].(paidRemainderInCycle := true) else ms[i]
  {
    assert ClearedIfAllPaid(ms) == ms;
  }

  /** Once every active member has taken a remainder, the remainder goes to the active member with the lowest id. */
  lemma RemainderAfterFullCycle(ms: seq<Member>)
    requires MemberIds(ms)
    requires ActiveMembers(ms) != [] && AllPaid(ActiveMembers(ms))
    ensures RemainderAssignee(ms).id == ActiveMembers(ms)[0].id
    ensures forall m :: m in ActiveMembers(ms) ==> RemainderAssignee(ms).id <= m.id
  {
    ActiveIdsIncreasing(ms);
    HeadIsLowest(ActiveMembers(ms));
  }

  /** In a non-empty list ordered by id, the head has the lowest id. */
  lemma HeadIsLowest(a: seq<Member>)
    requires IdsIncreasing(a) && a != []
    ensures forall m :: m in a ==> a[0].id <= m.id
  {
    forall m | m in a
      ensures a[0].id <= m.id
    {
      var j :| 0 <= j < |a| && a[j] == m;
    }
  }

  /**
   * Once every active member has taken a remainder, all active flags are
   * cleared and then the taker's is set, so it is the only active flag left
   * set; inactive rows are untouched.
   */
  lemma FlagsAfterFullCycle(ms: seq<Member>)
    requires MemberIds(ms)
    requires ActiveMembers(ms) != [] && AllPaid(ActiveMembers(ms))
    ensures |FlagsAfterRemainder(ms)| == |ms|
    ensures forall i :: 0 <= i < |ms| ==>
      FlagsAfterRemainder(ms)[i] ==
        if ms[i].isActive then ms[i].(paidRemainderInCycle := ms[i].id == ActiveMembers(ms)[0].id) else ms[i]
  {
    var a := ActiveMembers(ms);
    ActiveMembersAre(ms);
    assert ClearedIfAllPaid(ms) == ClearActiveFlags(ms);
    assert a[0] in ms;
    var p :| 0 <= p < |ms| && ms[p] == a[0];
    forall i | 0 <= i < |ms|
      ensures FlagsAfterRemainder(ms)[i] ==
        if ms[i].isActive then ms[i].(paidRemainderInCycle := ms[i].id == a[0].id) else ms[i]
    {
      if ms[i].id == a[0].id {
        assert i == p;
      }
    }
  }

  /** The remainder step keeps row ids and the active members, in order. */
  lemma RemainderKeepsMembers(ms: seq<Member>)
    requires MemberIds(ms) && ActiveMembers(ms) != []
    ensures MemberIds(FlagsAfterRemainder(ms))
    ensures SameIds(ActiveMembers(FlagsAfterRemainder(ms)), ActiveMembers(ms))
  {
    var cleared := ClearedIfAllPaid(ms);
    ActiveAfterClear(ms);
    ActiveAfterSetFlag(cleared, RemainderAssignee(ms).id, true);
  }

  // ---------------------------------------------------------------------------
  // Fairness of the rotation
  // ---------------------------------------------------------------------------

  /** Exactly the first `c` active members have taken a remainder in this cycle. */
  ghost predicate PaidPrefix(a: seq<Member>, c: nat)
  {
    forall j :: 0 <= j < |a| ==> a[j].paidRemainderInCycle == (j < c)
  }

  /**
   * Mid-cycle step: when the first `c < n` active members have paid, the
   * remainder goes to the member at position `c`, and then the first `c + 1`
   * have paid.
   */
  lemma RoundRobinStepMid(ms: seq<Member>, c: nat)
    requires MemberIds(ms) && c < |ActiveMembers(ms)| && PaidPrefix(ActiveMembers(ms), c)
    ensures RemainderAssignee(ms).id == ActiveMembers(ms)[c].id
    ensures PaidPrefix(ActiveMembers(FlagsAfterRemainder(ms)), c + 1)
  {
    var a := ActiveMembers(ms);
    assert !a[c].paidRemainderInCycle;
    RemainderGoesToFirstUnpaid(ms);
    ActiveIdsIncreasing(ms);
    var k := FirstUnpaid(a);
    assert a[k].paidRemainderInCycle == (k < c);
    assert RemainderAssignee(ms) == a[c];
    ActiveAfterSetFlag(ms, a[c].id, true);
    var a' := ActiveMembers(FlagsAfterRemainder(ms));
    forall j | 0 <= j < |a'|
      ensures a'[j].paidRemainderInCycle == (j < c + 1)
    {
      if j != c {
        assert a[j].id != a[c].id;
      }
    }
  }

  /**
   * End-of-cycle step: when all `n` active members have paid, the flags are
   * cleared, the remainder goes to the member at position 0, and then exactly
   * that member has paid.
   */
  lemma RoundRobinStepWrap(ms: seq<Member>)
    requires MemberIds(ms) && ActiveMembers(ms) != []
    requires PaidPrefix(ActiveMembers(ms), |ActiveMembers(ms)|)
    ensures RemainderAssignee(ms).id == ActiveMembers(ms)[0].id
    ensures PaidPrefix(ActiveMembers(FlagsAfterRemainder(ms)), 1)
  {
    var a := ActiveMembers(ms);
    assert AllPaid(a);
    RemainderAfterFullCycle(ms);
    ActiveIdsIncreasing(ms);
    var cl := ClearActiveFlags(ms);
    assert ClearedIfAllPaid(ms) == cl;
    ActiveAfterClear(ms);
    ActiveAfterSetFlag(cl, a[0].id, true);
    var a' := ActiveMembers(FlagsAfterRemainder(ms));
    forall j | 0 <= j < |a'|
      ensures a'[j].paidRemainderInCycle == (j < 1)
    {
      if j != 0 {
        assert a[0].id < a[j].id;
      }
    }
  }

  /** The taker of the next remainder: position `c` mid-cycle, the head of the list once the cycle is complete. */
  lemma RoundRobinTaker(ms: seq<Member>, c: nat)
    requires MemberIds(ms) && ActiveMembers(ms) != []
    requires c <= |ActiveMembers(ms)| && PaidPrefix(ActiveMembers(ms), c)
    ensures RemainderAssignee(ms).id == ActiveMembers(ms)[if c < |ActiveMembers(ms)| then c else 0].id
  {
    if c < |ActiveMembers(ms)| {
      RoundRobinStepMid(ms, c);
    } else {
      RoundRobinStepWrap(ms);
    }
  }

  /** After one remainder step from a paid prefix `c`, the paid prefix moves on by one place of the cycle and the ids stay put. */
  lemma RoundRobinAdvance(ms: seq<Member>, c: nat)
    requires MemberIds(ms) && ActiveMembers(ms) != []
    requires c <= |ActiveMembers(ms)| && PaidPrefix(ActiveMembers(ms), c)
    ensures MemberIds(FlagsAfterRemainder(ms))
    ensures SameIds(ActiveMembers(FlagsAfterRemainder(ms)), ActiveMembers(ms))
    ensures PaidPrefix(ActiveMembers(FlagsAfterRemainder(ms)), if c < |ActiveMembers(ms)| then c + 1 else 1)
  {
    RemainderKeepsMembers(ms);
    if c < |ActiveMembers(ms)| {
      RoundRobinStepMid(ms, c);
    } else {
      RoundRobinStepWrap(ms);
    }
  }

  /** A non-zero multiple of a positive number is at least that number away from zero. */
  lemma MulAwayFromZero(d: int, n: int)
    requires n > 0
    ensures d >= 1 ==> d * n >= n
    ensures d <= -1 ==> d * n <= -n
  {
  }

  /** Euclidean division leaves a unique remainder. */
  lemma ModUnique(a: int, n: int, q: int, r: int)
    requires n > 0 && 0 <= r < n && a == q * n + r
    ensures a % n == r
  {
    var q', r' := a / n, a % n;
    assert a == q' * n + r';
    assert (q - q') * n == r' - r;
    MulAwayFromZero(q - q', n);
  }

  /** Adding the modulus does not change the residue. */
  lemma ModShift(k: nat, n: nat)
    requires n > 0
    ensures (n + k) % n == k % n
  {
    ModUnique(n + k, n, k / n + 1, k % n);
  }

  /** The taker's position in RoundRobinTaker is `c mod n`. */
  lemma StartPosition(c: nat, n: nat)
    requires 0 < n && c <= n
    ensures c % n == if c < n then c else 0
  {
    if c < n {
      ModUnique(c, n, 0, c);
    } else {
      ModUnique(c, n, 1, 0);
    }
  }

  /** Advancing the paid prefix by one place of the cycle and taking one step fewer lands on the same position. */
  lemma NextPosition(c: nat, c': nat, k: nat, n: nat)
    requires 0 < n && c <= n && 0 < k
    requires c' == if c < n then c + 1 else 1
    ensures (c' + (k - 1)) % n == (c + k) % n
  {
    if c == n {
      ModShift(k, n);
    }
  }

  /** Each table of `run` is the table before it after one expense that leaves a remainder. */
  ghost predicate RemainderRun(run: seq<seq<Member>>)
  {
    forall i :: 0 <= i < |run| - 1 ==> ActiveMembers(run[i]) != [] && run[i + 1] == FlagsAfterRemainder(run[i])
  }

  /** A taker found at position `(c' + (i - 1)) mod n` one step later sits at `(c + i) mod n` of the original list. */
  lemma ShiftTaker(a0: seq<Member>, a1: seq<Member>, ai: seq<Member>, taker: Member, c: nat, c': nat, i: nat)
    requires a0 != [] && c <= |a0| && c' == (if c < |a0| then c + 1 else 1) && 0 < i
    requires SameIds(a1, a0) && SameIds(ai, a1)
    requires taker.id == a1[(c' + (i - 1)) % |a1|].id
    ensures SameIds(ai, a0)
    ensures taker.id == a0[(c + i) % |a0|].id
  {
    NextPosition(c, c', i, |a0|);
  }

  /**
   * Fairness of the rotation: when the first `c` of the `n` active members have
   * taken a remainder in this cycle, and `run` is the sequence of tables over
   * further expenses that each leave a remainder, the `i`-th of those expenses
   * hands its remainder to the member at position `(c + i) mod n` of the active
   * list, and the active members stay the same throughout.
   */
  lemma {:induction false} RoundRobinFairness(run: seq<seq<Member>>, c: nat)
    requires run != [] && MemberIds(run[0]) && ActiveMembers(run[0]) != []
    requires c <= |ActiveMembers(run[0])| && PaidPrefix(ActiveMembers(run[0]), c)
    requires RemainderRun(run)
    ensures forall i :: 0 <= i < |run| ==> MemberIds(run[i])
    ensures forall i :: 0 <= i < |run| ==> SameIds(ActiveMembers(run[i]), ActiveMembers(run[0]))
    ensures forall i :: 0 <= i < |run| ==>
      ActiveMembers(run[i]) != [] &&
      RemainderAssignee(run[i]).id == ActiveMembers(run[0])[(c + i) % |ActiveMembers(run[0])|].id
    decreases |run|
  {
    var n := |ActiveMembers(run[0])|;
    RoundRobinTaker(run[0], c);
    StartPosition(c, n);
    if |run| > 1 {
      RoundRobinAdvance(run[0], c);
      var c' := if c < n then c + 1 else 1;
      var rest := run[1..];
      assert RemainderRun(rest) by {
        forall i | 0 <= i < |rest| - 1
          ensures ActiveMembers(rest[i]) != [] && rest[i + 1] == FlagsAfterRemainder(rest[i])
        {
          assert rest[i] == run[i + 1] && rest[i + 1] == run[i + 2];
        }
      }
      RoundRobinFairness(rest, c');
      forall i | 0 < i < |run|
        ensures MemberIds(run[i]) && SameIds(ActiveMembers(run[i]), ActiveMembers(run[0]))
        ensures ActiveMembers(run[i]) != [] && RemainderAssignee(run[i]).id == ActiveMembers(run[0])[(c + i) % n].id
      {
        assert run[i] == rest[i - 1];
        ShiftTaker(ActiveMembers(run[0]), ActiveMembers(rest[0]), ActiveMembers(run[i]), RemainderAssignee(run[i]), c, c', i);
      }
    }
  }

  /** Two different steps within one cycle land on different positions. */
  lemma CyclePositionsDistinct(c: nat, i1: nat, i2: nat, n: nat)
    requires 0 < n && i1 < i2 < n
    ensures (c + i1) % n != (c + i2) % n
  {
    var q1, q2 := (c + i1) / n, (c + i2) / n;
    assert c + i1 == q1 * n + (c + i1) % n;
    assert c + i2 == q2 * n + (c + i2) % n;
    if (c + i1) % n == (c + i2) % n {
      assert (q2 - q1) * n == i2 - i1;
      MulAwayFromZero(q2 - q1, n);
    }
  }

  /** The step, within one cycle, that lands on position `j`. */
  function CycleOffset(c: nat, j: nat, n: nat): (i: nat)
    requires 0 < n && c <= n && j < n
    ensures i < n && (c + i) % n == j
  {
    if c <= j then
      ModUnique(c + (j - c), n, 0, j);
      j - c
    else
      ModUnique(c + (j + n - c), n, 1, j);
      j + n - c
  }

  /** In a list ordered by id, different positions hold different ids. */
  lemma DistinctPositionsDistinctIds(a: seq<Member>, p1: nat, p2: nat)
    requires IdsIncreasing(a) && p1 < |a| && p2 < |a| && p1 != p2
    ensures a[p1].id != a[p2].id
  {
  }

  /**
   * Within `n` consecutive expenses that each leave a remainder, where `n` is
   * the number of active members, no member takes the remainder twice.
   */
  lemma NoMemberTwicePerCycle(run: seq<seq<Member>>, c: nat, i1: nat, i2: nat)
    requires run != [] && MemberIds(run[0]) && ActiveMembers(run[0]) != []
    requires c <= |ActiveMembers(run[0])| && PaidPrefix(ActiveMembers(run[0]), c)
    requires RemainderRun(run)
    requires i1 < i2 < |run| && i2 < |ActiveMembers(run[0])|
    ensures ActiveMembers(run[i1]) != [] && ActiveMembers(run[i2]) != []
    ensures RemainderAssignee(run[i1]).id != RemainderAssignee(run[i2]).id
  {
    var a := ActiveMembers(run[0]);
    var n := |a|;
    RoundRobinFairness(run, c);
    ActiveIdsIncreasing(run[0]);
    CyclePositionsDistinct(c, i1, i2, n);
    DistinctPositionsDistinctIds(a, (c + i1) % n, (c + i2) % n);
  }

  /**
   * Over any `n` consecutive expenses that each leave a remainder, where `n` is
   * the number of active members, every active member takes the remainder:
   * the member at position `j` of the active list takes it at step
   * `CycleOffset(c, j, n)`.
   */
  lemma EveryMemberOncePerCycle(run: seq<seq<Member>>, c: nat, j: nat)
    requires run != [] && MemberIds(run[0]) && ActiveMembers(run[0]) != []
    requires c <= |ActiveMembers(run[0])| && PaidPrefix(ActiveMembers(run[0]), c)
    requires RemainderRun(run) && |ActiveMembers(run[0])| <= |run|
    requires j < |ActiveMembers(run[0])|
    ensures ActiveMembers(run[CycleOffset(c, j, |ActiveMembers(run[0])|)]) != []
    ensures RemainderAssignee(run[CycleOffset(c, j, |ActiveMembers(run[0])|)]).id == ActiveMembers(run[0])[j].id
  {
    var n := |ActiveMembers(run[0])|;
    var k := CycleOffset(c, j, n);
    RoundRobinFairness(run, c);
    assert RemainderAssignee(run[k]).id == ActiveMembers(run[0])[(c + k) % n].id;
  }
}
