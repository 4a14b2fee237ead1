/**
 * The table helpers of src/divvy/cli.py: the terminal width of a string (wide
 * East-Asian characters take two columns), padding to a width, and the running
 * public-fund balance shown in the period view.
 */
module Display {
  import opened Common
  import opened Store
  import opened Balances

  // ---------------------------------------------------------------------------
  // _get_display_width (cli.py:5-28)
  // ---------------------------------------------------------------------------

  /** The code-point test of `_get_display_width`: above U+1100 and in one of the listed blocks. */
  predicate IsWide(c: char)
  {
    var o := c as int;
    o > 0x1100 &&
    ((0x2E80 <= o <= 0x9FFF) || (0xAC00 <= o <= 0xD7AF) || (0x3040 <= o <= 0x309F)
     || (0x30A0 <= o <= 0x30FF) || o > 0xFF00)
  }

  /** The columns one character takes. */
  function CharWidth(c: char): (w: nat)
    ensures w == 1 || w == 2
    ensures c as int <= 0x1100 ==> w == 1
    ensures 0x1100 < c as int < 0x2E80 ==> w == 1
    ensures 0x2E80 <= c as int <= 0x9FFF ==> w == 2
    ensures 0xAC00 <= c as int <= 0xD7AF ==> w == 2
    ensures c as int > 0xFF00 ==> w == 2
    ensures 0x9FFF < c as int < 0xAC00 ==> w == 1
    ensures 0xD7AF < c as int <= 0xFF00 ==> w == 1
  {
    if IsWide(c) then 2 else 1
  }

  /** The columns a string takes: the sum of its characters' widths. */
  function Width(s: string): nat
  {
    if s == [] then 0 else Width(s[..|s| - 1]) + CharWidth(s[|s| - 1])
  }

  /** A string takes at least one column per character and at most two. */
  lemma {:induction false} WidthBounds(s: string)
    ensures |s| <= Width(s) <= 2 * |s|
  {
    if s != [] {
      WidthBounds(s[..|s| - 1]);
    }
  }

  /** Width adds up over concatenation. */
  lemma {:induction false} WidthAppend(a: string, b: string)
    ensures Width(a + b) == Width(a) + Width(b)
    decreases |b|
  {
    if b != [] {
      assert (a + b)[..|a + b| - 1] == a + b[..|b| - 1];
      WidthAppend(a, b[..|b| - 1]);
    } else {
      assert a + b == a;
    }
  }

  /** A string of plain characters (none above U+1100) takes one column per character. */
  lemma {:induction false} WidthNarrow(s: string)
    requires forall i :: 0 <= i < |s| ==> s[i] as int <= 0x1100
    ensures Width(s) == |s|
  {
    if s != [] {
      WidthNarrow(s[..|s| - 1]);
    }
  }

  /** Blanks take one column each. */
  lemma WidthSpaces(n: nat)
    ensures Width(Spaces(n)) == n
  {
    WidthNarrow(Spaces(n));
  }

  /** `_get_display_width` as written: a loop adding each character's columns. */
  method GetDisplayWidth(text: string) returns (width: nat)
    ensures width == Width(text)
    ensures |text| <= width <= 2 * |text|
  {
    width := 0;
    var i := 0;
    while i < |text|
      invariant 0 <= i <= |text|
      invariant width == Width(text[..i])
    {
      var ch := text[i];
      var o := ch as int;
      if o > 0x1100 {
        if (0x2E80 <= o <= 0x9FFF) || (0xAC00 <= o <= 0xD7AF) || (0x3040 <= o <= 0x309F)
           || (0x30A0 <= o <= 0x30FF) || o > 0xFF00 {
          width := width + 2;
        } else {
          width := width + 1;
        }
      } else {
        width := width + 1;
      }
      assert text[..i + 1][..i] == text[..i];
      i := i + 1;
    }
    assert text[..i] == text;
    WidthBounds(text);
  }

  // ---------------------------------------------------------------------------
  // _pad_to_display_width (cli.py:31-51)
  // ---------------------------------------------------------------------------

  /** `r` is `text` with `left` blanks before it and `right` blanks after it. */
  predicate PaddedWith(r: string, text: string, left: nat, right: nat)
  {
    && |r| == left + |text| + right
    && r[left..left + |text|] == text
    && (forall i :: 0 <= i < left ==> r[i] == ' ')
    && (forall i :: left + |text| <= i < |r| ==> r[i] == ' ')
  }

  /**
   * `_pad_to_display_width`: a string already at least `target` columns wide is
   * returned as is; otherwise blanks make up the difference, after the text for
   * "<" and any unknown alignment, before it for ">", and split with the odd
   * blank on the right for "^".
   */
  function PadToDisplayWidth(text: string, target: int, align: string := "<"): (r: string)
    ensures Width(text) >= target ==> r == text
    ensures Width(text) < target ==> Width(r) == target
    ensures Width(text) < target && align == ">" ==> PaddedWith(r, text, target - Width(text), 0)
    ensures Width(text) < target && align == "^" ==>
      var pad := target - Width(text);
      PaddedWith(r, text, pad / 2, pad - pad / 2) && 0 <= (pad - pad / 2) - pad / 2 <= 1
    ensures Width(text) < target && align != ">" && align != "^" ==> PaddedWith(r, text, 0, target - Width(text))
  {
    var current := Width(text);
    if current >= target then text
    else
      var pad := target - current;
      // "<" and any alignment the source does not know put every blank on the right
      if align == ">" then Padded(text, pad, 0)
      else if align == "^" then Padded(text, pad / 2, pad - pad / 2)
      else Padded(text, 0, pad)
  }

  /** `left` blanks, the text, `right` blanks. */
  function Padded(text: string, left: nat, right: nat): (r: string)
    ensures Width(r) == left + Width(text) + right
    ensures PaddedWith(r, text, left, right)
  {
    PadWidth(text, left, right);
    PadLayout(text, left, right);
    Spaces(left) + text + Spaces(right)
  }

  /** Blanks around a text keep the text in place, with only blanks around it. */
  lemma PadLayout(text: string, left: nat, right: nat)
    ensures PaddedWith(Spaces(left) + text + Spaces(right), text, left, right)
  {
    var l, rt := Spaces(left), Spaces(right);
    var r := l + text + rt;
    assert r[left..left + |text|] == text;
    forall i | 0 <= i < left ensures r[i] == ' ' {
      assert r[i] == l[i];
    }
    forall i | left + |text| <= i < |r| ensures r[i] == ' ' {
      assert r[i] == rt[i - left - |text|];
    }
  }

  /** Blanks around a text add their count to its width. */
  lemma PadWidth(text: string, left: nat, right: nat)
    ensures Width(Spaces(left) + text + Spaces(right)) == left + Width(text) + right
  {
    WidthAppend(Spaces(left), text);
    WidthAppend(Spaces(left) + text, Spaces(right));
    WidthSpaces(left);
    WidthSpaces(right);
  }

  /** Padding to a width the text already has, or to the padded result's own width, changes nothing. */
  lemma PadIdempotent(text: string, target: int, align: string)
    ensures PadToDisplayWidth(PadToDisplayWidth(text, target, align), target, align) == PadToDisplayWidth(text, target, align)
  {
  }

  // ---------------------------------------------------------------------------
  // The public-fund balance of the period view (cli.py:214-227)
  // ---------------------------------------------------------------------------

  /**
   * One row's effect on the fund: a deposit whose payer is the fund row adds
   * its amount; an expense whose payer is a system member draws
   * `min(amount, fund)`; anything else leaves the fund alone.
   */
  function FundStep(fund: int, t: Transaction, fundRow: Option<Member>, ms: seq<Member>): (r: int)
    ensures t.kind.Expense? && IsVirtualMember(PayerRow(t, ms)) ==> fund - r == Min(t.amount, fund)
    ensures t.kind.Expense? && !IsVirtualMember(PayerRow(t, ms)) ==> r == fund
    ensures t.kind.Expense? && fund >= 0 ==> r >= 0
    ensures t.kind.Expense? && fund >= 0 && t.amount >= 0 ==> r <= fund
    ensures t.kind.Deposit? && (fundRow.None? || PayerOf(t) != Some(fundRow.value.id)) ==> r == fund
    ensures t.kind.Deposit? && fundRow.Some? && PayerOf(t) == Some(fundRow.value.id) ==> r == fund + t.amount
    ensures t.kind.OtherKind? ==> r == fund
  {
    match t.kind
    case Deposit =>
      if PayerOf(t).Some? && fundRow.Some? && PayerOf(t).value == fundRow.value.id then fund + t.amount else fund
    case Expense =>
      if IsVirtualMember(PayerRow(t, ms)) then fund - Min(t.amount, fund) else fund
    case OtherKind(_) => fund
  }

  /** `get_member_by_id(payer_id) if payer_id else None`. */
  function PayerRow(t: Transaction, ms: seq<Member>): Option<Member>
  {
    if PayerOf(t).Some? then FindMemberById(ms, PayerOf(t).value) else None
  }

  /** The fund after a period's rows, starting from zero. */
  function FundFold(txs: seq<Transaction>, fundRow: Option<Member>, ms: seq<Member>): int
  {
    if txs == [] then 0 else FundStep(FundFold(txs[..|txs| - 1], fundRow, ms), txs[|txs| - 1], fundRow, ms)
  }

  /** The deposits paid into the fund row. */
  function FundDeposits(txs: seq<Transaction>, fundRow: Option<Member>): int
  {
    if txs == [] then 0
    else
      var t := txs[|txs| - 1];
      FundDeposits(txs[..|txs| - 1], fundRow)
      + (if t.kind.Deposit? && fundRow.Some? && PayerOf(t) == Some(fundRow.value.id) then t.amount else 0)
  }

  /** No row paid into the fund is negative and no system expense is negative. */
  ghost predicate FundRowsNonNegative(txs: seq<Transaction>, fundRow: Option<Member>)
  {
    forall i :: 0 <= i < |txs| && (txs[i].kind.Deposit? || txs[i].kind.Expense?) ==>
      (txs[i].kind.Deposit? && fundRow.Some? && PayerOf(txs[i]) == Some(fundRow.value.id) ==> txs[i].amount >= 0)
      && (txs[i].kind.Expense? ==> txs[i].amount >= 0)
  }

  /** No row paid into the fund row is negative. */
  ghost predicate FundDepositsNonNegative(txs: seq<Transaction>, fundRow: Option<Member>)
  {
    forall i :: 0 <= i < |txs| && txs[i].kind.Deposit? && fundRow.Some? && PayerOf(txs[i]) == Some(fundRow.value.id) ==>
      txs[i].amount >= 0
  }

  /**
   * The fund shown is never negative provided nothing paid into it is
   * negative, whatever the expenses: a draw takes `min(amount, fund)`, which
   * is never more than the fund, and a negative expense only adds to it.
   */
  lemma {:induction false} FundNonNegative(txs: seq<Transaction>, fundRow: Option<Member>, ms: seq<Member>)
    requires FundDepositsNonNegative(txs, fundRow)
    ensures 0 <= FundFold(txs, fundRow, ms)
  {
    if txs != [] {
      var init := txs[..|txs| - 1];
      assert FundDepositsNonNegative(init, fundRow) by {
        forall i | 0 <= i < |init| ensures init[i] == txs[i] { }
      }
      FundNonNegative(init, fundRow, ms);
    }
  }

  /**
   * The fund shown is never more than was paid into it (nor negative),
   * provided nothing paid into it and no expense is negative: a negative
   * expense drawn from the fund would add to it beyond the deposits.
   */
  lemma {:induction false} FundWithinDeposits(txs: seq<Transaction>, fundRow: Option<Member>, ms: seq<Member>)
    requires FundRowsNonNegative(txs, fundRow)
    ensures 0 <= FundFold(txs, fundRow, ms) <= FundDeposits(txs, fundRow)
  {
    if txs != [] {
      var init := txs[..|txs| - 1];
      assert FundRowsNonNegative(init, fundRow) by {
        forall i | 0 <= i < |init| ensures init[i] == txs[i] { }
      }
      FundWithinDeposits(init, fundRow, ms);
    }
  }

  /** Without any system member paying, the fund is exactly what was paid into it. */
  lemma {:induction false} FundWithoutDraws(txs: seq<Transaction>, fundRow: Option<Member>, ms: seq<Member>)
    requires forall i :: 0 <= i < |txs| && txs[i].kind.Expense? ==> !IsVirtualMember(PayerRow(txs[i], ms))
    ensures FundFold(txs, fundRow, ms) == FundDeposits(txs, fundRow)
  {
    if txs != [] {
      var init := txs[..|txs| - 1];
      forall i | 0 <= i < |init| ensures init[i] == txs[i] { }
      FundWithoutDraws(init, fundRow, ms);
    }
  }

  /**
   * The fund loop of `_display_view_period`: the fund row is looked up by its
   * reserved name once, then each row of the period is applied in order.
   */
  method PublicFundBalance(db: Database, transactions: seq<Transaction>) returns (fund: int)
    ensures fund == FundFold(transactions, FindMemberByName(db.members, VirtualMemberName), db.members)
  {
    var fundRow := FindMemberByName(db.members, VirtualMemberName);
    fund := 0;
    var i := 0;
    while i < |transactions|
      invariant 0 <= i <= |transactions|
      invariant fund == FundFold(transactions[..i], fundRow, db.members)
    {
      var tx := transactions[i];
      if tx.kind == Deposit {
        if PayerOf(tx).Some? && fundRow.Some? && PayerOf(tx).value == fundRow.value.id {
          fund := fund + tx.amount;
        }
      } else if tx.kind == Expense {
        var payer := if PayerOf(tx).Some? then FindMemberById(db.members, PayerOf(tx).value) else None;
        if IsVirtualMember(payer) {
          var fundUsed := Min(tx.amount, fund);
          fund := fund - fundUsed;
        }
      }
      assert transactions[..i + 1][..i] == transactions[..i];
      i := i + 1;
    }
    assert transactions[..i] == transactions;
  }
}
