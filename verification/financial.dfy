/**
 * The financial dashboard: the month's transactions as filtered by the
 * selected tab, the four summary totals and the balance, and the
 * "mark as paid" action. The month range and the tab's type filter run
 * as part of the query; they are modelled as predicates applied to the
 * fetched rows, with the month test supplied by the caller.
 */
module Financial {
  import opened Optional
  import Seqs

  datatype TxType = Income | Expense
  datatype TxStatus = Pending | Paid | Overdue | Cancelled

  datatype Transaction = Transaction(id: string, kind: TxType, status: TxStatus, amount: real,
                                     dueDate: string, paymentDate: Option<string>)

  function StatusLabel(s: TxStatus): (r: string)
    ensures r == "Pendente" <==> s == Pending
    ensures r == "Pago" <==> s == Paid
    ensures r == "Atrasado" <==> s == Overdue
    ensures r == "Cancelado" <==> s == Cancelled
  {
    match s
    case Pending => "Pendente"
    case Paid => "Pago"
    case Overdue => "Atrasado"
    case Cancelled => "Cancelado"
  }

  /** The amount column's sign: expenses are shown with a leading "-". */
  function AmountPrefix(t: Transaction): (r: string)
    ensures r == "-" <==> t.kind == Expense
    ensures t.kind == Income ==> r == ""
  {
    if t.kind == Expense then "-" else ""
  }

  // ----------------------------------------------------------- rows

  /** The tab's type filter: "income" and "expenses" narrow, any other tab keeps both types. */
  predicate TabKeeps(tab: string, t: Transaction) {
    if tab == "income" then t.kind == Income
    else if tab == "expenses" then t.kind == Expense
    else true
  }

  /** The rows shown: no data counts as none; then the tab and the month. */
  function Rows(data: Option<seq<Transaction>>, tab: string, inMonth: string -> bool): (r: seq<Transaction>)
    ensures forall t :: t in r <==> data.Some? && t in data.value && TabKeeps(tab, t) && inMonth(t.dueDate)
    ensures data.Some? ==> Seqs.IsSubsequence(r, data.value)
  {
    Seqs.Filter((t: Transaction) => TabKeeps(tab, t) && inMonth(t.dueDate), data.GetOr([]))
  }

  // ----------------------------------------------------------- summary

  predicate IsIncome(t: Transaction) { t.kind == Income }
  predicate IsExpense(t: Transaction) { t.kind == Expense }
  predicate IsPaid(t: Transaction) { t.status == Paid }
  predicate IsPending(t: Transaction) { t.status == Pending }
  predicate IsOverdue(t: Transaction) { t.status == Overdue }

  function Amount(t: Transaction): real { t.amount }

  datatype Summary = Summary(totalIncome: real, totalExpenses: real, pendingIncome: real, overdueIncome: real)

  /**
   * Each total sums the amounts of one type in one status: a total is 0
   * when no row has its type and status, and no total is negative when no
   * amount is.
   */
  function Summarize(rows: seq<Transaction>): (r: Summary)
    ensures (forall t :: t in rows ==> !(IsIncome(t) && IsPaid(t))) ==> r.totalIncome == 0.0
    ensures (forall t :: t in rows ==> !(IsExpense(t) && IsPaid(t))) ==> r.totalExpenses == 0.0
    ensures (forall t :: t in rows ==> !(IsIncome(t) && IsPending(t))) ==> r.pendingIncome == 0.0
    ensures (forall t :: t in rows ==> !(IsIncome(t) && IsOverdue(t))) ==> r.overdueIncome == 0.0
    ensures (forall t :: t in rows ==> t.amount >= 0.0) ==>
      r.totalIncome >= 0.0 && r.totalExpenses >= 0.0 && r.pendingIncome >= 0.0 && r.overdueIncome >= 0.0
  {
    var income := Seqs.Filter(IsIncome, rows);
    var expenses := Seqs.Filter(IsExpense, rows);
    TotalBounds(IsIncome, IsPaid, rows);
    TotalBounds(IsExpense, IsPaid, rows);
    TotalBounds(IsIncome, IsPending, rows);
    TotalBounds(IsIncome, IsOverdue, rows);
    Summary(Seqs.Sum(Amount, Seqs.Filter(IsPaid, income)),
            Seqs.Sum(Amount, Seqs.Filter(IsPaid, expenses)),
            Seqs.Sum(Amount, Seqs.Filter(IsPending, income)),
            Seqs.Sum(Amount, Seqs.Filter(IsOverdue, income)))
  }

  /** One type-and-status total: 0 when no row is selected, non-negative when no amount is negative. */
  lemma TotalBounds(p: Transaction -> bool, q: Transaction -> bool, rows: seq<Transaction>)
    ensures (forall t :: t in rows ==> !(p(t) && q(t))) ==> Seqs.Sum(Amount, Seqs.Filter(q, Seqs.Filter(p, rows))) == 0.0
    ensures (forall t :: t in rows ==> t.amount >= 0.0) ==> Seqs.Sum(Amount, Seqs.Filter(q, Seqs.Filter(p, rows))) >= 0.0
  {
    var selected := Seqs.Filter(p, rows);
    if forall t :: t in rows ==> !(p(t) && q(t)) {
      Seqs.SumOfNothing(Amount, q, selected);
    }
    if forall t :: t in rows ==> t.amount >= 0.0 {
      Seqs.SumNonNegative(Amount, Seqs.Filter(q, selected));
    }
  }

  /** The four totals one row adds. */
  function Contribution(t: Transaction): Summary {
    Summary(if t.kind == Income && t.status == Paid then t.amount else 0.0,
            if t.kind == Expense && t.status == Paid then t.amount else 0.0,
            if t.kind == Income && t.status == Pending then t.amount else 0.0,
            if t.kind == Income && t.status == Overdue then t.amount else 0.0)
  }

  function Plus(a: Summary, b: Summary): Summary {
    Summary(a.totalIncome + b.totalIncome, a.totalExpenses + b.totalExpenses,
            a.pendingIncome + b.pendingIncome, a.overdueIncome + b.overdueIncome)
  }

  /** Reference totals: each row's contribution, added up in one pass. */
  function Tally(rows: seq<Transaction>): Summary
    decreases |rows|
  {
    if |rows| == 0 then Summary(0.0, 0.0, 0.0, 0.0) else Plus(Contribution(rows[0]), Tally(rows[1..]))
  }

  /** The filtered sums agree with the one-pass tally. */
  lemma {:induction false} SummarizeIsTally(rows: seq<Transaction>)
    ensures Summarize(rows) == Tally(rows)
    decreases |rows|
  {
    if |rows| > 0 {
      SummarizeIsTally(rows[1..]);
      FirstRowStep(rows);
    }
  }

  /** The totals of a non-empty list are its first row's contribution plus the rest's totals. */
  lemma FirstRowStep(rows: seq<Transaction>)
    requires |rows| > 0
    ensures Summarize(rows) == Plus(Contribution(rows[0]), Summarize(rows[1..]))
  {
    TotalStep(IsIncome, IsPaid, rows);
    TotalStep(IsExpense, IsPaid, rows);
    TotalStep(IsIncome, IsPending, rows);
    TotalStep(IsIncome, IsOverdue, rows);
  }

  /** One type-and-status total of a non-empty list: the first row's amount if selected, plus the rest's total. */
  lemma TotalStep(p: Transaction -> bool, q: Transaction -> bool, rows: seq<Transaction>)
    requires |rows| > 0
    ensures Seqs.Sum(Amount, Seqs.Filter(q, Seqs.Filter(p, rows)))
      == (if p(rows[0]) && q(rows[0]) then rows[0].amount else 0.0)
       + Seqs.Sum(Amount, Seqs.Filter(q, Seqs.Filter(p, rows[1..])))
  {
    var t, rest := rows[0], Seqs.Filter(p, rows[1..]);
    if p(t) {
      assert Seqs.Filter(p, rows) == [t] + rest;
      assert ([t] + rest)[1..] == rest;
      if q(t) {
        var kept := Seqs.Filter(q, rest);
        assert Seqs.Filter(q, [t] + rest) == [t] + kept;
        assert ([t] + kept)[1..] == kept;
      }
    }
  }

  function Balance(s: Summary): real {
    s.totalIncome - s.totalExpenses
  }

  /** A row's effect on the balance: its amount, signed by type, when paid; nothing otherwise. */
  function SignedPaid(t: Transaction): real {
    if t.status != Paid then 0.0 else if t.kind == Income then t.amount else -t.amount
  }

  /** The balance is the signed sum of the paid rows. */
  lemma {:induction false} BalanceIsSignedSum(rows: seq<Transaction>)
    ensures Balance(Summarize(rows)) == Seqs.Sum(SignedPaid, rows)
    decreases |rows|
  {
    if |rows| > 0 {
      BalanceIsSignedSum(rows[1..]);
      FirstRowStep(rows);
    }
  }

  predicate NotCancelled(t: Transaction) { t.status != Cancelled }

  /** Cancelled transactions contribute to none of the totals. */
  lemma CancelledContributeNothing(rows: seq<Transaction>)
    ensures Summarize(Seqs.Filter(NotCancelled, rows)) == Summarize(rows)
  {
    Seqs.SumFilter2Prefilter(Amount, IsIncome, IsPaid, NotCancelled, rows);
    Seqs.SumFilter2Prefilter(Amount, IsExpense, IsPaid, NotCancelled, rows);
    Seqs.SumFilter2Prefilter(Amount, IsIncome, IsPending, NotCancelled, rows);
    Seqs.SumFilter2Prefilter(Amount, IsIncome, IsOverdue, NotCancelled, rows);
  }

  /** On the income tab no expense is fetched, so the expense total is 0; on the expenses tab the three income totals are 0. */
  lemma TabTotals(data: Option<seq<Transaction>>, inMonth: string -> bool)
    ensures Summarize(Rows(data, "income", inMonth)).totalExpenses == 0.0
    ensures var s := Summarize(Rows(data, "expenses", inMonth));
      s.totalIncome == 0.0 && s.pendingIncome == 0.0 && s.overdueIncome == 0.0
  {
  }

  // ----------------------------------------------------------- mark as paid

  /** The button is shown only on pending rows. */
  predicate MarkAsPaidOffered(t: Transaction) {
    t.status == Pending
  }

  /** After the reload a paid row no longer offers the button. */
  lemma PaidRowNotOffered(t: Transaction, today: string)
    requires MarkAsPaidOffered(t)
    ensures !MarkAsPaidOffered(Applied(t, MarkAsPaid(t, today, true)))
    ensures Applied(t, MarkAsPaid(t, today, true)).paymentDate == Some(today)
  {
  }

  /** The update sent: status paid and today's date as payment date, plus whether the list is reloaded. */
  datatype PaidUpdate = PaidUpdate(id: string, status: TxStatus, paymentDate: string, refetch: bool)

  function MarkAsPaid(t: Transaction, today: string, success: bool): (r: PaidUpdate)
    ensures r.id == t.id && r.status == Paid && r.paymentDate == today
    ensures r.refetch <==> success
  {
    PaidUpdate(t.id, Paid, today, success)
  }

  /** The row as the backend stores it after the update. */
  function Applied(t: Transaction, u: PaidUpdate): Transaction {
    t.(status := u.status, paymentDate := Some(u.paymentDate))
  }

  /**
   * Once a pending income is paid and the list reloads, its amount moves
   * from the pending total to the income total; the expense and overdue
   * totals stay.
   */
  lemma PayingPendingIncome(before: seq<Transaction>, t: Transaction, after: seq<Transaction>, today: string)
    requires MarkAsPaidOffered(t) && t.kind == Income
    ensures var paid := Applied(t, MarkAsPaid(t, today, true));
      var s0 := Summarize(before + [t] + after);
      var s1 := Summarize(before + [paid] + after);
      && s1.totalIncome == s0.totalIncome + t.amount
      && s1.pendingIncome == s0.pendingIncome - t.amount
      && s1.totalExpenses == s0.totalExpenses
      && s1.overdueIncome == s0.overdueIncome
  {
    var paid := Applied(t, MarkAsPaid(t, today, true));
    SplitTotals(before, t, after);
    SplitTotals(before, paid, after);
  }

  /** Each total of `before + [t] + after` is the sum of the three parts' totals. */
  lemma SplitTotals(before: seq<Transaction>, t: Transaction, after: seq<Transaction>)
    ensures var s := Summarize(before + [t] + after);
      var a := Summarize(before);
      var b := Summarize(after);
      && s.totalIncome == a.totalIncome + (if t.kind == Income && t.status == Paid then t.amount else 0.0) + b.totalIncome
      && s.totalExpenses == a.totalExpenses + (if t.kind == Expense && t.status == Paid then t.amount else 0.0) + b.totalExpenses
      && s.pendingIncome == a.pendingIncome + (if t.kind == Income && t.status == Pending then t.amount else 0.0) + b.pendingIncome
      && s.overdueIncome == a.overdueIncome + (if t.kind == Income && t.status == Overdue then t.amount else 0.0) + b.overdueIncome
  {
    SplitOne(IsIncome, IsPaid, before, t, after);
    SplitOne(IsExpense, IsPaid, before, t, after);
    SplitOne(IsIncome, IsPending, before, t, after);
    SplitOne(IsIncome, IsOverdue, before, t, after);
  }

  /** One total, type `p` in status `q`, of `before + [t] + after`. */
  lemma SplitOne(p: Transaction -> bool, q: Transaction -> bool, before: seq<Transaction>, t: Transaction, after: seq<Transaction>)
    ensures Seqs.Sum(Amount, Seqs.Filter(q, Seqs.Filter(p, before + [t] + after)))
      == Seqs.Sum(Amount, Seqs.Filter(q, Seqs.Filter(p, before)))
       + (if p(t) && q(t) then t.amount else 0.0)
       + Seqs.Sum(Amount, Seqs.Filter(q, Seqs.Filter(p, after)))
  {
    Seqs.SumFilter2Append(Amount, p, q, before + [t], after);
    Seqs.SumFilter2Append(Amount, p, q, before, [t]);
    Seqs.SumFilter2Single(Amount, p, q, t);
  }
}
