/** The records of an extracted statement: transactions, their closed set
    of categories, calendar dates, and the statement with its per-category
    views and summary counts. Amounts are whole cents. */
module Models {
  import opened Wrappers

  /** The three categories; the enum's values are the strings of TypeValue. */
  datatype TransactionType = Check | Withdrawal | Deposit

  function TypeValue(t: TransactionType): string {
    match t
    case Check => "check"
    case Withdrawal => "withdrawal"
    case Deposit => "deposit"
  }

  datatype Date = Date(year: int, month: int, day: int)

  predicate IsLeapYear(y: int) {
    y % 4 == 0 && (y % 100 != 0 || y % 400 == 0)
  }

  function DaysInMonth(y: int, m: int): int
    requires 1 <= m <= 12
  {
    if m == 2 then (if IsLeapYear(y) then 29 else 28)
    else if m == 4 || m == 6 || m == 9 || m == 11 then 30
    else 31
  }

  /** The arguments for which `datetime.date(y, m, d)` does not raise
      ValueError (years 1 to 9999, the proleptic Gregorian calendar). */
  predicate IsValidDate(y: int, m: int, d: int) {
    1 <= y <= 9999 && 1 <= m <= 12 && 1 <= d <= DaysInMonth(y, m)
  }

  /** A transaction; the last three fields are filled in by lender tagging. */
  datatype Transaction = Transaction(
    date: Date,
    description: string,
    amount: int,
    txnType: TransactionType,
    checkNumber: Option<int>,
    lenderMatches: Option<seq<string>>,
    isLenderTransfer: bool,
    isLenderPayment: bool)

  /** A transaction as the extraction code constructs one: the lender
      fields take their declared defaults. */
  function NewTransaction(date: Date, description: string, amount: int,
                          txnType: TransactionType, checkNumber: Option<int>): (t: Transaction)
    ensures t.lenderMatches.None? && !t.isLenderTransfer && !t.isLenderPayment
    ensures t.date == date && t.description == description && t.amount == amount
    ensures t.txnType == txnType && t.checkNumber == checkNumber
  {
    Transaction(date, description, amount, txnType, checkNumber, None, false, false)
  }

  /** The validation the model declares on `amount`: never negative. */
  predicate ValidTransaction(t: Transaction) {
    t.amount >= 0
  }

  datatype BankStatement = BankStatement(
    bankName: string,
    accountNumber: Option<string>,
    periodStart: Option<Date>,
    periodEnd: Option<Date>,
    transactions: seq<Transaction>)

  /** The transactions of one category, in their original order. */
  function OfType(ts: seq<Transaction>, ty: TransactionType): (r: seq<Transaction>)
    ensures |r| <= |ts|
  {
    if |ts| == 0 then []
    else (if ts[0].txnType == ty then [ts[0]] else []) + OfType(ts[1..], ty)
  }

  /** A view holds exactly the transactions of its category. */
  lemma {:induction false} OfTypeMembers(ts: seq<Transaction>, ty: TransactionType, t: Transaction)
    ensures t in OfType(ts, ty) <==> t in ts && t.txnType == ty
  {
    if |ts| > 0 {
      OfTypeMembers(ts[1..], ty, t);
      assert t in ts <==> t == ts[0] || t in ts[1..] by {
        assert ts == [ts[0]] + ts[1..];
      }
    }
  }

  /** Filtering keeps order: the view of a concatenation is the
      concatenation of the views. */
  lemma {:induction false} OfTypeAppend(a: seq<Transaction>, b: seq<Transaction>, ty: TransactionType)
    ensures OfType(a + b, ty) == OfType(a, ty) + OfType(b, ty)
  {
    if |a| > 0 {
      var head := if a[0].txnType == ty then [a[0]] else [];
      assert OfType(a + b, ty) == head + OfType(a[1..] + b, ty) by {
        assert (a + b)[0] == a[0] && (a + b)[1..] == a[1..] + b;
      }
      OfTypeAppend(a[1..], b, ty);
    } else {
      assert a + b == b;
    }
  }

  /** Every transaction is in exactly one of the three views. */
  lemma {:induction false} OfTypePartition(ts: seq<Transaction>)
    ensures |OfType(ts, Check)| + |OfType(ts, Withdrawal)| + |OfType(ts, Deposit)| == |ts|
  {
    if |ts| > 0 {
      OfTypePartition(ts[1..]);
    }
  }

  /** `BankStatement.checks`. */
  function Checks(st: BankStatement): seq<Transaction> {
    OfType(st.transactions, Check)
  }

  /** `BankStatement.withdrawals`. */
  function Withdrawals(st: BankStatement): seq<Transaction> {
    OfType(st.transactions, Withdrawal)
  }

  /** `BankStatement.deposits`. */
  function Deposits(st: BankStatement): seq<Transaction> {
    OfType(st.transactions, Deposit)
  }

  datatype Summary = Summary(
    bankName: string,
    totalTransactions: nat,
    checks: nat,
    withdrawals: nat,
    deposits: nat)

  /** `BankStatement.summary()`: each category count is the size of its
      view, and the three add up to the total. */
  function StatementSummary(st: BankStatement): (r: Summary)
    ensures r.bankName == st.bankName && r.totalTransactions == |st.transactions|
    ensures r.checks == |Checks(st)| && r.withdrawals == |Withdrawals(st)| && r.deposits == |Deposits(st)|
    ensures r.checks + r.withdrawals + r.deposits == r.totalTransactions
  {
    OfTypePartition(st.transactions);
    Summary(st.bankName, |st.transactions|,
            |Checks(st)|, |Withdrawals(st)|, |Deposits(st)|)
  }
}
