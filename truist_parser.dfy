/** The Truist statement parser: recognising a Truist statement, reading
    the statement year, account number and period from the first page,
    and assembling the statement from the transaction pages. The pages are
    given as their texts; None stands for a statement that was not opened. */
module TruistParser {
  import opened Wrappers
  import opened Text
  import opened Patterns
  import opened Models
  import opened LineParser
  import opened SectionLocator
  import opened PageClassifier
  import opened StatementSort

  const BankName: string := "Truist"

  /** `can_parse`: "truist" in the lower-cased text of the first page. */
  function CanParse(pages: seq<string>): bool {
    |pages| > 0 && Contains(Lower(pages[0]), "truist")
  }

  /** A statement is recognised exactly when its first page holds "truist"
      in any case ("Truist", "TRUIST", ...). */
  lemma CanParseRule(pages: seq<string>)
    ensures CanParse(pages) <==> |pages| > 0 && exists i :: 0 <= i <= |pages[0]| && LitAt(pages[0], i, "truist", true)
  {
    if |pages| > 0 {
      var s := pages[0];
      var l := Lower(s);
      assert ToLower('t') == 't' && ToLower('r') == 'r' && ToLower('u') == 'u'
             && ToLower('i') == 'i' && ToLower('s') == 's';
      assert forall k :: 0 <= k < 6 ==> ToLower("truist"[k]) == "truist"[k];
      if Contains(l, "truist") {
        var i :| 0 <= i <= |l| - 6 && OccursAt(l, "truist", i);
        LitAtLower(s, i, "truist");
      }
      if exists i :: 0 <= i <= |s| && LitAt(s, i, "truist", true) {
        var i :| 0 <= i <= |s| && LitAt(s, i, "truist", true);
        LitAtLower(s, i, "truist");
      }
    }
  }

  /** Matching a lower-case word without regard to case is finding it in
      the lower-cased text. */
  lemma LitAtLower(s: string, i: nat, w: string)
    requires forall k :: 0 <= k < |w| ==> ToLower(w[k]) == w[k]
    ensures LitAt(s, i, w, true) <==> OccursAt(Lower(s), w, i)
  {
    if i + |w| <= |s| {
      var sub := Lower(s)[i..i + |w|];
      assert forall k :: 0 <= k < |w| ==> sub[k] == ToLower(s[i + k]);
      if LitAt(s, i, w, true) {
        assert sub == w;
      }
    }
  }

  // ---------------------------------------------------------------------
  // Statement year: `For\s*(\d{2}/\d{2}/(\d{4}|\d{2}))`, else `20\d{2}`

  /** The year `For\s*(\d{2}/\d{2}/(\d{4}|\d{2}))` gives at offset i: four
      digits are preferred to two, and two digits yy mean 20yy. "For" is
      matched with its case. */
  function ForYearAt(s: string, i: nat): (r: Option<int>)
    requires i <= |s|
  {
    if LitAt(s, i, "For", false) then
      var j := SkipSpaces(s, i + 3);
      if DateAt(s, j) && j + 6 <= |s| && s[j + 5] == '/' then
        var y := j + 6;
        if y + 4 <= |s| && AllDigits(s[y..y + 4]) then Some(DigitsValue(s[y..y + 4]))
        else if y + 2 <= |s| && AllDigits(s[y..y + 2]) then Some(2000 + DigitsValue(s[y..y + 2]))
        else None
      else None
    else None
  }

  /** The year `20\d{2}` gives at offset i. */
  function Year20At(s: string, i: nat): (r: Option<int>)
    requires i <= |s|
    ensures r.Some? ==> i + 4 <= |s| && r.value == 2000 + 10 * DigitValue(s[i + 2]) + DigitValue(s[i + 3])
    ensures r.Some? ==> 2000 <= r.value <= 2099
  {
    if i + 4 <= |s| && s[i] == '2' && s[i + 1] == '0' && IsDigit(s[i + 2]) && IsDigit(s[i + 3])
    then
      DigitsValueFour(s[i..i + 4]);
      Some(DigitsValue(s[i..i + 4]))
    else None
  }

  /** The result of a pattern at every offset of s, the end included, for
      a leftmost search. */
  function ForYears(s: string): (r: seq<Option<int>>)
    ensures |r| == |s| + 1 && forall i :: 0 <= i <= |s| ==> r[i] == ForYearAt(s, i)
  {
    seq(|s| + 1, i requires 0 <= i <= |s| => ForYearAt(s, i))
  }

  function Years20(s: string): (r: seq<Option<int>>)
    ensures |r| == |s| + 1 && forall i :: 0 <= i <= |s| ==> r[i] == Year20At(s, i)
  {
    seq(|s| + 1, i requires 0 <= i <= |s| => Year20At(s, i))
  }

  /** The year `_extract_metadata` sets from the first page: the leftmost
      "For" date, else the leftmost "20dd", else the current year. */
  function StatementYear(text: string, todayYear: int): int {
    var fy := ForYears(text);
    match FirstSome(fy)
    case Some(i) => fy[i].value
    case None =>
      var ty := Years20(text);
      match FirstSome(ty)
      case Some(i) => ty[i].value
      case None => todayYear
  }

  /** Where the year comes from: the leftmost "For" date when there is
      one; otherwise the leftmost "20dd", a year from 2000 to 2099;
      otherwise the current year. */
  lemma StatementYearRule(text: string, todayYear: int)
    ensures var y := StatementYear(text, todayYear);
            (exists i :: 0 <= i <= |text| && ForYearAt(text, i).Some?) ==>
              exists i :: 0 <= i <= |text| && ForYearAt(text, i) == Some(y)
                          && forall j :: 0 <= j < i ==> ForYearAt(text, j).None?
    ensures var y := StatementYear(text, todayYear);
            ((forall i :: 0 <= i <= |text| ==> ForYearAt(text, i).None?)
             && (exists i :: 0 <= i <= |text| && Year20At(text, i).Some?)) ==>
              2000 <= y <= 2099
              && exists i :: 0 <= i <= |text| && Year20At(text, i) == Some(y)
                             && forall j :: 0 <= j < i ==> Year20At(text, j).None?
    ensures (forall i :: 0 <= i <= |text| ==> ForYearAt(text, i).None? && Year20At(text, i).None?) ==>
              StatementYear(text, todayYear) == todayYear
  {
    var fy := ForYears(text);
    var ty := Years20(text);
    if FirstSome(fy).Some? {
      var i := FirstSome(fy).value;
      assert ForYearAt(text, i) == Some(StatementYear(text, todayYear));
    } else if FirstSome(ty).Some? {
      var i := FirstSome(ty).value;
      assert Year20At(text, i) == Some(StatementYear(text, todayYear));
    }
  }

  /** "For MM/DD/YYYY" at the top of a page gives the year YYYY. */
  lemma ForFourDigitYear(mm: string, dd: string, yyyy: string, rest: string, todayYear: int)
    requires |mm| == 2 && AllDigits(mm) && |dd| == 2 && AllDigits(dd) && |yyyy| == 4 && AllDigits(yyyy)
    ensures StatementYear("For " + mm + "/" + dd + "/" + yyyy + rest, todayYear) == DigitsValue(yyyy)
  {
    var s := "For " + mm + "/" + dd + "/" + yyyy + rest;
    assert DateAt(s, 4) && s[9] == '/';
    ForDateAtStart(s);
    assert s[10..14] == yyyy;
    assert ForYearAt(s, 0) == Some(DigitsValue(yyyy));
    ForYearAtStart(s, todayYear);
  }

  /** "For MM/DD/YY" not followed by a digit gives the year 20YY: "For
      10/31/25" gives 2025. */
  lemma ForTwoDigitYear(mm: string, dd: string, yy: string, rest: string, todayYear: int)
    requires |mm| == 2 && AllDigits(mm) && |dd| == 2 && AllDigits(dd) && |yy| == 2 && AllDigits(yy)
    requires rest == [] || !IsDigit(rest[0])
    ensures StatementYear("For " + mm + "/" + dd + "/" + yy + rest, todayYear) == 2000 + DigitsValue(yy)
  {
    var s := "For " + mm + "/" + dd + "/" + yy + rest;
    assert DateAt(s, 4) && s[9] == '/';
    ForDateAtStart(s);
    assert s[10..12] == yy;
    assert !(14 <= |s| && AllDigits(s[10..14])) by {
      if 14 <= |s| {
        assert s[10..14][2] == s[12] == rest[0];
      }
    }
    assert ForYearAt(s, 0) == Some(2000 + DigitsValue(yy));
    ForYearAtStart(s, todayYear);
  }

  /** "For " and a date with a slash after it at the start of s. */
  lemma ForDateAtStart(s: string)
    requires |s| >= 10 && s[..4] == "For " && DateAt(s, 4) && s[9] == '/'
    ensures LitAt(s, 0, "For", false) && SkipSpaces(s, 3) == 4
  {
    assert s[0] == 'F' && s[1] == 'o' && s[2] == 'r' && s[3] == ' ';
    assert SkipSpaces(s, 3) == 4 by { assert IsSpace(s[3]) && !IsSpace(s[4]); }
  }

  /** A "For" date at the very start of a page decides the year. */
  lemma ForYearAtStart(s: string, todayYear: int)
    requires ForYearAt(s, 0).Some?
    ensures StatementYear(s, todayYear) == ForYearAt(s, 0).value
  {
    assert ForYears(s)[0].Some?;
  }

  // ---------------------------------------------------------------------
  // Account number: `CHECKING\s*(\d+)`

  /** The digits `CHECKING\s*(\d+)` captures at offset i. */
  function AccountAt(s: string, i: nat): (r: Option<string>)
    requires i <= |s|
    ensures r.Some? ==> |r.value| > 0 && AllDigits(r.value)
  {
    if LitAt(s, i, "CHECKING", false) then
      var j := SkipSpaces(s, i + 8);
      var e := SkipDigits(s, j);
      if j < e then Some(s[j..e]) else None
    else None
  }

  function Accounts(s: string): (r: seq<Option<string>>)
    ensures |r| == |s| + 1 && forall i :: 0 <= i <= |s| ==> r[i] == AccountAt(s, i)
  {
    seq(|s| + 1, i requires 0 <= i <= |s| => AccountAt(s, i))
  }

  /** The account number of the first page: the whole digit run after the
      first "CHECKING" that digits follow; None when there is none. */
  function AccountNumber(text: string): (r: Option<string>)
    ensures r.Some? ==> exists i :: 0 <= i <= |text| && AccountAt(text, i) == r
                                    && forall j :: 0 <= j < i ==> AccountAt(text, j).None?
    ensures r.None? <==> forall i :: 0 <= i <= |text| ==> AccountAt(text, i).None?
  {
    var xs := Accounts(text);
    match FirstSome(xs)
    case Some(i) => xs[i]
    case None => None
  }

  /** "CHECKING" and an account's digits at the top of a page give those
      digits, with or without a space between. */
  lemma AccountRoundTrip(space: string, digits: string, rest: string)
    requires space == "" || space == " "
    requires |digits| > 0 && AllDigits(digits) && (rest == [] || !IsDigit(rest[0]))
    ensures AccountNumber("CHECKING" + space + digits + rest) == Some(digits)
  {
    var s := "CHECKING" + space + digits + rest;
    var j := 8 + |space|;
    assert LitAt(s, 0, "CHECKING", false);
    assert SkipSpaces(s, 8) == j by { assert !IsSpace(s[j]); }
    assert forall k :: j <= k < j + |digits| ==> s[k] == digits[k - j];
    assert j + |digits| == |s| || s[j + |digits|] == rest[0];
    SkipDigitsExact(s, j, |digits|);
    assert s[j..j + |digits|] == digits;
    assert AccountAt(s, 0) == Some(digits);
    assert FirstSome(Accounts(s)) == Some(0);
  }

  // ---------------------------------------------------------------------
  // Statement period: `previous\s*balance\s*as\s*of\s*(\d{2}/\d{2}/\d{4})`
  // and `new\s*balance\s*as\s*of\s*(\d{2}/\d{2}/\d{4})`, in any case

  const PreviousBalance: Pattern := [Lit("previous"), Spaces(false), Lit("balance"), Spaces(false),
                                     Lit("as"), Spaces(false), Lit("of"), Spaces(false)]
  const NewBalance: Pattern := [Lit("new"), Spaces(false), Lit("balance"), Spaces(false),
                                Lit("as"), Spaces(false), Lit("of"), Spaces(false)]

  /** `\d{2}/\d{2}/\d{4}` at k. */
  predicate FullDateAt(s: string, k: nat) {
    DateAt(s, k) && k + 10 <= |s| && s[k + 5] == '/' && AllDigits(s[k + 6..k + 10])
  }

  /** The numbers of a dated anchor at offset i: the year, month and day
      `int(parts[2])`, `int(parts[0])` and `int(parts[1])` of the date
      after it. */
  datatype YMD = YMD(year: int, month: int, day: int)

  function AnchoredDateAt(s: string, i: nat, anchor: Pattern): (r: Option<YMD>)
    requires i <= |s|
  {
    match MatchAt(s, i, anchor, true)
    case Some(k) =>
      if FullDateAt(s, k)
      then Some(YMD(DigitsValue(s[k + 6..k + 10]), DigitsValue(s[k..k + 2]), DigitsValue(s[k + 3..k + 5])))
      else None
    case None => None
  }

  function AnchoredDates(s: string, anchor: Pattern): (r: seq<Option<YMD>>)
    ensures |r| == |s| + 1 && forall i :: 0 <= i <= |s| ==> r[i] == AnchoredDateAt(s, i, anchor)
  {
    seq(|s| + 1, i requires 0 <= i <= |s| => AnchoredDateAt(s, i, anchor))
  }

  /** Why parsing fails: no statement was opened, or a period date does
      not exist (`date()` raises ValueError). */
  datatype ParseError = NotOpened | InvalidDate(year: int, month: int, day: int)

  /** One end of the period: None without the anchor, the date after the
      leftmost anchor, or the error `date()` raises for it. */
  function PeriodDate(text: string, anchor: Pattern): (r: Result<Option<Date>, ParseError>)
    ensures r.Ok? && r.value.Some? ==> IsValidDate(r.value.value.year, r.value.value.month, r.value.value.day)
  {
    var xs := AnchoredDates(text, anchor);
    match FirstSome(xs)
    case None => Ok(None)
    case Some(i) =>
      var d := xs[i].value;
      if IsValidDate(d.year, d.month, d.day) then Ok(Some(Date(d.year, d.month, d.day)))
      else Err(InvalidDate(d.year, d.month, d.day))
  }

  /** i is the leftmost offset where the anchor is followed by a full date. */
  predicate LeftmostAnchor(text: string, anchor: Pattern, i: nat) {
    i <= |text| && AnchoredDateAt(text, i, anchor).Some?
    && forall j :: 0 <= j < i ==> AnchoredDateAt(text, j, anchor).None?
  }

  /** No offset holds the anchor followed by a full date. */
  predicate NoAnchor(text: string, anchor: Pattern) {
    forall i :: 0 <= i <= |text| ==> AnchoredDateAt(text, i, anchor).None?
  }

  /** The leftmost dated anchor holds numbers that are no calendar date. */
  predicate AnchorInvalid(text: string, anchor: Pattern) {
    exists i :: 0 <= i <= |text| && LeftmostAnchor(text, anchor, i)
                && var n := AnchoredDateAt(text, i, anchor).value;
                   !IsValidDate(n.year, n.month, n.day)
  }

  /** The leftmost dated anchor holds the numbers of d. */
  predicate AnchorGives(text: string, anchor: Pattern, d: Date) {
    exists i :: 0 <= i <= |text| && LeftmostAnchor(text, anchor, i)
                && AnchoredDateAt(text, i, anchor) == Some(YMD(d.year, d.month, d.day))
  }

  /** The outcome of a period anchor: none when no anchor with a date
      occurs, an error exactly when the leftmost one holds a date that does
      not exist, and otherwise the date the leftmost one holds. */
  lemma PeriodDateRule(text: string, anchor: Pattern)
    ensures PeriodDate(text, anchor) == Ok(None) <==> NoAnchor(text, anchor)
    ensures PeriodDate(text, anchor).Err? <==> AnchorInvalid(text, anchor)
    ensures forall d: Date :: PeriodDate(text, anchor) == Ok(Some(d))
                              <==> AnchorGives(text, anchor, d) && IsValidDate(d.year, d.month, d.day)
  {
    var xs := AnchoredDates(text, anchor);
    match FirstSome(xs)
    case None =>
      assert NoAnchor(text, anchor) by {
        forall i | 0 <= i <= |text| ensures AnchoredDateAt(text, i, anchor).None? {
          assert xs[i].None?;
        }
      }
    case Some(i) =>
      assert LeftmostAnchor(text, anchor, i) by {
        forall j | 0 <= j < i ensures AnchoredDateAt(text, j, anchor).None? {
          assert xs[j].None?;
        }
      }
      LeftmostAnchorUnique(text, anchor, i);
  }

  /** The leftmost dated anchor is unique, and with one there is a dated
      anchor. */
  lemma LeftmostAnchorUnique(text: string, anchor: Pattern, i: nat)
    requires LeftmostAnchor(text, anchor, i)
    ensures forall i': nat :: LeftmostAnchor(text, anchor, i') ==> i' == i
    ensures !NoAnchor(text, anchor)
  {
  }

  /** One end of the period as its anchor gives it: None without a dated
      anchor, else the date the leftmost one holds. */
  predicate PeriodEnd(text: string, anchor: Pattern, v: Option<Date>) {
    match v
    case None => NoAnchor(text, anchor)
    case Some(d) => AnchorGives(text, anchor, d) && IsValidDate(d.year, d.month, d.day)
  }

  /** `_extract_statement_period`: both ends None without a first page or
      without a (truthy) year; otherwise each end from its own anchor. An
      invalid date is not caught. */
  function StatementPeriod(pages: Option<seq<string>>, year: Option<int>)
    : (r: Result<(Option<Date>, Option<Date>), ParseError>)
    ensures pages.None? || |pages.value| == 0 || year.None? || year.value == 0 ==> r == Ok((None, None))
  {
    if pages.None? || |pages.value| == 0 || year.None? || year.value == 0 then Ok((None, None))
    else
      var text := pages.value[0];
      match PeriodDate(text, PreviousBalance)
      case Err(e) => Err(e)
      case Ok(start) =>
        match PeriodDate(text, NewBalance)
        case Err(e) => Err(e)
        case Ok(end) => Ok((start, end))
  }

  /** With a first page and a year, the period fails exactly when the
      leftmost dated anchor of either end holds a date that does not
      exist; otherwise the start is the date after the leftmost "previous
      balance as of", and the end the date after the leftmost "new balance
      as of", each None when its anchor is missing. */
  lemma StatementPeriodRule(pages: seq<string>, year: int)
    requires |pages| > 0 && year != 0
    ensures var r := StatementPeriod(Some(pages), Some(year));
            var text := pages[0];
            (r.Err? <==> AnchorInvalid(text, PreviousBalance) || AnchorInvalid(text, NewBalance))
            && (r.Ok? ==> PeriodEnd(text, PreviousBalance, r.value.0) && PeriodEnd(text, NewBalance, r.value.1))
  {
    var text := pages[0];
    PeriodDateRule(text, PreviousBalance);
    PeriodDateRule(text, NewBalance);
    var r := StatementPeriod(Some(pages), Some(year));
    var s := PeriodDate(text, PreviousBalance);
    var e := PeriodDate(text, NewBalance);
    assert r.Err? <==> s.Err? || e.Err?;
    if r.Ok? {
      assert r.value.0 == s.value && r.value.1 == e.value;
      if s.value.Some? {
        assert s == Ok(Some(s.value.value));
      }
      if e.value.Some? {
        assert e == Ok(Some(e.value.value));
      }
    }
  }

  // ---------------------------------------------------------------------
  // Assembly

  /** The records of one transaction page: its checks, then withdrawals,
      then deposits. */
  function PageTransactions(text: string, year: int): seq<Transaction> {
    ChecksOfPage(text, year) + WithdrawalsOfPage(text, year) + DepositsOfPage(text, year)
  }

  /** The records one page adds: those of a transaction page, none for
      any other page. */
  function PageRecords(year: int): (f: string -> seq<Transaction>) {
    text => if IsTransactionPage(text) then PageTransactions(text, year) else []
  }

  /** The records of each page in turn, in page order. */
  function ConcatPages(pages: seq<string>, f: string -> seq<Transaction>): seq<Transaction> {
    if |pages| == 0 then []
    else ConcatPages(pages[..|pages| - 1], f) + f(pages[|pages| - 1])
  }

  lemma {:induction false} ConcatPagesAppend(a: seq<string>, b: seq<string>, f: string -> seq<Transaction>)
    ensures ConcatPages(a + b, f) == ConcatPages(a, f) + ConcatPages(b, f)
    decreases |b|
  {
    if |b| == 0 {
      assert a + b == a;
    } else {
      var n := |b| - 1;
      assert (a + b)[..|a + b| - 1] == a + b[..n];
      ConcatPagesAppend(a, b[..n], f);
    }
  }

  lemma {:induction false} ConcatPagesOrigin(pages: seq<string>, f: string -> seq<Transaction>, t: Transaction)
    requires t in ConcatPages(pages, f)
    ensures exists p :: 0 <= p < |pages| && t in f(pages[p])
  {
    var n := |pages| - 1;
    if t in ConcatPages(pages[..n], f) {
      ConcatPagesOrigin(pages[..n], f, t);
      var p :| 0 <= p < n && t in f(pages[..n][p]);
      assert pages[..n][p] == pages[p];
    }
  }

  lemma {:induction false} ConcatPagesEmpty(pages: seq<string>, f: string -> seq<Transaction>)
    requires forall p :: 0 <= p < |pages| ==> f(pages[p]) == []
    ensures ConcatPages(pages, f) == []
  {
    if |pages| > 0 {
      var n := |pages| - 1;
      assert forall p :: 0 <= p < n ==> pages[..n][p] == pages[p];
      ConcatPagesEmpty(pages[..n], f);
    }
  }

  /** The records of the transaction pages, page by page. */
  function Accumulated(pages: seq<string>, year: int): seq<Transaction> {
    ConcatPages(pages, PageRecords(year))
  }

  /** The records of two runs of pages are those of the first run followed
      by those of the second. */
  lemma AccumulatedAppend(a: seq<string>, b: seq<string>, year: int)
    ensures Accumulated(a + b, year) == Accumulated(a, year) + Accumulated(b, year)
  {
    ConcatPagesAppend(a, b, PageRecords(year));
  }

  /** Without a transaction page there are no records. */
  lemma NoTransactionPages(pages: seq<string>, year: int)
    requires forall p :: 0 <= p < |pages| ==> !IsTransactionPage(pages[p])
    ensures Accumulated(pages, year) == []
  {
    ConcatPagesEmpty(pages, PageRecords(year));
  }

  /** Every record comes from a transaction page. */
  lemma AccumulatedOrigin(pages: seq<string>, year: int, t: Transaction)
    requires t in Accumulated(pages, year)
    ensures exists p :: 0 <= p < |pages| && IsTransactionPage(pages[p]) && t in PageTransactions(pages[p], year)
  {
    ConcatPagesOrigin(pages, PageRecords(year), t);
  }

  /** The metadata `_extract_metadata` leaves: unchanged without a first
      page; otherwise the year of the first page, and its account number
      when it has one (else the previous one). */
  function Metadata(pages: Option<seq<string>>, todayYear: int, year: Option<int>, account: Option<string>)
    : (r: (Option<int>, Option<string>))
    ensures pages.Some? && |pages.value| > 0 ==> r.0.Some?
  {
    if pages.None? || |pages.value| == 0 then (year, account)
    else
      var text := pages.value[0];
      (Some(StatementYear(text, todayYear)),
       match AccountNumber(text) case Some(a) => Some(a) case None => account)
  }

  /** The records `parse` collects with the year it has: none when no
      year is known (which happens only without pages). */
  function Records(pages: seq<string>, year: Option<int>): seq<Transaction> {
    if year.Some? then Accumulated(pages, year.value) else []
  }

  /** The statement `parse` builds around its sorted records. */
  function Assemble(account: Option<string>, period: (Option<Date>, Option<Date>), all: seq<Transaction>)
    : (st: BankStatement)
    ensures st.bankName == BankName && st.accountNumber == account
    ensures st.periodStart == period.0 && st.periodEnd == period.1
    ensures StableSortOf(st.transactions, all)
  {
    SortByKeyIsStableSort(all);
    BankStatement(BankName, account, period.0, period.1, SortByKey(all))
  }

  /** What `parse` returns for the given pages and prior metadata. */
  function ParseResult(pages: Option<seq<string>>, todayYear: int, year: Option<int>, account: Option<string>)
    : Result<BankStatement, ParseError>
  {
    if pages.None? then Err(NotOpened)
    else
      var (y, a) := Metadata(pages, todayYear, year, account);
      match StatementPeriod(pages, y)
      case Err(e) => Err(e)
      case Ok(period) => Ok(Assemble(a, period, Records(pages.value, y)))
  }

  /** A parsed statement is named "Truist", and its transactions are the
      records of the transaction pages with the year of the first page,
      each exactly as often as found, ordered by date and category, with
      ties in page order. */
  lemma ParseResultTransactions(pages: seq<string>, todayYear: int, year: Option<int>, account: Option<string>)
    requires ParseResult(Some(pages), todayYear, year, account).Ok?
    ensures var st := ParseResult(Some(pages), todayYear, year, account).value;
            var all := if |pages| == 0 then Records(pages, year) else Accumulated(pages, StatementYear(pages[0], todayYear));
            st.bankName == "Truist" && StableSortOf(st.transactions, all)
  {
    if |pages| == 0 {
      assert Metadata(Some(pages), todayYear, year, account).0 == year;
    }
  }

  /** Without any transaction page, parsing gives an empty statement
      unless a period date is invalid. */
  lemma ParseNoTransactionPages(pages: seq<string>, todayYear: int, year: Option<int>, account: Option<string>)
    requires forall p :: 0 <= p < |pages| ==> !IsTransactionPage(pages[p])
    requires ParseResult(Some(pages), todayYear, year, account).Ok?
    ensures ParseResult(Some(pages), todayYear, year, account).value.transactions == []
  {
    if |pages| > 0 {
      NoTransactionPages(pages, StatementYear(pages[0], todayYear));
    }
  }

  /** An invalid "previous balance as of" date makes parsing fail. */
  lemma ParseInvalidStart(pages: seq<string>, todayYear: int, year: Option<int>, account: Option<string>)
    requires |pages| > 0 && StatementYear(pages[0], todayYear) != 0
    requires PeriodDate(pages[0], PreviousBalance).Err?
    ensures ParseResult(Some(pages), todayYear, year, account).Err?
  {
  }

  /** The parser object: the opened statement's pages, and the metadata
      `_extract_metadata` records. */
  class Parser {
    var pdf: Option<seq<string>>
    var year: Option<int>
    var accountNumber: Option<string>

    constructor(pdf: Option<seq<string>>)
      ensures this.pdf == pdf && year.None? && accountNumber.None?
    {
      this.pdf := pdf;
      year := None;
      accountNumber := None;
    }

    /** `_extract_metadata`: the year is set whenever there is a first
        page; the account number only when the first page has one. */
    method ExtractMetadata(todayYear: int)
      modifies this
      ensures pdf == old(pdf)
      ensures (year, accountNumber) == Metadata(pdf, todayYear, old(year), old(accountNumber))
    {
      if pdf.None? || |pdf.value| == 0 {
        return;
      }
      var text := pdf.value[0];
      year := Some(StatementYear(text, todayYear));
      var account := AccountNumber(text);
      if account.Some? {
        accountNumber := account;
      }
    }

    /** `parse`: metadata, period, then the checks, withdrawals and
        deposits of each transaction page in page order, sorted. */
    method Parse(todayYear: int) returns (r: Result<BankStatement, ParseError>)
      modifies this
      ensures pdf == old(pdf)
      ensures r == ParseResult(old(pdf), todayYear, old(year), old(accountNumber))
      ensures (year, accountNumber) == Metadata(pdf, todayYear, old(year), old(accountNumber))
    {
      if pdf.None? {
        return Err(NotOpened);
      }
      ExtractMetadata(todayYear);
      var period := StatementPeriod(pdf, year);
      if period.Err? {
        return Err(period.error);
      }
      var all := CollectRecords(pdf.value, year);
      r := Ok(Assemble(accountNumber, period.value, all));
    }
  }

  /** The loop of `parse`: the checks, withdrawals and deposits of each
      transaction page, page by page. */
  method CollectRecords(pages: seq<string>, year: Option<int>) returns (all: seq<Transaction>)
    ensures all == Records(pages, year)
  {
    all := [];
    if year.None? {
      return;
    }
    var y := year.value;
    var classifications := ClassifyPages(pages);
    for p := 0 to |pages|
      invariant all == Accumulated(pages[..p], y)
    {
      assert pages[..p + 1][..p] == pages[..p];
      var records := RecordsOfPage(pages[p], y, classifications[p]);
      all := all + records;
    }
    assert pages[..|pages|] == pages;
  }

  /** One turn of the page loop of `parse`: the checks, withdrawals and
      deposits of a page classified as a transaction page. */
  method RecordsOfPage(text: string, year: int, isTransactionPage: bool) returns (records: seq<Transaction>)
    requires isTransactionPage == IsTransactionPage(text)
    ensures records == PageRecords(year)(text)
  {
    records := [];
    if isTransactionPage {
      var checks := ExtractChecksFromPage(text, year);
      var withdrawals := ExtractWithdrawalsFromPage(text, year);
      var deposits := ExtractDepositsFromPage(text, year);
      records := checks + withdrawals + deposits;
    }
  }
}
