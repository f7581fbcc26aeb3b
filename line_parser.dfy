/** The record extraction of the Truist table parsers: check entries found
    in the "Checks" block of a page, and dated description/amount lines of
    a withdrawals or deposits block. A line or entry whose date or amount
    does not parse is skipped on its own; the others still count. */
module LineParser {
  import opened Wrappers
  import opened Text
  import opened Patterns
  import opened Models
  import opened Normalizer

  /** `\d{2}/\d{2}` at offset i. */
  predicate DateAt(s: string, i: nat) {
    i + 5 <= |s| && IsDigit(s[i]) && IsDigit(s[i + 1]) && s[i + 2] == '/'
    && IsDigit(s[i + 3]) && IsDigit(s[i + 4])
  }

  predicate IsDigitOrComma(c: char) {
    IsDigit(c) || c == ','
  }

  /** The whole of s is `[\d,]+\.\d{2}`. */
  predicate IsAmountText(a: string) {
    |a| >= 4 && a[|a| - 3] == '.' && IsDigit(a[|a| - 2]) && IsDigit(a[|a| - 1])
    && forall k :: 0 <= k < |a| - 3 ==> IsDigitOrComma(a[k])
  }

  /** The end of the run of digits and commas that starts at i. */
  function SkipDigitsCommas(s: string, i: nat): (j: nat)
    requires i <= |s|
    ensures i <= j <= |s|
    ensures forall k :: i <= k < j ==> IsDigitOrComma(s[k])
    ensures j == |s| || !IsDigitOrComma(s[j])
    decreases |s| - i
  {
    if i < |s| && IsDigitOrComma(s[i]) then SkipDigitsCommas(s, i + 1) else i
  }

  /** Where `[\d,]+\.\d{2}` matching at i ends. The run of digits and
      commas is taken whole: a shorter run is followed by a digit or a
      comma, never by the point, so the match is unique. */
  function AmountEnd(s: string, i: nat): (r: Option<nat>)
    requires i <= |s|
    ensures r.Some? ==> i + 4 <= r.value <= |s| && IsAmountText(s[i..r.value])
    ensures forall e :: i + 4 <= e <= |s| && IsAmountText(s[i..e]) ==> r == Some(e)
  {
    var j := SkipDigitsCommas(s, i);
    if i < j && j + 3 <= |s| && s[j] == '.' && IsDigit(s[j + 1]) && IsDigit(s[j + 2]) then
      AmountAfterRun(s, i, j);
      assert forall e :: i + 4 <= e <= |s| && IsAmountText(s[i..e]) ==> j == e - 3 by {
        forall e | i + 4 <= e <= |s| && IsAmountText(s[i..e]) ensures j == e - 3 {
          AmountRunEnds(s, i, e);
        }
      }
      Some(j + 3)
    else
      assert forall e :: i + 4 <= e <= |s| && IsAmountText(s[i..e]) ==> false by {
        forall e | i + 4 <= e <= |s| && IsAmountText(s[i..e]) ensures false {
          AmountRunEnds(s, i, e);
        }
      }
      None
  }

  /** A run of digits and commas from i to j, then a point and two digits. */
  lemma AmountAfterRun(s: string, i: nat, j: nat)
    requires i < j && j + 3 <= |s| && s[j] == '.' && IsDigit(s[j + 1]) && IsDigit(s[j + 2])
    requires forall k :: i <= k < j ==> IsDigitOrComma(s[k])
    ensures IsAmountText(s[i..j + 3])
  {
    var a := s[i..j + 3];
    assert a[|a| - 3] == s[j] && a[|a| - 2] == s[j + 1] && a[|a| - 1] == s[j + 2];
    assert forall k :: 0 <= k < |a| - 3 ==> a[k] == s[i + k];
  }

  /** An amount from i to e is made of the whole run of digits and commas
      at i, then a point and two digits. */
  lemma AmountRunEnds(s: string, i: nat, e: nat)
    requires i + 4 <= e <= |s| && IsAmountText(s[i..e])
    ensures SkipDigitsCommas(s, i) == e - 3
  {
    var a := s[i..e];
    assert forall k :: i <= k < e - 3 ==> IsDigitOrComma(s[k]) by {
      forall k | i <= k < e - 3 ensures IsDigitOrComma(s[k]) { assert a[k - i] == s[k]; }
    }
    assert s[e - 3] == a[|a| - 3];
  }

  /** Every amount the patterns capture parses: `parse_amount` drops every
      comma of the whole part and reads the two fraction digits as cents,
      so "1,2,3.45" and ",12.34" read as 12345 and 1234 cents. */
  lemma AmountTextValue(a: string)
    requires IsAmountText(a)
    ensures ParseAmount(a) == Some(DigitsValue(RemoveCommas(a[..|a| - 3])) * 100 + DigitsValue(a[|a| - 2..]))
  {
    var w, frac := RemoveCommas(a[..|a| - 3]), a[|a| - 2..];
    AmountCommas(a);
    AmountDigits(a);
    assert ParseAmount(a) == ReadTwoDecimal(Strip(w + "." + frac));
    ReadPlainNumeral(w, frac);
  }

  /** Dropping the commas of an amount leaves its whole part without
      commas, the point and the two fraction digits. */
  lemma AmountCommas(a: string)
    requires IsAmountText(a)
    ensures RemoveCommas(a) == RemoveCommas(a[..|a| - 3]) + "." + a[|a| - 2..]
  {
    var n := |a|;
    var head, frac := a[..n - 3], a[n - 2..];
    assert a == head + "." + frac by {
      assert a == head + a[n - 3..];
      assert a[n - 3..] == [a[n - 3]] + frac;
      assert [a[n - 3]] == ".";
    }
    assert ',' !in frac by { assert IsDigit(frac[0]) && IsDigit(frac[1]); }
    RemoveCommasPoint(head, frac);
  }

  /** Those parts are digits: the whole part possibly none, the fraction
      exactly two. */
  lemma AmountDigits(a: string)
    requires IsAmountText(a)
    ensures AllDigits(RemoveCommas(a[..|a| - 3]))
    ensures |a[|a| - 2..]| == 2 && AllDigits(a[|a| - 2..])
  {
    var n := |a|;
    var head, frac := a[..n - 3], a[n - 2..];
    assert DigitsAndCommas(head) by {
      forall k | 0 <= k < |head| ensures IsDigit(head[k]) || head[k] == ',' {
        assert head[k] == a[k] && IsDigitOrComma(a[k]);
      }
    }
    RemoveCommasDigits(head);
    assert frac[0] == a[n - 2] && frac[1] == a[n - 1];
  }

  // ---------------------------------------------------------------------
  // Checks: `(\d{2}/\d{2})\s+\*?(\d+)\s+([\d,]+\.\d{2})`

  /** One check entry: its place in the text and its three groups. */
  datatype CheckMatch = CheckMatch(start: nat, end: nat, date: string, number: string, amount: string)

  /** The check-entry pattern at i. Every `\s+`, `\*?` and `\d+` is
      greedy and followed by what it cannot consume, so the match is the
      greedy one. */
  function CheckAt(s: string, i: nat): (r: Option<CheckMatch>)
    requires i <= |s|
    ensures r.Some? ==> r.value.start == i && i + 12 <= r.value.end <= |s|
    ensures r.Some? ==> DateAt(s, i) && r.value.date == s[i..i + 5]
    ensures r.Some? ==> |r.value.number| > 0 && AllDigits(r.value.number)
    ensures r.Some? ==> IsAmountText(r.value.amount)
  {
    if !DateAt(s, i) then None
    else
      var a := SkipSpaces(s, i + 5);
      if a == i + 5 then None
      else
        var b := if a < |s| && s[a] == '*' then a + 1 else a;
        var c := SkipDigits(s, b);
        if c == b then None
        else
          var d := SkipSpaces(s, c);
          if d == c then None
          else
            match AmountEnd(s, d)
            case None => None
            case Some(e) => Some(CheckMatch(i, e, s[i..i + 5], s[b..c], s[d..e]))
  }

  predicate WellFormedEntries(ms: seq<CheckMatch>) {
    forall k :: 0 <= k < |ms| ==> |ms[k].number| > 0 && AllDigits(ms[k].number)
  }

  /** Every entry in the table starts where it is listed, ends after that
      within the text, and has a check number. */
  predicate ValidHits(hits: seq<Option<CheckMatch>>) {
    forall i :: 0 <= i < |hits| && hits[i].Some? ==>
      hits[i].value.start == i && i < hits[i].value.end < |hits|
      && |hits[i].value.number| > 0 && AllDigits(hits[i].value.number)
  }

  /** The check entry matching at each offset of s, the end of s included. */
  function CheckHits(s: string): (hits: seq<Option<CheckMatch>>)
    ensures |hits| == |s| + 1 && ValidHits(hits)
    ensures forall i :: 0 <= i <= |s| ==> hits[i] == CheckAt(s, i)
  {
    seq(|s| + 1, i requires 0 <= i <= |s| => CheckAt(s, i))
  }

  /** `re.finditer` from pos, given the entry matching at each offset: an
      entry is taken where one starts, and the search goes on from its end. */
  function ScanChecks(hits: seq<Option<CheckMatch>>, pos: nat): (r: seq<CheckMatch>)
    requires ValidHits(hits) && pos < |hits|
    ensures forall k :: 0 <= k < |r| ==> pos <= r[k].start < |hits| && hits[r[k].start] == Some(r[k])
    ensures forall k :: 0 <= k < |r| - 1 ==> r[k].end <= r[k + 1].start
    ensures WellFormedEntries(r)
    decreases |hits| - pos
  {
    if pos == |hits| - 1 then []
    else
      match hits[pos]
      case Some(m) => [m] + ScanChecks(hits, m.end)
      case None => ScanChecks(hits, pos + 1)
  }

  /** Offset j lies inside one of the entries. */
  predicate InSomeEntry(ms: seq<CheckMatch>, j: nat) {
    exists k :: 0 <= k < |ms| && ms[k].start <= j < ms[k].end
  }

  lemma {:induction false} ScanChecksCovers(hits: seq<Option<CheckMatch>>, pos: nat, j: nat)
    requires ValidHits(hits) && pos <= j < |hits| && hits[j].Some?
    ensures InSomeEntry(ScanChecks(hits, pos), j)
    decreases |hits| - pos
  {
    var r := ScanChecks(hits, pos);
    if hits[pos].Some? {
      var e := hits[pos].value.end;
      if j >= e {
        ScanChecksCovers(hits, e, j);
        var rest := ScanChecks(hits, e);
        var k :| 0 <= k < |rest| && rest[k].start <= j < rest[k].end;
        assert r[k + 1] == rest[k];
      } else {
        assert r[0].start <= j < r[0].end;
      }
    } else {
      ScanChecksCovers(hits, pos + 1, j);
    }
  }

  /** `re.finditer` of the check-entry pattern over s: matches of the
      pattern where they start, in order and not overlapping. */
  function CheckMatches(s: string): (r: seq<CheckMatch>)
    ensures forall k :: 0 <= k < |r| ==> r[k].start <= |s| && CheckAt(s, r[k].start) == Some(r[k])
    ensures forall k :: 0 <= k < |r| - 1 ==> r[k].end <= r[k + 1].start
    ensures WellFormedEntries(r)
  {
    ScanChecks(CheckHits(s), 0)
  }

  /** No entry is skipped: every offset where the pattern matches starts,
      or lies inside, one of the entries found. */
  lemma CheckMatchesCover(s: string, j: nat)
    requires j <= |s| && CheckAt(s, j).Some?
    ensures InSomeEntry(CheckMatches(s), j)
  {
    ScanChecksCovers(CheckHits(s), 0, j);
  }

  /** The shape every check record has: type CHECK, the description
      "Check #" and the entry's digits, the integer value of those digits
      as check number, a non-negative amount, and untouched lender fields. */
  predicate IsCheckRecord(t: Transaction) {
    t.txnType == Check && |t.description| > 7 && t.description[..7] == "Check #"
    && AllDigits(t.description[7..]) && t.checkNumber == Some(DigitsValue(t.description[7..]))
    && t.amount >= 0 && t.lenderMatches.None? && !t.isLenderTransfer && !t.isLenderPayment
  }

  /** The record built from one entry; None where the date or the amount
      does not parse (the entry is then skipped). */
  function CheckRecord(m: CheckMatch, year: int): (r: Option<Transaction>)
    requires |m.number| > 0 && AllDigits(m.number)
    ensures r.Some? ==> IsCheckRecord(r.value) && r.value.description[7..] == m.number
    ensures r.Some? ==> r.value.date.year == year
  {
    match (ParseDate(m.date, year), ParseAmount(m.amount), ParseInt(m.number))
    case (Some(d), Some(a), Some(n)) =>
      var t := NewTransaction(d, "Check #" + m.number, a, Check, Some(n));
      assert t.description[7..] == m.number;
      Some(t)
    case _ => None
  }

  /** Each entry's record, or None where it is skipped. */
  function CheckResults(ms: seq<CheckMatch>, year: int): (r: seq<Option<Transaction>>)
    requires WellFormedEntries(ms)
    ensures |r| == |ms| && forall k :: 0 <= k < |ms| ==> r[k] == CheckRecord(ms[k], year)
  {
    seq(|ms|, k requires 0 <= k < |ms| => CheckRecord(ms[k], year))
  }

  /** The records of a run of entries, in entry order. */
  function CheckRecords(ms: seq<CheckMatch>, year: int): (r: seq<Transaction>)
    requires WellFormedEntries(ms)
    ensures |r| <= |ms|
    ensures forall t :: t in r ==> IsCheckRecord(t) && t.date.year == year
  {
    var xs := CheckResults(ms, year);
    var r := Somes(xs);
    assert forall t :: t in r ==> IsCheckRecord(t) && t.date.year == year by {
      forall t | t in r ensures IsCheckRecord(t) && t.date.year == year {
        SomesMember(xs, t);
      }
    }
    r
  }

  /** The records of one more entry: those of the entries before it, then its own. */
  lemma CheckRecordsSnoc(ms: seq<CheckMatch>, k: nat, year: int)
    requires WellFormedEntries(ms) && k < |ms|
    ensures WellFormedEntries(ms[..k]) && WellFormedEntries(ms[..k + 1])
    ensures var rec := CheckRecord(ms[k], year);
            CheckRecords(ms[..k + 1], year)
            == CheckRecords(ms[..k], year) + (if rec.Some? then [rec.value] else [])
  {
    var xs := CheckResults(ms[..k + 1], year);
    assert xs[..k] == CheckResults(ms[..k], year);
  }

  /** `Checks\s*\n`, case-insensitive. */
  const ChecksHeader: Regex := [[Lit("Checks"), SpacesNewline]]

  /** What ends the checks block, case-insensitive. */
  const ChecksEnd: Regex := [
    [Lit("Total"), Spaces(false), Lit("checks")],
    [Lit("*"), Spaces(false), Lit("indicates")],
    [Lit("Other"), Spaces(false), Lit("withdraw")],
    [Lit("Otherwithdraw")],
    [Lit("DATE"), Spaces(true), Lit("DESCRIPTION"), Spaces(true), Lit("AMOUNT")]
  ]

  /** The checks block: from the end of the first "Checks" header line to
      the first end phrase after it, or to the end of the text. None when
      the page has no such header. */
  function ChecksRegion(text: string): (r: Option<Span>)
    ensures r.None? <==> Search(text, ChecksHeader, true).None?
    ensures r.Some? ==> r.value.start <= r.value.end <= |text|
    ensures r.Some? ==> MatchAny(text, Search(text, ChecksHeader, true).value, ChecksHeader, true)
                        == Some(r.value.start)
    ensures r.Some? ==> forall j :: 0 <= j < r.value.end - r.value.start
                          ==> MatchAny(text[r.value.start..], j, ChecksEnd, true).None?
    ensures r.Some? && r.value.end < |text|
            ==> MatchAny(text[r.value.start..], r.value.end - r.value.start, ChecksEnd, true).Some?
  {
    match Search(text, ChecksHeader, true)
    case None => None
    case Some(p) =>
      var start := MatchAny(text, p, ChecksHeader, true).value;
      match Search(text[start..], ChecksEnd, true)
      case Some(q) => Some(Span(start, start + q))
      case None => Some(Span(start, |text|))
  }

  /** `extract_checks_from_page` over the page's text. */
  function ChecksOfPage(text: string, year: int): (r: seq<Transaction>)
    ensures ChecksRegion(text).None? ==> r == []
    ensures forall t :: t in r ==> IsCheckRecord(t) && t.date.year == year
  {
    match ChecksRegion(text)
    case None => []
    case Some(sp) =>
      var ms := CheckMatches(text[sp.start..sp.end]);
      CheckRecords(ms, year)
  }

  /** The loop of `extract_checks_from_page`: one pass over the entries,
      appending each entry's record. */
  method CollectChecks(ms: seq<CheckMatch>, year: int) returns (txns: seq<Transaction>)
    requires WellFormedEntries(ms)
    ensures txns == CheckRecords(ms, year)
  {
    txns := [];
    for k := 0 to |ms|
      invariant txns == CheckRecords(ms[..k], year)
    {
      var rec := CheckRecord(ms[k], year);
      CheckRecordsSnoc(ms, k, year);
      if rec.Some? {
        txns := txns + [rec.value];
      }
    }
    assert ms[..|ms|] == ms;
  }

  /** `extract_checks_from_page`: no records without a checks block, else
      the records of the entries inside it. */
  method ExtractChecksFromPage(text: string, year: int) returns (txns: seq<Transaction>)
    ensures txns == ChecksOfPage(text, year)
  {
    var region := ChecksRegion(text);
    if region.None? {
      return [];
    }
    var sp := region.value;
    var ms := CheckMatches(text[sp.start..sp.end]);
    txns := CollectChecks(ms, year);
  }

  // ---------------------------------------------------------------------
  // Table lines: `^(\d{2}/\d{2})\s+(.+?)\s+([\d,]+\.\d{2})\s*$` on a stripped line

  /** The header and footer lines the extractor skips, compared upper-case. */
  predicate IsSkippedLine(line: string) {
    var u := Upper(line);
    (Contains(u, "DESCRIPTION") && Contains(u, "AMOUNT"))
    || (Contains(u, "DATE") && Contains(u, "CHECK"))
    || Contains(u, "CONTINUED")
    || (Contains(u, "PAGE") && Contains(u, "OF"))
  }

  /** At e a whitespace run starts that is followed by an amount ending the line. */
  predicate SplitsAt(st: string, e: nat) {
    e < |st| && IsSpace(st[e]) && IsAmountText(st[SkipSpaces(st, e)..])
  }

  /** The first e at or after `from` where SplitsAt holds. */
  function FirstSplit(st: string, from: nat): (r: Option<nat>)
    requires from <= |st|
    ensures r.Some? ==> from <= r.value < |st| && SplitsAt(st, r.value)
    ensures r.Some? ==> forall e :: from <= e < r.value ==> !SplitsAt(st, e)
    ensures r.None? ==> forall e :: from <= e < |st| ==> !SplitsAt(st, e)
    decreases |st| - from
  {
    if from == |st| then None
    else if SplitsAt(st, from) then Some(from)
    else FirstSplit(st, from + 1)
  }

  datatype LineMatch = LineMatch(date: string, description: string, amount: string)

  /** The table-line pattern on the stripped line. After the date the
      `\s+` is greedy and the lazy description grows until a whitespace run
      followed by an amount closes the line. When that fails for every
      description start, the engine gives back part of the whitespace after
      the date; it then succeeds only on "date, three or more spaces,
      amount", with a one-space description. */
  function MatchLine(line: string): (r: Option<LineMatch>)
    requires '\n' !in line
    ensures r.Some? ==> |r.value.date| == 5 && IsAmountText(r.value.amount)
  {
    MatchStripped(Strip(line))
  }

  /** The table-line pattern on a line that is already stripped. */
  function MatchStripped(st: string): (r: Option<LineMatch>)
    ensures r.Some? ==> |r.value.date| == 5 && IsAmountText(r.value.amount)
  {
    if !DateAt(st, 0) then None
    else
      var j := SkipSpaces(st, 5);
      if j == 5 || j == |st| then None
      else
        match FirstSplit(st, j + 1)
        case Some(e) => Some(LineMatch(st[..5], st[j..e], st[SkipSpaces(st, e)..]))
        case None =>
          if j >= 8 && IsAmountText(st[j..]) then Some(LineMatch(st[..5], st[j - 2..j - 1], st[j..]))
          else None
  }

  /** One way `^(\d{2}/\d{2})\s+(.+?)\s+([\d,]+\.\d{2})\s*$` can match the
      stripped line st: the `\s+` after the date ends at w, the description
      is st[w..d], and whitespace then an amount close the line from d. */
  predicate LineSplitAt(st: string, w: nat, d: nat) {
    DateAt(st, 0) && 5 < w <= SkipSpaces(st, 5) && w < d && SplitsAt(st, d)
  }

  /** The engine tries the greedy `\s+` from its longest end down, and for
      each the lazy description from its shortest end up. */
  predicate TriedBefore(w1: nat, d1: nat, w2: nat, d2: nat) {
    w1 > w2 || (w1 == w2 && d1 < d2)
  }

  /** The way the engine reaches first. */
  ghost predicate FirstLineSplit(st: string, w: nat, d: nat) {
    LineSplitAt(st, w, d)
    && forall w': nat, d': nat :: LineSplitAt(st, w', d') ==> !TriedBefore(w', d', w, d)
  }

  /** Inside a whitespace run, skipping whitespace reaches the run's end. */
  lemma {:induction false} SkipSpacesInside(s: string, i: nat, k: nat)
    requires i <= |s| && i <= k <= SkipSpaces(s, i)
    ensures SkipSpaces(s, k) == SkipSpaces(s, i)
    decreases k - i
  {
    if i < k {
      assert IsSpace(s[i]);
      SkipSpacesInside(s, i + 1, k);
    }
  }

  /** Helper: the greedy whitespace end with the first description end
      after it is the first way. */
  lemma GreedySplitFirst(st: string, j: nat, e: nat)
    requires DateAt(st, 0) && j == SkipSpaces(st, 5) && 5 < j < |st|
    requires FirstSplit(st, j + 1) == Some(e)
    ensures FirstLineSplit(st, j, e)
    ensures MatchStripped(st) == Some(LineMatch(st[..5], st[j..e], st[SkipSpaces(st, e)..]))
  {
  }

  /** Helper: without such an end, "date, spaces, amount" is taken with
      the description one whitespace character just before the amount's
      run. */
  lemma GivenBackSplitFirst(st: string, j: nat)
    requires DateAt(st, 0) && j == SkipSpaces(st, 5) && 8 <= j < |st|
    requires FirstSplit(st, j + 1).None? && IsAmountText(st[j..])
    ensures FirstLineSplit(st, j - 2, j - 1)
    ensures MatchStripped(st) == Some(LineMatch(st[..5], st[j - 2..j - 1], st[SkipSpaces(st, j - 1)..]))
  {
    assert !IsSpace(st[j]);
    SkipSpacesInside(st, 5, j - 1);
    assert SplitsAt(st, j - 1);
    forall w': nat, d': nat | LineSplitAt(st, w', d') ensures !TriedBefore(w', d', j - 2, j - 1) {
      assert d' != j;
    }
  }

  /** Helper: otherwise no way matches. */
  lemma NoLineSplit(st: string, j: nat)
    requires DateAt(st, 0) && j == SkipSpaces(st, 5) && 5 < j < |st|
    requires FirstSplit(st, j + 1).None? && !(j >= 8 && IsAmountText(st[j..]))
    ensures forall w: nat, d: nat :: !LineSplitAt(st, w, d)
    ensures MatchStripped(st).None?
  {
    assert !IsSpace(st[j]);
    forall w: nat, d: nat ensures !LineSplitAt(st, w, d) {
      if LineSplitAt(st, w, d) && d < j {
        SkipSpacesInside(st, 5, d);
      }
    }
  }

  /** MatchStripped is the regex's own result on a text that ends in
      something other than whitespace: it fails exactly when no way
      matches, and otherwise takes the text apart as the way the
      backtracking engine tries first. */
  lemma MatchStrippedFirst(st: string)
    requires st == [] || !IsSpace(st[|st| - 1])
    ensures MatchStripped(st).None? <==> forall w: nat, d: nat :: !LineSplitAt(st, w, d)
    ensures MatchStripped(st).Some? ==>
              exists w: nat, d: nat :: FirstLineSplit(st, w, d)
                             && MatchStripped(st).value == LineMatch(st[..5], st[w..d], st[SkipSpaces(st, d)..])
  {
    if DateAt(st, 0) {
      var j := SkipSpaces(st, 5);
      assert j > 5 ==> IsSpace(st[j - 1]);
      if j > 5 && j < |st| {
        match FirstSplit(st, j + 1)
        case Some(e) =>
          GreedySplitFirst(st, j, e);
          assert FirstLineSplit(st, j, e);
        case None =>
          if j >= 8 && IsAmountText(st[j..]) {
            GivenBackSplitFirst(st, j);
            assert FirstLineSplit(st, j - 2, j - 1);
          } else {
            NoLineSplit(st, j);
          }
      } else {
        assert j == 5;
        assert MatchStripped(st).None?;
      }
    } else {
      assert MatchStripped(st).None?;
    }
  }

  /** MatchLine is the regex's own result on the stripped line. */
  lemma MatchLineFirst(line: string)
    requires '\n' !in line
    ensures var st := Strip(line);
            MatchLine(line).None? <==> forall w: nat, d: nat :: !LineSplitAt(st, w, d)
    ensures var st := Strip(line);
            MatchLine(line).Some? ==>
              exists w: nat, d: nat :: FirstLineSplit(st, w, d)
                             && MatchLine(line).value == LineMatch(st[..5], st[w..d], st[SkipSpaces(st, d)..])
  {
    MatchStrippedFirst(Strip(line));
  }

  /** Helper: when no way ends the greedy whitespace run after the date,
      the description found is all whitespace. */
  lemma GivenBackStripped(st: string)
    requires st == [] || !IsSpace(st[|st| - 1])
    requires DateAt(st, 0) && forall d: nat :: !LineSplitAt(st, SkipSpaces(st, 5), d)
    ensures MatchStripped(st).Some? ==> Strip(MatchStripped(st).value.description) == []
  {
    var j := SkipSpaces(st, 5);
    if j > 5 && j < |st| {
      var first := FirstSplit(st, j + 1);
      assert first.Some? ==> LineSplitAt(st, j, first.value);
      if j >= 8 && IsAmountText(st[j..]) {
        GivenBackSplitFirst(st, j);
        var desc := st[j - 2..j - 1];
        assert IsSpace(desc[0]);
        assert Strip(desc) == [];
      } else {
        NoLineSplit(st, j);
      }
    }
  }

  /** The record a line yields, if any: not for header or footer lines, not
      for lines that do not match, not when the stripped description is
      shorter than three characters, and not when the date or the amount
      does not parse. */
  function LineRecord(line: string, year: int, ty: TransactionType): (r: Option<Transaction>)
    requires '\n' !in line
    ensures IsSkippedLine(line) ==> r.None?
    ensures r.Some? ==> r.value.txnType == ty && r.value.checkNumber.None?
    ensures r.Some? ==> |r.value.description| >= 3 && Strip(r.value.description) == r.value.description
    ensures r.Some? ==> r.value.amount >= 0 && r.value.date.year == year
    ensures r.Some? ==> r.value.lenderMatches.None? && !r.value.isLenderTransfer && !r.value.isLenderPayment
  {
    if IsSkippedLine(line) then None
    else
      match MatchLine(line)
      case None => None
      case Some(m) =>
        var desc := Strip(m.description);
        if |desc| < 3 then None
        else
          StripTrimmed(desc);
          match (ParseDate(m.date, year), ParseAmount(m.amount))
          case (Some(d), Some(a)) => Some(NewTransaction(d, desc, a, ty, None))
          case _ => None
  }

  predicate NoNewlines(lines: seq<string>) {
    forall k :: 0 <= k < |lines| ==> '\n' !in lines[k]
  }

  /** The record of a line of a block of the given type and year. */
  function LineRecordOf(year: int, ty: TransactionType): string --> Option<Transaction> {
    line requires '\n' !in line => LineRecord(line, year, ty)
  }

  /** Each line's record, or None where the line yields none. */
  function LineResults(lines: seq<string>, year: int, ty: TransactionType): (r: seq<Option<Transaction>>)
    requires NoNewlines(lines)
    ensures |r| == |lines| && forall k :: 0 <= k < |lines| ==> r[k] == LineRecord(lines[k], year, ty)
  {
    Map(lines, LineRecordOf(year, ty))
  }

  /** The records of a run of lines, in line order. */
  function TransactionsFromLines(lines: seq<string>, year: int, ty: TransactionType): (r: seq<Transaction>)
    requires NoNewlines(lines)
    ensures |r| <= |lines|
  {
    Somes(LineResults(lines, year, ty))
  }

  /** `_extract_transactions_from_text`: the records of the text's lines. */
  function TransactionsFromText(text: string, year: int, ty: TransactionType): seq<Transaction> {
    TransactionsFromLines(Split(text, '\n'), year, ty)
  }

  /** The records of one more line: those of the lines before it, then its own. */
  lemma TransactionsFromLinesSnoc(lines: seq<string>, k: nat, year: int, ty: TransactionType)
    requires NoNewlines(lines) && k < |lines|
    ensures NoNewlines(lines[..k]) && NoNewlines(lines[..k + 1])
    ensures var rec := LineRecord(lines[k], year, ty);
            TransactionsFromLines(lines[..k + 1], year, ty)
            == TransactionsFromLines(lines[..k], year, ty) + (if rec.Some? then [rec.value] else [])
  {
    var xs := LineResults(lines[..k + 1], year, ty);
    assert xs[..k] == LineResults(lines[..k], year, ty);
  }

  /** `_extract_transactions_from_text`: one pass over the lines, appending
      each line's record. */
  method ExtractTransactionsFromText(text: string, year: int, ty: TransactionType)
    returns (txns: seq<Transaction>)
    ensures txns == TransactionsFromText(text, year, ty)
  {
    var lines := Split(text, '\n');
    txns := [];
    for k := 0 to |lines|
      invariant txns == TransactionsFromLines(lines[..k], year, ty)
    {
      var rec := LineRecord(lines[k], year, ty);
      TransactionsFromLinesSnoc(lines, k, year, ty);
      if rec.Some? {
        txns := txns + [rec.value];
      }
    }
    assert lines[..|lines|] == lines;
  }

  /** The indices of the lines that yield a record, in increasing order;
      every other line, skipped header and footer lines among them, yields
      nothing. */
  function RecordLines(lines: seq<string>, year: int, ty: TransactionType): (idx: seq<nat>)
    requires NoNewlines(lines)
    ensures forall k :: 0 <= k < |idx| ==> idx[k] < |lines| && !IsSkippedLine(lines[idx[k]])
    ensures forall k, l :: 0 <= k < l < |idx| ==> idx[k] < idx[l]
    ensures forall i :: 0 <= i < |lines| && LineRecord(lines[i], year, ty).Some? ==> i in idx
  {
    SomeIndices(LineResults(lines, year, ty))
  }

  /** At most one record per line, in line order: the k-th record is the
      record of the k-th line that yields one. */
  lemma TransactionsFromLinesOrigin(lines: seq<string>, year: int, ty: TransactionType)
    requires NoNewlines(lines)
    ensures var r := TransactionsFromLines(lines, year, ty);
            var idx := RecordLines(lines, year, ty);
            |r| == |idx| && forall k :: 0 <= k < |r| ==> Some(r[k]) == LineRecord(lines[idx[k]], year, ty)
  {
    SomesOrigin(LineResults(lines, year, ty));
  }

  /** Extraction distributes over a split of the lines into two runs. */
  lemma TransactionsFromLinesAppend(a: seq<string>, b: seq<string>, year: int, ty: TransactionType)
    requires NoNewlines(a) && NoNewlines(b)
    ensures NoNewlines(a + b)
    ensures TransactionsFromLines(a + b, year, ty)
         == TransactionsFromLines(a, year, ty) + TransactionsFromLines(b, year, ty)
  {
    var f := LineRecordOf(year, ty);
    MapAppend(a, b, f);
    SomesAppend(Map(a, f), Map(b, f));
  }

  /** Every record of a text block has the block's type, no check number,
      a stripped description of at least three characters, a non-negative
      amount and a date in the given year. */
  lemma TransactionsFromLinesShape(lines: seq<string>, year: int, ty: TransactionType, t: Transaction)
    requires NoNewlines(lines) && t in TransactionsFromLines(lines, year, ty)
    ensures t.txnType == ty && t.checkNumber.None? && |t.description| >= 3
    ensures Strip(t.description) == t.description && t.amount >= 0 && t.date.year == year
  {
    SomesMember(LineResults(lines, year, ty), t);
  }

  /** When no description can end the line after the whole whitespace run
      that follows the date, the engine gives whitespace back and the
      description it then finds is a single whitespace character, which
      strips to nothing: such a line yields no record. */
  lemma GivenBackLineSkipped(line: string, year: int, ty: TransactionType)
    requires '\n' !in line
    requires var st := Strip(line);
             DateAt(st, 0) && forall d: nat :: !LineSplitAt(st, SkipSpaces(st, 5), d)
    ensures LineRecord(line, year, ty).None?
  {
    GivenBackStripped(Strip(line));
  }

  /** Amounts as statements print them are amount texts. */
  lemma FormatCentsIsAmount(cents: nat)
    ensures IsAmountText(FormatCents(cents))
  {
    var g := GroupThousands(NatToDigits(cents / 100));
    GroupThousandsChars(NatToDigits(cents / 100));
    var a := FormatCents(cents);
    assert a == g + "." + TwoDigits(cents % 100);
    forall k | 0 <= k < |a| - 3 ensures IsDigitOrComma(a[k]) {
      assert a[k] == g[k];
    }
  }

  /** The line of a dated transaction as a statement prints it. */
  function FormatLine(month: nat, day: nat, description: string, cents: nat): string
    requires month < 100 && day < 100
  {
    TwoDigits(month) + "/" + TwoDigits(day) + " " + description + " " + FormatCents(cents)
  }

  /** A date, a description and an amount joined by single spaces. */
  predicate JoinableLine(date: string, description: string, amount: string) {
    |date| == 5 && DateAt(date, 0) && IsAmountText(amount)
    && |description| > 0 && !IsSpace(description[0]) && !IsSpace(description[|description| - 1])
    && '\n' !in description
  }

  lemma JoinedLineStripped(date: string, description: string, amount: string)
    requires JoinableLine(date, description, amount)
    ensures var line := date + " " + description + " " + amount;
            '\n' !in line && Strip(line) == line
  {
    var line := date + " " + description + " " + amount;
    var sep := 6 + |description|;
    assert line[sep + 1..] == amount;
    assert forall k :: 0 <= k < 5 ==> line[k] == date[k];
    assert forall k :: 6 <= k < sep ==> line[k] == description[k - 6];
    assert forall k :: sep < k < |line| ==> line[k] == amount[k - sep - 1];
    assert '\n' !in line by {
      forall k | 0 <= k < |line| ensures line[k] != '\n' {
        if sep < k { assert IsDigitOrComma(amount[k - sep - 1]) || amount[k - sep - 1] == '.'; }
      }
    }
    assert IsDigit(line[|line| - 1]);
    StripTrimmed(line);
  }

  /** In such a line the description ends at the space before the amount:
      every earlier whitespace is followed by text holding that space. */
  lemma JoinedLineSplit(date: string, description: string, amount: string)
    requires JoinableLine(date, description, amount)
    ensures var line := date + " " + description + " " + amount;
            FirstSplit(line, 7) == Some(6 + |description|)
  {
    var line := date + " " + description + " " + amount;
    var sep := 6 + |description|;
    assert line[sep] == ' ';
    assert line[sep + 1..] == amount;
    assert !IsSpace(line[sep + 1]) by { assert IsDigitOrComma(amount[0]); }
    assert SplitsAt(line, sep) by {
      assert SkipSpaces(line, sep) == sep + 1;
    }
    assert line[sep - 1] == description[|description| - 1];
    forall e | 7 <= e < sep
      ensures !SplitsAt(line, e)
    {
      if IsSpace(line[e]) {
        var f := SkipSpaces(line, e);
        assert f < sep;
        var rest := line[f..];
        assert rest[sep - f] == ' ';
        assert !IsDigitOrComma(rest[sep - f]);
      }
    }
  }

  /** The table-line pattern takes such a line apart into its three pieces. */
  lemma MatchJoinedLine(date: string, description: string, amount: string)
    requires JoinableLine(date, description, amount)
    ensures '\n' !in date + " " + description + " " + amount
    ensures MatchLine(date + " " + description + " " + amount) == Some(LineMatch(date, description, amount))
  {
    var line := date + " " + description + " " + amount;
    var sep := 6 + |description|;
    JoinedLineStripped(date, description, amount);
    JoinedLineSplit(date, description, amount);
    assert line[..5] == date && DateAt(line, 0);
    assert SkipSpaces(line, 5) == 6 by { assert line[6] == description[0]; }
    assert line[6..sep] == description;
    assert SkipSpaces(line, sep) == sep + 1 by { assert line[sep + 1] == amount[0]; }
    assert line[sep + 1..] == amount;
    assert MatchLine(line) == Some(LineMatch(line[..5], line[6..sep], line[SkipSpaces(line, sep)..]));
  }

  /** A printed table line is read back into the transaction it shows: the
      description is taken whole, even when it holds spaces, digits or
      amounts of its own, since only the last amount ends the line. */
  lemma LineRoundTrip(year: int, month: nat, day: nat, description: string, cents: nat, ty: TransactionType)
    requires month < 100 && day < 100 && IsValidDate(year, month, day)
    requires |description| >= 3 && !IsSpace(description[0]) && !IsSpace(description[|description| - 1])
    requires '\n' !in description
    requires !IsSkippedLine(FormatLine(month, day, description, cents))
    ensures '\n' !in FormatLine(month, day, description, cents)
    ensures LineRecord(FormatLine(month, day, description, cents), year, ty)
         == Some(NewTransaction(Date(year, month, day), description, cents, ty, None))
  {
    var amt := FormatCents(cents);
    var date := TwoDigits(month) + "/" + TwoDigits(day);
    FormatCentsIsAmount(cents);
    assert DateAt(date, 0);
    MatchJoinedLine(date, description, amt);
    assert FormatLine(month, day, description, cents) == date + " " + description + " " + amt;
    StripTrimmed(description);
    ParseDateRoundTrip(year, month, day);
    ParseAmountRoundTrip(cents);
  }
}
