/** Which pages of a Truist statement hold transactions. Boilerplate
    phrases rule a page out whatever else it holds; then a page whose text
    is shorter than a hundred characters once stripped is ruled out; then
    any table or section phrase rules it in; otherwise it takes at least
    three "MM/DD ... 1.23" lines. */
module PageClassifier {
  import opened Wrappers
  import opened Text
  import opened Patterns
  import LineParser

  /** `Checks`, `Other\s*withdrawals`, `Deposits,?\s*credits`,
      `DATE\s+DESCRIPTION\s+AMOUNT`, `DATE\s+CHECK\s*#\s+AMOUNT`. */
  const TransactionIndicators: Regex := [
    [Lit("Checks")],
    [Lit("Other"), Spaces(false), Lit("withdrawals")],
    [Lit("Deposits"), Opt(','), Spaces(false), Lit("credits")],
    [Lit("DATE"), Spaces(true), Lit("DESCRIPTION"), Spaces(true), Lit("AMOUNT")],
    [Lit("DATE"), Spaces(true), Lit("CHECK"), Spaces(false), Lit("#"), Spaces(true), Lit("AMOUNT")]
  ]

  /** `Questions,?\s*comments\s*or\s*errors\?`, `Electronic\s*fund\s*transfers`,
      `How\s*to\s*Reconcile\s*Your\s*Account`, `Billing\s*Rights\s*Summary`,
      `Mail-in\s*deposits`. */
  const BoilerplateIndicators: Regex := [
    [Lit("Questions"), Opt(','), Spaces(false), Lit("comments"), Spaces(false), Lit("or"),
     Spaces(false), Lit("errors?")],
    [Lit("Electronic"), Spaces(false), Lit("fund"), Spaces(false), Lit("transfers")],
    [Lit("How"), Spaces(false), Lit("to"), Spaces(false), Lit("Reconcile"), Spaces(false),
     Lit("Your"), Spaces(false), Lit("Account")],
    [Lit("Billing"), Spaces(false), Lit("Rights"), Spaces(false), Lit("Summary")],
    [Lit("Mail-in"), Spaces(false), Lit("deposits")]
  ]

  /** The loop over a pattern list with its early return: some pattern is
      found by `re.search(pattern, text, re.IGNORECASE)`. */
  function AnyFound(text: string, pats: Regex): (r: bool)
    ensures r <==> exists k :: 0 <= k < |pats| && Search(text, [pats[k]], true).Some?
  {
    if |pats| == 0 then false
    else if Search(text, [pats[0]], true).Some? then true
    else
      var rest := AnyFound(text, pats[1..]);
      assert forall k :: 1 <= k < |pats| ==> pats[1..][k - 1] == pats[k];
      rest
  }

  /** One pattern is found exactly when it matches at some offset. */
  lemma SearchOne(text: string, p: Pattern)
    ensures Search(text, [p], true).Some? <==> exists j :: 0 <= j <= |text| && MatchAt(text, j, p, true).Some?
  {
    assert [p][0] == p;
    var r := Search(text, [p], true);
    if r.Some? {
      assert MatchAny(text, r.value, [p], true).Some?;
      assert MatchAt(text, r.value, p, true).Some?;
    } else {
      forall j | 0 <= j <= |text| ensures MatchAt(text, j, p, true).None? {
        assert MatchAny(text, j, [p], true).None?;
      }
    }
  }

  /** A pattern list is found exactly when one of its patterns matches, in
      any case, at some offset of the text. */
  lemma FoundSomewhere(text: string, pats: Regex)
    ensures AnyFound(text, pats)
            <==> exists j, k :: 0 <= j <= |text| && 0 <= k < |pats| && MatchAt(text, j, pats[k], true).Some?
  {
    if AnyFound(text, pats) {
      var k :| 0 <= k < |pats| && Search(text, [pats[k]], true).Some?;
      SearchOne(text, pats[k]);
    }
    if exists j, k :: 0 <= j <= |text| && 0 <= k < |pats| && MatchAt(text, j, pats[k], true).Some? {
      var j, k :| 0 <= j <= |text| && 0 <= k < |pats| && MatchAt(text, j, pats[k], true).Some?;
      SearchOne(text, pats[k]);
    }
  }

  // ---------------------------------------------------------------------
  // `\d{2}/\d{2}\s+.*\d+\.\d{2}`

  /** Where `\d+\.\d{2}` matching at q ends. The digit run is taken whole:
      a shorter one is followed by a digit, not the point. */
  function DecimalEnd(s: string, q: nat): (r: Option<nat>)
    requires q <= |s|
    ensures r.Some? ==> q < r.value <= |s|
  {
    if q < |s| && IsDigit(s[q]) then
      var d := SkipDigits(s, q);
      if d + 3 <= |s| && s[d] == '.' && IsDigit(s[d + 1]) && IsDigit(s[d + 2]) then Some(d + 3) else None
    else None
  }

  /** The end of the line holding offset i: its first newline, or the end
      of the text. */
  function LineEnd(s: string, i: nat): (r: nat)
    requires i <= |s|
    ensures i <= r <= |s| && (r == |s| || s[r] == '\n')
    ensures forall k :: i <= k < r ==> s[k] != '\n'
    decreases |s| - i
  {
    if i == |s| || s[i] == '\n' then i else LineEnd(s, i + 1)
  }

  /** The greedy `.*` gives characters back from the end of the line until
      `\d+\.\d{2}` matches: the decimal that starts last in [lo, hi). */
  function LastDecimal(s: string, lo: nat, hi: nat): (r: Option<nat>)
    requires lo <= hi <= |s|
    ensures r.None? ==> forall q :: lo <= q < hi ==> DecimalEnd(s, q).None?
    ensures r.Some? ==> lo <= r.value < hi && DecimalEnd(s, r.value).Some?
    ensures r.Some? ==> forall q :: r.value < q < hi ==> DecimalEnd(s, q).None?
    decreases hi
  {
    if hi == lo then None
    else if DecimalEnd(s, hi - 1).Some? then Some(hi - 1)
    else LastDecimal(s, lo, hi - 1)
  }

  /** Where the date/amount pattern matching at i ends: `\s+` takes the
      whole whitespace run after the date, newlines included, and the
      amount is looked for on the line where that run ends. Giving
      whitespace back to `.*` cannot help: it adds only whitespace to the
      front of the same line, or moves `.*` onto a line of whitespace. */
  function DateAmountAt(s: string, i: nat): (r: Option<nat>)
    requires i <= |s|
    ensures r.Some? ==> i < r.value <= |s|
  {
    if LineParser.DateAt(s, i) then
      var w := SkipSpaces(s, i + 5);
      if w == i + 5 then None
      else
        match LastDecimal(s, w, LineEnd(s, w))
        case Some(q) => DecimalEnd(s, q)
        case None => None
    else None
  }

  /** The regex's own reading, with every way of splitting the text among
      its parts: a date at i, a non-empty whitespace run up to w, any
      characters other than a newline up to q, and a decimal from q to e. */
  predicate DateAmountMatch(s: string, i: nat, w: nat, q: nat, e: nat) {
    LineParser.DateAt(s, i) && i + 5 < w <= q <= |s|
    && (forall k :: i + 5 <= k < w ==> IsSpace(s[k]))
    && (forall k :: w <= k < q ==> s[k] != '\n')
    && DecimalEnd(s, q) == Some(e)
  }

  /** The pattern matches at i exactly when some split of the text among
      its parts exists, and the greedy match is one of them. */
  lemma DateAmountAtMatches(s: string, i: nat)
    requires i <= |s|
    ensures DateAmountAt(s, i).Some? <==> exists w, q, e :: DateAmountMatch(s, i, w, q, e)
    ensures DateAmountAt(s, i).Some? ==> exists w, q :: DateAmountMatch(s, i, w, q, DateAmountAt(s, i).value)
  {
    if DateAmountAt(s, i).Some? {
      var w := SkipSpaces(s, i + 5);
      var q := LastDecimal(s, w, LineEnd(s, w)).value;
      assert DateAmountMatch(s, i, w, q, DateAmountAt(s, i).value);
    }
    if exists w, q, e :: DateAmountMatch(s, i, w, q, e) {
      var w: nat, q: nat, e: nat :| DateAmountMatch(s, i, w, q, e);
      var w0 := SkipSpaces(s, i + 5);
      assert w0 > i + 5 by { assert IsSpace(s[i + 5]); }
      assert IsDigit(s[q]) && !IsSpace(s[q]) && s[q] != '\n';
      assert w <= w0 <= q;
      assert q < LineEnd(s, w0);
    }
  }

  /** The end of the date/amount match at each offset of s, the end of s
      included. */
  function DateAmountEnds(s: string): (ends: seq<Option<nat>>)
    ensures |ends| == |s| + 1 && ValidEnds(ends)
    ensures forall i :: 0 <= i <= |s| ==> ends[i] == DateAmountAt(s, i)
  {
    seq(|s| + 1, i requires 0 <= i <= |s| => DateAmountAt(s, i))
  }

  /** Every match ends after its start, within the text. */
  predicate ValidEnds(ends: seq<Option<nat>>) {
    forall i :: 0 <= i < |ends| && ends[i].Some? ==> i < ends[i].value < |ends|
  }

  /** `re.findall` from pos, given the end of the match at each offset:
      each match is searched from the end of the previous one. */
  function Scan(ends: seq<Option<nat>>, pos: nat): (r: seq<Span>)
    requires ValidEnds(ends) && pos < |ends|
    ensures forall k :: 0 <= k < |r| ==> pos <= r[k].start < r[k].end < |ends|
    ensures forall k :: 0 <= k < |r| ==> ends[r[k].start] == Some(r[k].end)
    ensures forall k :: 0 <= k < |r| - 1 ==> r[k].end <= r[k + 1].start
    decreases |ends| - pos
  {
    if pos == |ends| - 1 then []
    else
      match ends[pos]
      case Some(e) => [Span(pos, e)] + Scan(ends, e)
      case None => Scan(ends, pos + 1)
  }

  /** Offset j lies inside one of the spans. */
  predicate InSomeSpan(spans: seq<Span>, j: nat) {
    exists k :: 0 <= k < |spans| && spans[k].start <= j < spans[k].end
  }

  /** No match is skipped: every offset before the last where a match
      starts lies inside one of the matches Scan lists. */
  lemma {:induction false} ScanCovers(ends: seq<Option<nat>>, pos: nat, j: nat)
    requires ValidEnds(ends) && pos <= j < |ends| && ends[j].Some?
    ensures InSomeSpan(Scan(ends, pos), j)
    decreases |ends| - pos
  {
    var r := Scan(ends, pos);
    if ends[pos].Some? {
      var e := ends[pos].value;
      if j >= e {
        ScanCovers(ends, e, j);
        var rest := Scan(ends, e);
        var k :| 0 <= k < |rest| && rest[k].start <= j < rest[k].end;
        assert r[k + 1] == rest[k];
      } else {
        assert r[0].start <= j < r[0].end;
      }
    } else {
      ScanCovers(ends, pos + 1, j);
    }
  }

  /** `re.findall(date_amount_pattern, text)`. */
  function DateAmountMatches(s: string): (r: seq<Span>)
    ensures forall k :: 0 <= k < |r| ==> r[k].start < r[k].end <= |s|
    ensures forall k :: 0 <= k < |r| ==> DateAmountAt(s, r[k].start) == Some(r[k].end)
    ensures forall k :: 0 <= k < |r| - 1 ==> r[k].end <= r[k + 1].start
  {
    Scan(DateAmountEnds(s), 0)
  }

  /** Every offset where the pattern matches starts, or lies inside, one of
      the matches found. */
  lemma DateAmountCovers(s: string, j: nat)
    requires j <= |s| && DateAmountAt(s, j).Some?
    ensures InSomeSpan(DateAmountMatches(s), j)
  {
    ScanCovers(DateAmountEnds(s), 0, j);
  }

  /** `is_transaction_page` over the page's text. */
  function IsTransactionPage(text: string): bool {
    if AnyFound(text, BoilerplateIndicators) then false
    else if |Strip(text)| < 100 then false
    else if AnyFound(text, TransactionIndicators) then true
    else |DateAmountMatches(text)| >= 3
  }

  /** A boilerplate phrase anywhere, in any case, rules the page out, even
      a page with a table header or many date/amount lines. */
  lemma BoilerplateWins(text: string, j: nat, k: nat)
    requires j <= |text| && k < |BoilerplateIndicators|
    requires MatchAt(text, j, BoilerplateIndicators[k], true).Some?
    ensures !IsTransactionPage(text)
  {
    FoundSomewhere(text, BoilerplateIndicators);
  }

  /** Without boilerplate, a page whose stripped text is shorter than a
      hundred characters is ruled out. */
  lemma ShortPageRule(text: string)
    requires forall j, k :: 0 <= j <= |text| && 0 <= k < |BoilerplateIndicators|
                            ==> MatchAt(text, j, BoilerplateIndicators[k], true).None?
    requires |Strip(text)| < 100
    ensures !IsTransactionPage(text)
  {
    FoundSomewhere(text, BoilerplateIndicators);
  }

  /** Without boilerplate, on a page that is long enough, the bare word
      "checks" in any case rules the page in. */
  lemma ChecksWordRule(text: string, j: nat)
    requires forall j, k :: 0 <= j <= |text| && 0 <= k < |BoilerplateIndicators|
                            ==> MatchAt(text, j, BoilerplateIndicators[k], true).None?
    requires |Strip(text)| >= 100
    requires LitAt(text, j, "Checks", true)
    ensures IsTransactionPage(text)
  {
    FoundSomewhere(text, BoilerplateIndicators);
    WordFound(text, j, "Checks", TransactionIndicators, 0);
  }

  /** A pattern list whose k-th pattern is the word w is found wherever
      w occurs. */
  lemma WordFound(text: string, j: nat, w: string, pats: Regex, k: nat)
    requires k < |pats| && pats[k] == [Lit(w)]
    requires LitAt(text, j, w, true)
    ensures AnyFound(text, pats)
  {
    FoundSomewhere(text, pats);
    assert MatchAt(text, j, pats[k], true).Some?;
  }

  /** Without boilerplate or any indicator, on a page that is long enough,
      the page holds transactions exactly when at least three date/amount
      matches are found. */
  lemma CountRule(text: string)
    requires forall j, k :: 0 <= j <= |text| && 0 <= k < |BoilerplateIndicators|
                            ==> MatchAt(text, j, BoilerplateIndicators[k], true).None?
    requires forall j, k :: 0 <= j <= |text| && 0 <= k < |TransactionIndicators|
                            ==> MatchAt(text, j, TransactionIndicators[k], true).None?
    requires |Strip(text)| >= 100
    ensures IsTransactionPage(text) <==> |DateAmountMatches(text)| >= 3
  {
    FoundSomewhere(text, BoilerplateIndicators);
    FoundSomewhere(text, TransactionIndicators);
  }

  /** `classify_pages`: each page index, from 0, to its classification. */
  function ClassifyPages(pages: seq<string>): (r: map<int, bool>)
    ensures forall i :: i in r <==> 0 <= i < |pages|
    ensures forall i :: 0 <= i < |pages| ==> r[i] == IsTransactionPage(pages[i])
  {
    map i | 0 <= i < |pages| :: IsTransactionPage(pages[i])
  }
}
