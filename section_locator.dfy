/** Where the withdrawals and deposits tables of a page start and end.
    A section counts only where its header phrase stands in the hundred
    characters before a "DATE DESCRIPTION AMOUNT" table header and is not
    part of a "Total" line; continuation pages, which repeat no section
    header, are recognised by "(continued)" near the top and by keywords
    in the first rows of their table. */
module SectionLocator {
  import opened Wrappers
  import opened Text
  import opened Patterns
  import opened Models
  import opened LineParser

  /** `DATE\s+DESCRIPTION\s+AMOUNT`. */
  const TableHeader: Regex := [[Lit("DATE"), Spaces(true), Lit("DESCRIPTION"), Spaces(true), Lit("AMOUNT")]]

  /** `Other\s*withdrawals?,?\s*debits|Otherwithdrawals?,?debits`. */
  const WithdrawHeader: Regex := [
    [Lit("Other"), Spaces(false), Lit("withdrawal"), Opt('s'), Opt(','), Spaces(false), Lit("debits")],
    [Lit("Otherwithdrawal"), Opt('s'), Opt(','), Lit("debits")]
  ]

  /** `Deposits,?\s*credits\s*and\s*interest|Deposits,?creditsandinterest`. */
  const DepositHeader: Regex := [
    [Lit("Deposits"), Opt(','), Spaces(false), Lit("credits"), Spaces(false), Lit("and"), Spaces(false), Lit("interest")],
    [Lit("Deposits"), Opt(','), Lit("creditsandinterest")]
  ]

  /** `Total\s*other\s*withdrawals|Totalotherwithdrawals`. */
  const TotalWithdrawals: Regex := [
    [Lit("Total"), Spaces(false), Lit("other"), Spaces(false), Lit("withdrawals")],
    [Lit("Totalotherwithdrawals")]
  ]

  /** `Total\s*deposits|Totaldeposits`. */
  const TotalDeposits: Regex := [[Lit("Total"), Spaces(false), Lit("deposits")], [Lit("Totaldeposits")]]

  /** `continued\s*\n|§\s*PAGE`: the foot of a withdrawals page. */
  const WithdrawalsPageEnd: Regex := [
    [Lit("continued"), SpacesNewline],
    [Lit("\U{A7}"), Spaces(false), Lit("PAGE")]
  ]

  /** `Important:|§\s*PAGE`: the foot of a deposits page. */
  const DepositsPageEnd: Regex := [[Lit("Important:")], [Lit("\U{A7}"), Spaces(false), Lit("PAGE")]]

  lemma HeadersStartWithLiteral()
    ensures StartsWithLiteral(TableHeader)
    ensures StartsWithLiteral(WithdrawHeader) && StartsWithLiteral(DepositHeader)
    ensures StartsWithLiteral(TotalWithdrawals) && StartsWithLiteral(TotalDeposits)
  {
  }

  lemma FootsStartWithLiteral()
    ensures StartsWithLiteral(WithdrawalsPageEnd) && StartsWithLiteral(DepositsPageEnd)
  {
  }

  /** The keys of the markers dictionary. */
  datatype Marker = WithdrawHeaderAt | WithdrawTableAt | DepositHeaderAt | DepositTableAt
                  | TotalWithdrawAt | TotalDepositAt

  type Markers = map<Marker, nat>

  /** Where the region searched for a section header starts: at most a
      hundred characters before the table header. */
  function PrefixStart(th: Span): nat {
    if th.start >= 100 then th.start - 100 else 0
  }

  /** "total" occurs, in any case, in the ten characters before p, not
      going below lo. */
  predicate TotalJustBefore(text: string, lo: nat, p: nat)
    requires lo <= p <= |text|
  {
    Contains(Lower(text[if p >= lo + 10 then p - 10 else lo..p]), "total")
  }

  /** The offset in the text of the section header that qualifies the
      table header th: the first match of hp in the hundred characters
      before th, unless "total" occurs in the ten characters before it. */
  function HeaderBefore(text: string, th: Span, hp: Regex): (r: Option<nat>)
    requires th.start <= |text|
    requires StartsWithLiteral(hp)
    ensures r.Some? ==> PrefixStart(th) <= r.value < th.start
  {
    var lo := PrefixStart(th);
    match Search(text[lo..th.start], hp, true)
    case None => None
    case Some(w) => if TotalJustBefore(text, lo, lo + w) then None else Some(lo + w)
  }

  /** The phrase found is the leftmost match of hp in the hundred
      characters before th, and "total" is not in the ten characters before
      it; a phrase is missed only when there is no match, or when the
      leftmost one follows "total". */
  lemma HeaderBeforeRule(text: string, th: Span, hp: Regex)
    requires th.start <= |text|
    requires StartsWithLiteral(hp)
    ensures var r := HeaderBefore(text, th, hp);
            var lo := PrefixStart(th);
            var w := Search(text[lo..th.start], hp, true);
            r.Some? <==> w.Some? && !TotalJustBefore(text, lo, lo + w.value)
    ensures var r := HeaderBefore(text, th, hp);
            var lo := PrefixStart(th);
            r.Some? ==> MatchAny(text[lo..th.start], r.value - lo, hp, true).Some?
                        && (forall j :: 0 <= j < r.value - lo ==> MatchAny(text[lo..th.start], j, hp, true).None?)
                        && !TotalJustBefore(text, lo, r.value)
  {
  }

  /** What one table header qualifies: the end of the header, and the
      offsets of the withdrawals and deposits phrases before it, if any. */
  datatype Qualified = Qualified(tableEnd: nat, withdraw: Option<nat>, deposit: Option<nat>)

  function Qualify(text: string, th: Span, wh: Regex, dh: Regex): Qualified
    requires th.start <= th.end <= |text|
    requires StartsWithLiteral(wh) && StartsWithLiteral(dh)
  {
    Qualified(th.end, HeaderBefore(text, th, wh), HeaderBefore(text, th, dh))
  }

  predicate ValidHeaders(text: string, ths: seq<Span>) {
    forall k :: 0 <= k < |ths| ==> ths[k].start <= ths[k].end <= |text|
  }

  function Qualifications(text: string, ths: seq<Span>, wh: Regex, dh: Regex): (qs: seq<Qualified>)
    requires ValidHeaders(text, ths)
    requires StartsWithLiteral(wh) && StartsWithLiteral(dh)
    ensures |qs| == |ths| && forall k :: 0 <= k < |ths| ==> qs[k] == Qualify(text, ths[k], wh, dh)
  {
    seq(|ths|, k requires 0 <= k < |ths| => Qualify(text, ths[k], wh, dh))
  }

  /** One turn of the marker loop: each section's header and table are set
      by this table header when it qualifies and the section has none yet. */
  function MarkerStep(m: Markers, q: Qualified): Markers {
    MarkSection(MarkSection(m, q.withdraw, q.tableEnd, WithdrawHeaderAt, WithdrawTableAt),
                q.deposit, q.tableEnd, DepositHeaderAt, DepositTableAt)
  }

  /** The header and table markers of one section, set when its phrase
      was found and the section has none yet. */
  function MarkSection(m: Markers, phrase: Option<nat>, tableEnd: nat, header: Marker, table: Marker): Markers {
    if phrase.Some? && header !in m then m[header := phrase.value][table := tableEnd] else m
  }

  /** The markers set by the loop over the table headers, in order. */
  function HeaderMarkers(qs: seq<Qualified>): Markers {
    if |qs| == 0 then map[] else MarkerStep(HeaderMarkers(qs[..|qs| - 1]), qs[|qs| - 1])
  }

  /** The table headers of a page, in order. */
  function TableHeaders(text: string): (r: seq<Span>)
    ensures ValidHeaders(text, r)
  {
    FindAll(text, TableHeader, true)
  }

  /** `_find_section_markers`: the section markers of the table headers,
      then the first "Total other withdrawals" and "Total deposits". */
  function SectionMarkers(text: string): (r: Markers)
  {
    HeadersStartWithLiteral();
    WithTotals(HeaderMarkers(Qualifications(text, TableHeaders(text), WithdrawHeader, DepositHeader)),
               Search(text, TotalWithdrawals, true), Search(text, TotalDeposits, true))
  }

  /** The markers with the offsets of the two total lines added. */
  function WithTotals(m: Markers, tw: Option<nat>, td: Option<nat>): Markers {
    var m1 := if tw.Some? then m[TotalWithdrawAt := tw.value] else m;
    if td.Some? then m1[TotalDepositAt := td.value] else m1
  }

  /** The loop of `_find_section_markers`: one pass over the table
      headers, setting each section's markers at most once. */
  method CollectHeaderMarkers(text: string, ths: seq<Span>, wh: Regex, dh: Regex) returns (markers: Markers)
    requires ValidHeaders(text, ths)
    requires StartsWithLiteral(wh) && StartsWithLiteral(dh)
    ensures markers == HeaderMarkers(Qualifications(text, ths, wh, dh))
  {
    ghost var qs := Qualifications(text, ths, wh, dh);
    markers := map[];
    for i := 0 to |ths|
      invariant markers == HeaderMarkers(qs[..i])
    {
      markers := MarkHeader(text, ths[i], wh, dh, markers);
      HeaderMarkersSnoc(qs, i);
    }
    assert qs[..|qs|] == qs;
  }

  /** One turn of that loop: the phrases before the table header th set
      the markers of a section that has none yet. */
  method MarkHeader(text: string, th: Span, wh: Regex, dh: Regex, markers: Markers) returns (r: Markers)
    requires th.start <= th.end <= |text|
    requires StartsWithLiteral(wh) && StartsWithLiteral(dh)
    ensures r == MarkerStep(markers, Qualify(text, th, wh, dh))
  {
    var w := HeaderBefore(text, th, wh);
    r := markers;
    if w.Some? && WithdrawHeaderAt !in r {
      r := r[WithdrawHeaderAt := w.value][WithdrawTableAt := th.end];
    }
    assert r == MarkSection(markers, w, th.end, WithdrawHeaderAt, WithdrawTableAt);
    ghost var mid := r;
    var d := HeaderBefore(text, th, dh);
    if d.Some? && DepositHeaderAt !in r {
      r := r[DepositHeaderAt := d.value][DepositTableAt := th.end];
    }
    assert r == MarkSection(mid, d, th.end, DepositHeaderAt, DepositTableAt);
  }

  lemma HeaderMarkersSnoc(qs: seq<Qualified>, i: nat)
    requires i < |qs|
    ensures HeaderMarkers(qs[..i + 1]) == MarkerStep(HeaderMarkers(qs[..i]), qs[i])
  {
    assert qs[..i + 1][..i] == qs[..i];
  }

  /** `_find_section_markers`: the markers of the table headers, then the
      two totals. */
  method FindSectionMarkers(text: string) returns (markers: Markers)
    ensures markers == SectionMarkers(text)
  {
    var ths := TableHeaders(text);
    HeadersStartWithLiteral();
    markers := CollectHeaderMarkers(text, ths, WithdrawHeader, DepositHeader);
    var tw := Search(text, TotalWithdrawals, true);
    if tw.Some? {
      markers := markers[TotalWithdrawAt := tw.value];
    }
    var td := Search(text, TotalDeposits, true);
    if td.Some? {
      markers := markers[TotalDepositAt := td.value];
    }
  }

  /** The index of the first qualification with a withdrawals phrase
      (`deposits` false) or with a deposits phrase (`deposits` true). */
  function FirstQualified(qs: seq<Qualified>, deposits: bool): (r: Option<nat>)
    ensures r.Some? ==> r.value < |qs| && Phrase(qs[r.value], deposits).Some?
    ensures r.Some? ==> forall j :: 0 <= j < r.value ==> Phrase(qs[j], deposits).None?
    ensures r.None? ==> forall j :: 0 <= j < |qs| ==> Phrase(qs[j], deposits).None?
  {
    if |qs| == 0 then None
    else
      var n := |qs| - 1;
      var head := FirstQualified(qs[..n], deposits);
      assert forall j :: 0 <= j < n ==> qs[..n][j] == qs[j];
      if head.Some? then head
      else if Phrase(qs[n], deposits).Some? then Some(n)
      else None
  }

  function Phrase(q: Qualified, deposits: bool): Option<nat> {
    if deposits then q.deposit else q.withdraw
  }

  /** Each section's header and table markers are set together, by the
      first table header that qualifies it and by no later one: the header
      marker is the phrase before that table header, the table marker its
      end. The loop sets nothing else. */
  lemma {:induction false} HeaderMarkersFirst(qs: seq<Qualified>)
    ensures var m := HeaderMarkers(qs);
            var fw := FirstQualified(qs, false);
            var fd := FirstQualified(qs, true);
            (WithdrawHeaderAt in m <==> fw.Some?) && (WithdrawTableAt in m <==> fw.Some?)
            && (fw.Some? ==> m[WithdrawHeaderAt] == qs[fw.value].withdraw.value
                             && m[WithdrawTableAt] == qs[fw.value].tableEnd)
            && (DepositHeaderAt in m <==> fd.Some?) && (DepositTableAt in m <==> fd.Some?)
            && (fd.Some? ==> m[DepositHeaderAt] == qs[fd.value].deposit.value
                             && m[DepositTableAt] == qs[fd.value].tableEnd)
            && TotalWithdrawAt !in m && TotalDepositAt !in m
  {
    if |qs| > 0 {
      var n := |qs| - 1;
      HeaderMarkersFirst(qs[..n]);
      assert forall j :: 0 <= j < n ==> qs[..n][j] == qs[j];
    }
  }

  /** The markers of a page, in terms of its table headers: the withdrawals
      header and table markers are present together exactly when some table
      header is preceded by the withdrawals phrase outside a "Total" line,
      and then come from the first such table header, with the phrase in the
      hundred characters before it; likewise for deposits. */
  lemma MarkersFirst(text: string, ths: seq<Span>, wh: Regex, dh: Regex, tw: Option<nat>, td: Option<nat>)
    requires ValidHeaders(text, ths)
    requires StartsWithLiteral(wh) && StartsWithLiteral(dh)
    ensures var m := WithTotals(HeaderMarkers(Qualifications(text, ths, wh, dh)), tw, td);
            var fw := FirstQualified(Qualifications(text, ths, wh, dh), false);
            (WithdrawHeaderAt in m <==> fw.Some?) && (WithdrawTableAt in m <==> fw.Some?)
            && (fw.Some? ==> Some(m[WithdrawHeaderAt]) == HeaderBefore(text, ths[fw.value], wh)
                             && m[WithdrawTableAt] == ths[fw.value].end
                             && ths[fw.value].start - 100 <= m[WithdrawHeaderAt] < ths[fw.value].start)
    ensures var m := WithTotals(HeaderMarkers(Qualifications(text, ths, wh, dh)), tw, td);
            var fd := FirstQualified(Qualifications(text, ths, wh, dh), true);
            (DepositHeaderAt in m <==> fd.Some?) && (DepositTableAt in m <==> fd.Some?)
            && (fd.Some? ==> Some(m[DepositHeaderAt]) == HeaderBefore(text, ths[fd.value], dh)
                             && m[DepositTableAt] == ths[fd.value].end
                             && ths[fd.value].start - 100 <= m[DepositHeaderAt] < ths[fd.value].start)
  {
    var qs := Qualifications(text, ths, wh, dh);
    var h := HeaderMarkers(qs);
    HeaderMarkersFirst(qs);
    WithTotalsKeeps(h, tw, td);
    var fw := FirstQualified(qs, false);
    if fw.Some? {
      assert qs[fw.value] == Qualify(text, ths[fw.value], wh, dh);
    }
    var fd := FirstQualified(qs, true);
    if fd.Some? {
      assert qs[fd.value] == Qualify(text, ths[fd.value], wh, dh);
    }
  }

  /** MarkersFirst for a page's own table headers, phrases and totals. */
  lemma SectionMarkersFirst(text: string)
    ensures StartsWithLiteral(WithdrawHeader) && StartsWithLiteral(DepositHeader)
    ensures var ths := TableHeaders(text);
            var qs := Qualifications(text, ths, WithdrawHeader, DepositHeader);
            var m := SectionMarkers(text);
            var fw := FirstQualified(qs, false);
            var fd := FirstQualified(qs, true);
            (WithdrawHeaderAt in m <==> fw.Some?) && (WithdrawTableAt in m <==> fw.Some?)
            && (fw.Some? ==> Some(m[WithdrawHeaderAt]) == HeaderBefore(text, ths[fw.value], WithdrawHeader)
                             && m[WithdrawTableAt] == ths[fw.value].end)
            && (DepositHeaderAt in m <==> fd.Some?) && (DepositTableAt in m <==> fd.Some?)
            && (fd.Some? ==> Some(m[DepositHeaderAt]) == HeaderBefore(text, ths[fd.value], DepositHeader)
                             && m[DepositTableAt] == ths[fd.value].end)
  {
    HeadersStartWithLiteral();
    MarkersFirst(text, TableHeaders(text), WithdrawHeader, DepositHeader,
                 Search(text, TotalWithdrawals, true), Search(text, TotalDeposits, true));
  }

  /** The totals leave the four table-header markers as the loop set them. */
  lemma WithTotalsKeeps(m: Markers, tw: Option<nat>, td: Option<nat>)
    ensures var r := WithTotals(m, tw, td);
            forall k :: k != TotalWithdrawAt && k != TotalDepositAt ==> (k in r <==> k in m) && (k in m ==> r[k] == m[k])
  {
  }

  /** "(continued)" in the first 200 characters, in any case. */
  predicate IsContinuation(text: string) {
    Contains(Lower(Slice(text, 0, 200)), "(continued)")
  }

  const DepositKeywords: seq<string> := ["DEPOSIT", "EDI PYMNTS", "PAYABLES", "INCOMING WIRE"]
  const WithdrawalKeywords: seq<string> := ["DEBIT", "ACH CORP DEBIT", "WIRE REF#", "ZELLE"]

  /** Some keyword occurs in the upper-cased text. */
  predicate AnyKeyword(text: string, keywords: seq<string>) {
    exists k :: 0 <= k < |keywords| && Contains(Upper(text), keywords[k])
  }

  /** The 500 characters after offset e. */
  function Window(text: string, e: nat): string {
    Slice(text, e, e + 500)
  }

  /** The end of the first table header of the text, if it has one. */
  function FirstTableEnd(text: string): (r: Option<nat>)
    ensures r.Some? ==> r.value <= |text|
  {
    match Search(text, TableHeader, true)
    case None => None
    case Some(p) => MatchAny(text, p, TableHeader, true)
  }

  /** The start of the withdrawals table, and its end where the start
      rule fixes one. */
  function WithdrawalStart(text: string, m: Markers): Option<(nat, Option<nat>)> {
    if WithdrawTableAt in m then Some((m[WithdrawTableAt], None))
    else if IsContinuation(text) then
      if TotalWithdrawAt in m then
        match FirstTableEnd(text)
        case Some(e) => Some((e, Some(m[TotalWithdrawAt])))
        case None => None
      else if DepositHeaderAt !in m && DepositTableAt !in m then
        match FirstTableEnd(text)
        case Some(e) =>
          var hasDeposits := AnyKeyword(Window(text, e), DepositKeywords);
          var hasWithdrawals := AnyKeyword(Window(text, e), WithdrawalKeywords);
          if hasWithdrawals && !hasDeposits then Some((e, None))
          else if hasWithdrawals && hasDeposits then Some((e, None))
          else None
        case None => None
      else None
    else None
  }

  /** Where a table that runs to its page foot ends: at the first foot
      marker after its start, or at the end of the text when there is none. */
  function FootAfter(text: string, start: nat, foot: Regex): (r: nat)
    requires StartsWithLiteral(foot)
    ensures r == |text| || (start <= r < |text| && MatchAny(text[start..], r - start, foot, true).Some?)
    ensures start <= |text| ==> start <= r
    ensures forall j :: 0 <= j < r - start && j <= |Slice(text, start, |text|)|
              ==> MatchAny(Slice(text, start, |text|), j, foot, true).None?
  {
    var rest := Slice(text, start, |text|);
    match Search(rest, foot, true)
    case Some(q) => start + q
    case None => |text|
  }

  /** The end of the withdrawals table when the start rule fixes none: the
      deposits header, else the total line, else the page foot. */
  function WithdrawalEnd(text: string, m: Markers, start: nat): nat {
    if DepositHeaderAt in m then m[DepositHeaderAt]
    else if TotalWithdrawAt in m then m[TotalWithdrawAt]
    else
      FootsStartWithLiteral();
      FootAfter(text, start, WithdrawalsPageEnd)
  }

  /** The span of the withdrawals table, None when it has no start. The end
      may lie before the start; the slice is then empty. */
  function WithdrawalSpan(text: string): Option<Span> {
    var m := SectionMarkers(text);
    match WithdrawalStart(text, m)
    case None => None
    case Some((start, fixedEnd)) =>
      Some(Span(start, if fixedEnd.Some? then fixedEnd.value else WithdrawalEnd(text, m, start)))
  }

  /** `extract_withdrawals_from_page` over the page's text. */
  function WithdrawalsOfPage(text: string, year: int): seq<Transaction> {
    match WithdrawalSpan(text)
    case None => []
    case Some(sp) => TransactionsFromText(Slice(text, sp.start, sp.end), year, Withdrawal)
  }

  /** `extract_withdrawals_from_page`: the branch chain that sets the
      start, and the end when the chain fixes one, then the end rule, then
      the records of the slice. */
  method ExtractWithdrawalsFromPage(text: string, year: int) returns (txns: seq<Transaction>)
    ensures txns == WithdrawalsOfPage(text, year)
  {
    var markers := FindSectionMarkers(text);
    var isContinuation := IsContinuation(text);
    var start: Option<nat> := None;
    var end: Option<nat> := None;
    if WithdrawTableAt in markers {
      start := Some(markers[WithdrawTableAt]);
    } else if isContinuation {
      if TotalWithdrawAt in markers {
        var th := FirstTableEnd(text);
        if th.Some? {
          start := th;
          end := Some(markers[TotalWithdrawAt]);
        }
      } else if DepositHeaderAt !in markers && DepositTableAt !in markers {
        var th := FirstTableEnd(text);
        if th.Some? {
          var content := Window(text, th.value);
          var hasDeposits := AnyKeyword(content, DepositKeywords);
          var hasWithdrawals := AnyKeyword(content, WithdrawalKeywords);
          if hasWithdrawals && !hasDeposits {
            start := th;
          } else if hasWithdrawals && hasDeposits {
            start := th;
          }
        }
      }
    }
    assert WithdrawalStart(text, markers) == if start.Some? then Some((start.value, end)) else None;
    if start.None? {
      return [];
    }
    if end.None? {
      if DepositHeaderAt in markers {
        end := Some(markers[DepositHeaderAt]);
      } else if TotalWithdrawAt in markers {
        end := Some(markers[TotalWithdrawAt]);
      } else {
        FootsStartWithLiteral();
        end := Some(FootAfter(text, start.value, WithdrawalsPageEnd));
      }
    }
    assert WithdrawalSpan(text) == Some(Span(start.value, end.value));
    txns := ExtractTransactionsFromText(Slice(text, start.value, end.value), year, Withdrawal);
  }

  /** No withdrawals are read from a page without a withdrawals table
      marker unless it is a continuation page; with the marker, the table
      starts at it. */
  lemma WithdrawalStartRule(text: string)
    ensures var m := SectionMarkers(text);
            WithdrawalSpan(text).Some? ==> WithdrawTableAt in m || IsContinuation(text)
    ensures var m := SectionMarkers(text);
            WithdrawTableAt in m ==> WithdrawalSpan(text).Some?
                                     && WithdrawalSpan(text).value.start == m[WithdrawTableAt]
  {
  }

  /** On a continuation page without totals or deposit markers, the
      withdrawals start exactly when a withdrawal keyword occurs in the 500
      characters after the first table header: deposit keywords alone veto
      the start, and both kinds together still allow it. */
  lemma WithdrawalKeywordRule(text: string)
    requires var m := SectionMarkers(text);
             WithdrawTableAt !in m && IsContinuation(text) && TotalWithdrawAt !in m
             && DepositHeaderAt !in m && DepositTableAt !in m
    ensures WithdrawalSpan(text).Some?
            <==> FirstTableEnd(text).Some?
                 && AnyKeyword(Window(text, FirstTableEnd(text).value), WithdrawalKeywords)
  {
  }

  /** On a continuation page that closes the withdrawals, the table runs
      exactly from the end of the first table header to the total line. */
  lemma WithdrawalClosingSpan(text: string)
    requires var m := SectionMarkers(text);
             WithdrawTableAt !in m && IsContinuation(text) && TotalWithdrawAt in m
    ensures WithdrawalSpan(text)
            == match FirstTableEnd(text)
               case Some(e) => Some(Span(e, SectionMarkers(text)[TotalWithdrawAt]))
               case None => None
  {
  }

  /** Otherwise the end is the deposits header, else the total line, else
      the first page foot after the start, else the end of the text. */
  lemma WithdrawalEndRule(text: string)
    requires WithdrawalSpan(text).Some?
    requires var m := SectionMarkers(text);
             !(WithdrawTableAt !in m && TotalWithdrawAt in m)
    ensures var m := SectionMarkers(text);
            var sp := WithdrawalSpan(text).value;
            sp.end == (if DepositHeaderAt in m then m[DepositHeaderAt]
                       else if TotalWithdrawAt in m then m[TotalWithdrawAt]
                       else FootAfter(text, sp.start, WithdrawalsPageEnd))
  {
  }

  /** The start of the deposits table. */
  function DepositStart(text: string, m: Markers): Option<nat> {
    if DepositTableAt in m then Some(m[DepositTableAt])
    else if IsContinuation(text) then
      if TotalWithdrawAt in m then StartAfterTotal(text, m[TotalWithdrawAt])
      else if WithdrawHeaderAt !in m && WithdrawTableAt !in m then StartByKeyword(text)
      else None
    else None
  }

  /** After a total-withdrawals line at tw: the end of the first table
      header after it. */
  function StartAfterTotal(text: string, tw: nat): Option<nat> {
    match FirstTableEnd(Slice(text, tw, |text|))
    case Some(e) => Some(tw + e)
    case None => None
  }

  /** Without any withdrawals marker: the end of the first table header,
      when a deposit keyword follows it. */
  function StartByKeyword(text: string): Option<nat> {
    match FirstTableEnd(text)
    case Some(e) => if AnyKeyword(Window(text, e), DepositKeywords) then Some(e) else None
    case None => None
  }

  /** The span of the deposits table, None when it has no start: it ends
      at the total line, else at the first page foot after the start. */
  function DepositSpan(text: string): Option<Span> {
    var m := SectionMarkers(text);
    match DepositStart(text, m)
    case None => None
    case Some(start) =>
      FootsStartWithLiteral();
      Some(Span(start, if TotalDepositAt in m then m[TotalDepositAt]
                       else FootAfter(text, start, DepositsPageEnd)))
  }

  /** `extract_deposits_from_page` over the page's text. */
  function DepositsOfPage(text: string, year: int): seq<Transaction> {
    match DepositSpan(text)
    case None => []
    case Some(sp) => TransactionsFromText(Slice(text, sp.start, sp.end), year, Deposit)
  }

  /** `extract_deposits_from_page`: the start from the branch chain, then
      the end rule, then the records of the slice. */
  method ExtractDepositsFromPage(text: string, year: int) returns (txns: seq<Transaction>)
    ensures txns == DepositsOfPage(text, year)
  {
    var markers := FindSectionMarkers(text);
    var start := FindDepositStart(text, markers);
    if start.None? {
      return [];
    }
    var end: nat;
    if TotalDepositAt in markers {
      end := markers[TotalDepositAt];
    } else {
      FootsStartWithLiteral();
      end := FootAfter(text, start.value, DepositsPageEnd);
    }
    assert DepositSpan(text) == Some(Span(start.value, end));
    txns := ExtractTransactionsFromText(Slice(text, start.value, end), year, Deposit);
  }

  /** The branch chain of `extract_deposits_from_page` that sets `start`. */
  method FindDepositStart(text: string, markers: Markers) returns (start: Option<nat>)
    ensures start == DepositStart(text, markers)
  {
    var isContinuation := IsContinuation(text);
    start := None;
    if DepositTableAt in markers {
      start := Some(markers[DepositTableAt]);
    } else if isContinuation {
      if TotalWithdrawAt in markers {
        start := FindStartAfterTotal(text, markers[TotalWithdrawAt]);
      } else if WithdrawHeaderAt !in markers && WithdrawTableAt !in markers {
        start := FindStartByKeyword(text);
      }
    }
  }

  /** The branch for a continuation page with a total-withdrawals line. */
  method FindStartAfterTotal(text: string, tw: nat) returns (start: Option<nat>)
    ensures start == StartAfterTotal(text, tw)
  {
    start := None;
    var th := FirstTableEnd(Slice(text, tw, |text|));
    if th.Some? {
      start := Some(tw + th.value);
    }
  }

  /** The branch for a continuation page without withdrawals markers. */
  method FindStartByKeyword(text: string) returns (start: Option<nat>)
    ensures start == StartByKeyword(text)
  {
    start := None;
    var th := FirstTableEnd(text);
    if th.Some? {
      var content := Window(text, th.value);
      if AnyKeyword(content, DepositKeywords) {
        start := th;
      }
    }
  }

  /** No deposits are read from a page without a deposits table marker
      unless it is a continuation page; with the marker, the table starts at
      it. On a continuation page with a total-withdrawals line, the table
      header is looked for only after that line, so the deposits start
      after it. */
  lemma DepositStartRule(text: string)
    ensures var m := SectionMarkers(text);
            DepositSpan(text).Some? ==> DepositTableAt in m || IsContinuation(text)
    ensures var m := SectionMarkers(text);
            DepositTableAt in m ==> DepositSpan(text).Some? && DepositSpan(text).value.start == m[DepositTableAt]
    ensures var m := SectionMarkers(text);
            DepositSpan(text).Some? && DepositTableAt !in m && TotalWithdrawAt in m
            ==> DepositSpan(text).value.start >= m[TotalWithdrawAt]
  {
  }

  /** On a continuation page without any withdrawals marker, the deposits
      start exactly when a deposit keyword occurs in the 500 characters
      after the first table header. */
  lemma DepositKeywordRule(text: string)
    requires var m := SectionMarkers(text);
             DepositTableAt !in m && IsContinuation(text) && TotalWithdrawAt !in m
             && WithdrawHeaderAt !in m && WithdrawTableAt !in m
    ensures DepositSpan(text).Some?
            <==> FirstTableEnd(text).Some?
                 && AnyKeyword(Window(text, FirstTableEnd(text).value), DepositKeywords)
  {
  }

  /** An empty slice holds no records. */
  lemma EmptyTextNoRecords(year: int, ty: TransactionType)
    ensures TransactionsFromText("", year, ty) == []
  {
    assert Split("", '\n') == [""];
    assert LineResults([""], year, ty) == [None];
  }

  /** A span whose end lies before its start yields no withdrawals. */
  lemma InvertedWithdrawalSpan(text: string, year: int)
    requires WithdrawalSpan(text).Some? && WithdrawalSpan(text).value.end <= WithdrawalSpan(text).value.start
    ensures WithdrawalsOfPage(text, year) == []
  {
    EmptyTextNoRecords(year, Withdrawal);
  }

  /** A span whose end lies before its start yields no deposits. */
  lemma InvertedDepositSpan(text: string, year: int)
    requires DepositSpan(text).Some? && DepositSpan(text).value.end <= DepositSpan(text).value.start
    ensures DepositsOfPage(text, year) == []
  {
    EmptyTextNoRecords(year, Deposit);
  }
}
