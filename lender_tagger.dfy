/** Lender tagging: a transaction's description is matched against each
    lender's keywords and against the transfer keywords, after both are
    lower-cased and stripped of ASCII punctuation; a statement's tagged
    deposits and withdrawals are then summed into transfer and payment
    summaries, overall and per lender. Amounts are in cents. */
module LenderTagger {
  import opened Wrappers
  import opened Text
  import opened Models

  // ---------------------------------------------------------------------
  // Normalisation and keyword matching

  /** The characters of Python's `string.punctuation`. */
  predicate IsPunct(c: char) {
    ('!' <= c <= '/') || (':' <= c <= '@') || ('[' <= c <= '`') || ('{' <= c <= '~')
  }

  /** s without its punctuation characters, the others in order. */
  function StripPunct(s: string): (r: string)
    ensures |r| <= |s|
    ensures forall k :: 0 <= k < |r| ==> !IsPunct(r[k])
    ensures (forall k :: 0 <= k < |s| ==> ToLower(s[k]) == s[k]) ==> forall k :: 0 <= k < |r| ==> ToLower(r[k]) == r[k]
  {
    if |s| == 0 then []
    else
      var n := |s| - 1;
      assert forall k :: 0 <= k < n ==> s[..n][k] == s[k];
      StripPunct(s[..n]) + (if IsPunct(s[n]) then [] else [s[n]])
  }

  /** A string without punctuation is left as it is. */
  lemma {:induction false} StripPunctNone(s: string)
    requires forall k :: 0 <= k < |s| ==> !IsPunct(s[k])
    ensures StripPunct(s) == s
  {
    if |s| > 0 {
      var n := |s| - 1;
      assert forall k :: 0 <= k < n ==> s[..n][k] == s[k];
      StripPunctNone(s[..n]);
      assert s[..n] + [s[n]] == s;
    }
  }

  /** `_normalize_text`: lower-case, then delete the punctuation. */
  function Normalize(s: string): (r: string)
    ensures forall k :: 0 <= k < |r| ==> !IsPunct(r[k]) && ToLower(r[k]) == r[k]
  {
    StripPunct(Lower(s))
  }

  /** Normalising twice is normalising once. */
  lemma NormalizeIdempotent(s: string)
    ensures Normalize(Normalize(s)) == Normalize(s)
  {
    var n := Normalize(s);
    assert Lower(n) == n;
    StripPunctNone(n);
  }

  /** Normalising forgets the case a text was written in. */
  lemma NormalizeIgnoresCase(s: string)
    ensures Normalize(Upper(s)) == Normalize(s)
  {
    LowerUpper(s);
  }

  /** `_matches_keyword`: the normalised keyword occurs in the normalised
      description. */
  predicate MatchesKeyword(description: string, keyword: string) {
    Contains(Normalize(description), Normalize(keyword))
  }

  /** A keyword made only of punctuation normalises to the empty string
      and so matches every description. */
  lemma PunctuationKeywordMatchesAll(description: string, keyword: string)
    requires forall k :: 0 <= k < |keyword| ==> IsPunct(keyword[k])
    ensures MatchesKeyword(description, keyword)
  {
    assert forall k :: 0 <= k < |keyword| ==> Lower(keyword)[k] == keyword[k];
    PunctOnlyStrips(Lower(keyword));
    assert OccursAt(Normalize(description), [], 0);
  }

  lemma {:induction false} PunctOnlyStrips(s: string)
    requires forall k :: 0 <= k < |s| ==> IsPunct(s[k])
    ensures StripPunct(s) == []
  {
    if |s| > 0 {
      var n := |s| - 1;
      assert forall k :: 0 <= k < n ==> s[..n][k] == s[k];
      PunctOnlyStrips(s[..n]);
    }
  }

  /** Matching is blind to the case of the description and the keyword. */
  lemma MatchIgnoresCase(description: string, keyword: string)
    ensures MatchesKeyword(Upper(description), Upper(keyword)) == MatchesKeyword(description, keyword)
  {
    NormalizeIgnoresCase(description);
    NormalizeIgnoresCase(keyword);
  }

  // ---------------------------------------------------------------------
  // Tagging one transaction

  datatype LenderMatch = LenderMatch(lenderName: string, matchedKeyword: string)

  datatype TaggedTransaction = TaggedTransaction(
    transaction: Transaction,
    lenderMatches: seq<LenderMatch>,
    isTransfer: bool)

  /** The keywords file: lenders with their keyword lists in file order,
      and the transfer keywords; a missing section is None. */
  datatype Keywords = Keywords(
    businessCategoryKeywords: Option<seq<(string, seq<string>)>>,
    transferKeywords: Option<seq<string>>)

  /** `keywords.get(..., {})` and `keywords.get(..., [])`. */
  function Lenders(k: Keywords): seq<(string, seq<string>)> {
    match k.businessCategoryKeywords case Some(b) => b case None => []
  }

  function TransferKeywords(k: Keywords): seq<string> {
    match k.transferKeywords case Some(t) => t case None => []
  }

  /** The lender names of a dictionary are distinct. */
  predicate DistinctLenders(lenders: seq<(string, seq<string>)>) {
    forall i, j :: 0 <= i < j < |lenders| ==> lenders[i].0 != lenders[j].0
  }

  /** A keyword that counts: a non-empty one that matches. */
  predicate Hits(description: string, keyword: string) {
    keyword != "" && MatchesKeyword(description, keyword)
  }

  /** The first keyword of the list that counts for the description. */
  function FirstMatch(description: string, keywords: seq<string>): (r: Option<string>)
    ensures r.Some? ==> exists i :: 0 <= i < |keywords| && keywords[i] == r.value && Hits(description, keywords[i])
                                    && forall j :: 0 <= j < i ==> !Hits(description, keywords[j])
    ensures r.None? <==> forall i :: 0 <= i < |keywords| ==> !Hits(description, keywords[i])
  {
    if |keywords| == 0 then None
    else if Hits(description, keywords[0]) then Some(keywords[0])
    else
      var r := FirstMatch(description, keywords[1..]);
      assert forall i :: 1 <= i < |keywords| ==> keywords[1..][i - 1] == keywords[i];
      if r.Some? then
        ghost var i :| 0 <= i < |keywords[1..]| && keywords[1..][i] == r.value && Hits(description, keywords[1..][i])
                       && forall j :: 0 <= j < i ==> !Hits(description, keywords[1..][j]);
        assert keywords[i + 1] == r.value && forall j :: 0 <= j < i + 1 ==> !Hits(description, keywords[j]);
        r
      else r
  }

  /** The match a lender contributes: its first keyword that counts. */
  function MatchOf(description: string, lender: (string, seq<string>)): Option<LenderMatch> {
    match FirstMatch(description, lender.1)
    case Some(kw) => Some(LenderMatch(lender.0, kw))
    case None => None
  }

  function PerLender(description: string, lenders: seq<(string, seq<string>)>): (r: seq<Option<LenderMatch>>)
    ensures |r| == |lenders| && forall i :: 0 <= i < |lenders| ==> r[i] == MatchOf(description, lenders[i])
  {
    seq(|lenders|, i requires 0 <= i < |lenders| => MatchOf(description, lenders[i]))
  }

  /** The lender matches of a description, in dictionary order. */
  function LenderMatches(description: string, lenders: seq<(string, seq<string>)>): seq<LenderMatch> {
    Somes(PerLender(description, lenders))
  }

  lemma LenderMatchesSnoc(description: string, lenders: seq<(string, seq<string>)>, i: nat)
    requires i < |lenders|
    ensures var m := MatchOf(description, lenders[i]);
            LenderMatches(description, lenders[..i + 1])
            == LenderMatches(description, lenders[..i]) + (if m.Some? then [m.value] else [])
  {
    var xs := PerLender(description, lenders[..i + 1]);
    assert xs[..i] == PerLender(description, lenders[..i]);
    assert xs[i] == MatchOf(description, lenders[i]);
  }

  /** A match is recorded for a lender exactly when one of its non-empty
      keywords matches, and the recorded keyword is the first such. */
  lemma LenderMatchesMembers(description: string, lenders: seq<(string, seq<string>)>, m: LenderMatch)
    ensures m in LenderMatches(description, lenders)
            <==> exists i :: 0 <= i < |lenders| && lenders[i].0 == m.lenderName
                             && FirstMatch(description, lenders[i].1) == Some(m.matchedKeyword)
  {
    if m in LenderMatches(description, lenders) {
      LenderMatchesSound(description, lenders, m);
    }
    if exists i :: 0 <= i < |lenders| && lenders[i].0 == m.lenderName
                   && FirstMatch(description, lenders[i].1) == Some(m.matchedKeyword) {
      var i :| 0 <= i < |lenders| && lenders[i].0 == m.lenderName
               && FirstMatch(description, lenders[i].1) == Some(m.matchedKeyword);
      LenderMatchesComplete(description, lenders, i);
    }
  }

  lemma LenderMatchesSound(description: string, lenders: seq<(string, seq<string>)>, m: LenderMatch)
    requires m in LenderMatches(description, lenders)
    ensures exists i :: 0 <= i < |lenders| && lenders[i].0 == m.lenderName
                        && FirstMatch(description, lenders[i].1) == Some(m.matchedKeyword)
  {
    var xs := PerLender(description, lenders);
    SomesMember(xs, m);
    var i :| 0 <= i < |xs| && xs[i] == Some(m);
    assert MatchOf(description, lenders[i]) == Some(m);
  }

  lemma LenderMatchesComplete(description: string, lenders: seq<(string, seq<string>)>, i: nat)
    requires i < |lenders| && FirstMatch(description, lenders[i].1).Some?
    ensures LenderMatch(lenders[i].0, FirstMatch(description, lenders[i].1).value) in LenderMatches(description, lenders)
  {
    var xs := PerLender(description, lenders);
    assert xs[i] == Some(LenderMatch(lenders[i].0, FirstMatch(description, lenders[i].1).value));
    SomesOrigin(xs);
    var k :| 0 <= k < |SomeIndices(xs)| && SomeIndices(xs)[k] == i;
    assert Some(Somes(xs)[k]) == xs[i];
  }

  /** Matches come in dictionary order, and with distinct lender names no
      lender is matched twice. */
  lemma LenderMatchesOrder(description: string, lenders: seq<(string, seq<string>)>)
    ensures var r := LenderMatches(description, lenders);
            var idx := SomeIndices(PerLender(description, lenders));
            |r| == |idx| && forall k :: 0 <= k < |r| ==> r[k].lenderName == lenders[idx[k]].0
    ensures DistinctLenders(lenders) ==> DistinctNames(LenderMatches(description, lenders))
  {
    var xs := PerLender(description, lenders);
    SomesOrigin(xs);
  }

  predicate DistinctNames(ms: seq<LenderMatch>) {
    forall i, j :: 0 <= i < j < |ms| ==> ms[i].lenderName != ms[j].lenderName
  }

  /** `is_transfer`: some non-empty transfer keyword matches. */
  function AnyHit(description: string, keywords: seq<string>): (r: bool)
    ensures r <==> exists i :: 0 <= i < |keywords| && Hits(description, keywords[i])
  {
    FirstMatch(description, keywords).Some?
  }

  /** What `tag_transaction` returns. */
  function Tag(t: Transaction, k: Keywords): TaggedTransaction {
    TaggedTransaction(t, LenderMatches(t.description, Lenders(k)), AnyHit(t.description, TransferKeywords(k)))
  }

  /** Tagging with a fixed set of keywords, as a function value. */
  function TagWith(k: Keywords): Transaction -> TaggedTransaction {
    t => Tag(t, k)
  }

  /** The inner loop of `tag_transaction`, which stops at the first
      keyword that counts. */
  method FindFirstMatch(description: string, keywords: seq<string>) returns (r: Option<string>)
    ensures r == FirstMatch(description, keywords)
  {
    var j := 0;
    while j < |keywords|
      invariant 0 <= j <= |keywords|
      invariant FirstMatch(description, keywords) == FirstMatch(description, keywords[j..])
    {
      if keywords[j] != "" && MatchesKeyword(description, keywords[j]) {
        return Some(keywords[j]);
      }
      assert keywords[j..][1..] == keywords[j + 1..];
      j := j + 1;
    }
    return None;
  }

  /** `tag_transaction`. */
  method TagTransaction(t: Transaction, k: Keywords) returns (tagged: TaggedTransaction)
    ensures tagged == TagWith(k)(t)
  {
    var lenders := Lenders(k);
    var matches: seq<LenderMatch> := [];
    for i := 0 to |lenders|
      invariant matches == LenderMatches(t.description, lenders[..i])
    {
      var kw := FindFirstMatch(t.description, lenders[i].1);
      LenderMatchesSnoc(t.description, lenders, i);
      if kw.Some? {
        matches := matches + [LenderMatch(lenders[i].0, kw.value)];
      }
    }
    assert lenders[..|lenders|] == lenders;
    var transfer := FindFirstMatch(t.description, TransferKeywords(k));
    tagged := TaggedTransaction(t, matches, transfer.Some?);
  }

  // ---------------------------------------------------------------------
  // Tagging a statement and summing the lenders' activity

  datatype LenderTotal = LenderTotal(count: nat, total: int)

  datatype LenderSummary = LenderSummary(count: nat, total: int, byLender: map<string, LenderTotal>)

  datatype TaggedStatement = TaggedStatement(
    statement: BankStatement,
    taggedTransactions: seq<TaggedTransaction>,
    transferSummary: LenderSummary,
    paymentSummary: LenderSummary)

  datatype SummaryKind = Transfers | Payments

  /** Transfers are deposits that match a transfer keyword or a lender;
      payments are withdrawals and checks that match a lender. */
  predicate Qualifies(kind: SummaryKind, tt: TaggedTransaction) {
    match kind
    case Transfers => tt.transaction.txnType == Deposit && (tt.isTransfer || |tt.lenderMatches| > 0)
    case Payments => (tt.transaction.txnType == Withdrawal || tt.transaction.txnType == Check)
                     && |tt.lenderMatches| > 0
  }

  /** No transaction is both a transfer and a payment. */
  lemma QualifiesOnce(tt: TaggedTransaction)
    ensures !(Qualifies(Transfers, tt) && Qualifies(Payments, tt))
    ensures Qualifies(Transfers, tt) ==> tt.transaction.txnType == Deposit
    ensures Qualifies(Payments, tt) ==> tt.transaction.txnType != Deposit
  {
  }

  /** One lender's entry after a transaction of the given amount. */
  function Credit(m: map<string, LenderTotal>, name: string, amount: int): map<string, LenderTotal> {
    var cur := if name in m then m[name] else LenderTotal(0, 0);
    m[name := LenderTotal(cur.count + 1, cur.total + amount)]
  }

  function CreditAll(m: map<string, LenderTotal>, ms: seq<LenderMatch>, amount: int): map<string, LenderTotal> {
    if |ms| == 0 then m
    else Credit(CreditAll(m, ms[..|ms| - 1], amount), ms[|ms| - 1].lenderName, amount)
  }

  /** The summary after one more qualifying transaction. */
  function AddTagged(s: LenderSummary, tt: TaggedTransaction): LenderSummary {
    var a := tt.transaction.amount;
    LenderSummary(s.count + 1, s.total + a, CreditAll(s.byLender, tt.lenderMatches, a))
  }

  const EmptySummary := LenderSummary(0, 0, map[])

  /** The summary of one kind over the tagged transactions, in order. */
  function SummaryOf(tts: seq<TaggedTransaction>, kind: SummaryKind): LenderSummary {
    if |tts| == 0 then EmptySummary
    else
      var s := SummaryOf(tts[..|tts| - 1], kind);
      if Qualifies(kind, tts[|tts| - 1]) then AddTagged(s, tts[|tts| - 1]) else s
  }

  /** The tagged transactions of one kind, in order. */
  function Qualifying(tts: seq<TaggedTransaction>, kind: SummaryKind): (r: seq<TaggedTransaction>)
    ensures forall x :: x in r <==> x in tts && Qualifies(kind, x)
  {
    if |tts| == 0 then []
    else
      var n := |tts| - 1;
      assert tts == tts[..n] + [tts[n]];
      Qualifying(tts[..n], kind) + (if Qualifies(kind, tts[n]) then [tts[n]] else [])
  }

  function SumAmounts(tts: seq<TaggedTransaction>): int {
    if |tts| == 0 then 0 else SumAmounts(tts[..|tts| - 1]) + tts[|tts| - 1].transaction.amount
  }

  lemma {:induction false} SumAmountsAppend(a: seq<TaggedTransaction>, x: TaggedTransaction)
    ensures SumAmounts(a + [x]) == SumAmounts(a) + x.transaction.amount
  {
    assert (a + [x])[..|a|] == a;
  }

  /** A summary counts and totals exactly the transactions of its kind. */
  lemma {:induction false} SummaryCounts(tts: seq<TaggedTransaction>, kind: SummaryKind)
    ensures SummaryOf(tts, kind).count == |Qualifying(tts, kind)|
    ensures SummaryOf(tts, kind).total == SumAmounts(Qualifying(tts, kind))
  {
    if |tts| > 0 {
      var n := |tts| - 1;
      SummaryCounts(tts[..n], kind);
      assert Qualifying(tts, kind)
             == Qualifying(tts[..n], kind) + (if Qualifies(kind, tts[n]) then [tts[n]] else []);
      var s := SummaryOf(tts[..n], kind);
      if Qualifies(kind, tts[n]) {
        SumAmountsAppend(Qualifying(tts[..n], kind), tts[n]);
        assert SummaryOf(tts, kind) == AddTagged(s, tts[n]);
        assert SummaryOf(tts, kind).count == s.count + 1;
        assert |Qualifying(tts, kind)| == |Qualifying(tts[..n], kind)| + 1;
      } else {
        assert SummaryOf(tts, kind) == s;
        assert Qualifying(tts, kind) == Qualifying(tts[..n], kind);
      }
    }
  }

  /** Transfers and payments together count no transaction twice. */
  lemma {:induction false} SummariesDisjoint(tts: seq<TaggedTransaction>)
    ensures SummaryOf(tts, Transfers).count + SummaryOf(tts, Payments).count <= |tts|
  {
    if |tts| > 0 {
      SummariesDisjoint(tts[..|tts| - 1]);
      QualifiesOnce(tts[|tts| - 1]);
    }
  }

  /** The qualifying transactions of a kind that matched lender l, and
      their amount. */
  function LenderHits(tts: seq<TaggedTransaction>, kind: SummaryKind, l: string): nat {
    if |tts| == 0 then 0
    else
      var tt := tts[|tts| - 1];
      LenderHits(tts[..|tts| - 1], kind, l) + (if Qualifies(kind, tt) && HasLender(tt.lenderMatches, l) then 1 else 0)
  }

  function LenderAmount(tts: seq<TaggedTransaction>, kind: SummaryKind, l: string): int {
    if |tts| == 0 then 0
    else
      var tt := tts[|tts| - 1];
      LenderAmount(tts[..|tts| - 1], kind, l)
      + (if Qualifies(kind, tt) && HasLender(tt.lenderMatches, l) then tt.transaction.amount else 0)
  }

  predicate HasLender(ms: seq<LenderMatch>, l: string) {
    exists i :: 0 <= i < |ms| && ms[i].lenderName == l
  }

  /** Crediting distinct lenders adds one transaction to each of them and
      leaves the others alone. */
  lemma {:induction false} CreditAllEffect(m: map<string, LenderTotal>, ms: seq<LenderMatch>, amount: int, l: string)
    requires DistinctNames(ms)
    ensures var r := CreditAll(m, ms, amount);
            (l in r <==> l in m || HasLender(ms, l))
            && (HasLender(ms, l) ==> r[l] == (if l in m then LenderTotal(m[l].count + 1, m[l].total + amount)
                                              else LenderTotal(1, amount)))
            && (!HasLender(ms, l) && l in m ==> r[l] == m[l])
  {
    if |ms| > 0 {
      var n := |ms| - 1;
      var pre := ms[..n];
      assert DistinctNames(pre);
      CreditAllEffect(m, pre, amount, l);
      if HasLender(pre, l) {
        var i :| 0 <= i < n && pre[i].lenderName == l;
        assert ms[i].lenderName == l && ms[n].lenderName != l;
      }
      if HasLender(ms, l) && ms[n].lenderName != l {
        var i :| 0 <= i < |ms| && ms[i].lenderName == l;
        assert pre[i].lenderName == l;
      }
    }
  }

  /** Each lender's entry counts and totals exactly the transactions of
      the summary's kind that matched that lender. */
  lemma {:induction false} ByLenderExact(tts: seq<TaggedTransaction>, kind: SummaryKind, l: string)
    requires forall i :: 0 <= i < |tts| ==> DistinctNames(tts[i].lenderMatches)
    ensures var s := SummaryOf(tts, kind);
            (l in s.byLender <==> LenderHits(tts, kind, l) > 0)
            && (l !in s.byLender ==> LenderAmount(tts, kind, l) == 0)
            && (l in s.byLender ==> s.byLender[l] == LenderTotal(LenderHits(tts, kind, l), LenderAmount(tts, kind, l)))
  {
    if |tts| > 0 {
      var n := |tts| - 1;
      ByLenderExact(tts[..n], kind, l);
      var s := SummaryOf(tts[..n], kind);
      if Qualifies(kind, tts[n]) {
        CreditAllEffect(s.byLender, tts[n].lenderMatches, tts[n].transaction.amount, l);
      }
    }
  }

  /** A lender is counted at most once per transaction, and amounts are
      not negative, so no lender's count or total exceeds the summary's. */
  lemma {:induction false} ByLenderBounded(tts: seq<TaggedTransaction>, kind: SummaryKind, l: string)
    requires forall i :: 0 <= i < |tts| ==> tts[i].transaction.amount >= 0
    ensures LenderHits(tts, kind, l) <= SummaryOf(tts, kind).count
    ensures 0 <= LenderAmount(tts, kind, l) <= SummaryOf(tts, kind).total
  {
    if |tts| > 0 {
      ByLenderBounded(tts[..|tts| - 1], kind, l);
    }
  }

  /** `tag_transaction` on every transaction, in order. */
  function TagAll(ts: seq<Transaction>, k: Keywords): (r: seq<TaggedTransaction>)
    ensures |r| == |ts| && forall i :: 0 <= i < |ts| ==> r[i] == Tag(ts[i], k)
  {
    Map(ts, TagWith(k))
  }

  /** What `tag_statement` returns. */
  function TagStatementOf(st: BankStatement, k: Keywords): TaggedStatement {
    var tts := TagAll(st.transactions, k);
    TaggedStatement(st, tts, SummaryOf(tts, Transfers), SummaryOf(tts, Payments))
  }

  /** With distinct lender names (as a dictionary's keys are), every
      tagged transaction matches each lender at most once. */
  lemma TagAllDistinct(ts: seq<Transaction>, k: Keywords)
    requires DistinctLenders(Lenders(k))
    ensures forall i :: 0 <= i < |ts| ==> DistinctNames(TagAll(ts, k)[i].lenderMatches)
  {
    forall i | 0 <= i < |ts| ensures DistinctNames(TagAll(ts, k)[i].lenderMatches) {
      LenderMatchesOrder(ts[i].description, Lenders(k));
    }
  }

  /** One summary step: count, total, and the entries of the matched
      lenders, created at zero when missing. */
  method AddToSummary(s: LenderSummary, tt: TaggedTransaction) returns (r: LenderSummary)
    ensures r == AddTagged(s, tt)
  {
    var amount := tt.transaction.amount;
    var byLender := s.byLender;
    var ms := tt.lenderMatches;
    for j := 0 to |ms|
      invariant byLender == CreditAll(s.byLender, ms[..j], amount)
    {
      assert ms[..j + 1][..j] == ms[..j];
      var name := ms[j].lenderName;
      if name !in byLender {
        byLender := byLender[name := LenderTotal(0, 0)];
      }
      byLender := byLender[name := LenderTotal(byLender[name].count + 1, byLender[name].total + amount)];
    }
    assert ms[..|ms|] == ms;
    r := LenderSummary(s.count + 1, s.total + amount, byLender);
  }

  /** `tag_statement`: every transaction tagged, then both summaries
      built over the tagged transactions. */
  method TagStatement(st: BankStatement, k: Keywords) returns (r: TaggedStatement)
    ensures r == TagStatementOf(st, k)
  {
    var tagged := TagEach(st.transactions, k);
    var transfers, payments := Summarize(tagged);
    r := TaggedStatement(st, tagged, transfers, payments);
  }

  /** The tagging loop of `tag_statement`. */
  method TagEach(ts: seq<Transaction>, k: Keywords) returns (tagged: seq<TaggedTransaction>)
    ensures tagged == TagAll(ts, k)
  {
    tagged := [];
    for i := 0 to |ts|
      invariant tagged == Map(ts[..i], TagWith(k))
    {
      var tt := TagTransaction(ts[i], k);
      MapSnoc(ts, i, TagWith(k));
      tagged := tagged + [tt];
    }
    assert ts[..|ts|] == ts;
  }

  /** The summary loop of `tag_statement`: a tagged transaction goes into
      the transfer summary when it qualifies as a transfer, and into the
      payment summary when it qualifies as a payment. */
  method Summarize(tagged: seq<TaggedTransaction>) returns (transfers: LenderSummary, payments: LenderSummary)
    ensures transfers == SummaryOf(tagged, Transfers)
    ensures payments == SummaryOf(tagged, Payments)
  {
    transfers := EmptySummary;
    payments := EmptySummary;
    for i := 0 to |tagged|
      invariant transfers == SummaryOf(tagged[..i], Transfers)
      invariant payments == SummaryOf(tagged[..i], Payments)
    {
      assert tagged[..i + 1][..i] == tagged[..i];
      var tt := tagged[i];
      if Qualifies(Transfers, tt) {
        transfers := AddToSummary(transfers, tt);
      }
      if Qualifies(Payments, tt) {
        payments := AddToSummary(payments, tt);
      }
    }
    assert tagged[..|tagged|] == tagged;
  }
}
