# Truist statement extraction, modelled in Dafny

This project models the core of `fin-tables-ocr`, which turns the page
texts of a Truist bank statement into a structured statement. The model
covers how the tool:

- decides which pages hold transactions (`page_classifier.py`);
- finds the checks, withdrawals and deposits tables on a page, including
  continuation pages that repeat only the table header, and reads dated
  records out of them (`table_parsers.py`);
- reads the statement year, account number and period from the first
  page, then collects and sorts the records of all transaction pages
  (`parser.py`);
- tags each transaction with lender matches and sums transfers and
  payments per lender (`lender_tagger.py`), then copies the tags back onto
  the statement (`_apply_lender_tags` in `cli.py`).

Page texts are given as strings (a missing text is the empty string).
Amounts are whole cents. Dates are (year, month, day) triples that are
valid exactly when Python's `datetime.date` accepts them. The current year
is a parameter.

Every fixed regular expression of the parsers is written as a token
sequence (`patterns.dfy`). Each is a chain in which every `\s*`, `\s+` and
`c?` is followed by something it cannot consume, so the greedy matcher
gives the same match as Python's backtracking engine. The few patterns
that need backtracking have their own matchers, each proved against a
definition that states every way the pattern can match:

- `\s*\n`: `SpacesNewlineEnd`, with `Patterns.SpacesNewlineMatches`;
- the table line, with its lazy `(.+?)`: `LineSplitAt` and
  `FirstLineSplit`, with `LineParser.MatchStrippedFirst`;
- the classifier's `\d{2}/\d{2}\s+.*\d+\.\d{2}`: `DateAmountMatch`, with
  `PageClassifier.DateAmountAtMatches`.

Where the source loops or updates state, the model does too:

- the record loops, the marker loop and the branch chains that set
  `start` and `end` are methods;
- the parser is a class whose `ExtractMetadata` and `Parse` update its
  fields;
- `_apply_lender_tags` overwrites the elements of an array in place.

Each such method is proved equal to a specification function, and the
properties are proved about that function.

Modules, in dependency order:

- `wrappers.dfy`: Option, Result, and collecting the Some entries of a
  sequence.
- `text.dfy`: Python `str` semantics (whitespace, ASCII case mapping,
  `strip`, `split`, slicing, `in`, digit strings).
- `patterns.dfy`: the pattern matcher, leftmost search and `finditer`.
- `models.dfy`: transactions and statements.
- `normalizer.dfy`: `parse_amount` and `parse_date`.
- `line_parser.dfy`: check entries and dated table lines.
- `section_locator.dfy`: section markers and table spans.
- `page_classifier.dfy`: page classification.
- `statement_sort.dfy`: the final stable sort.
- `truist_parser.dfy`: the parser.
- `lender_tagger.dfy`: lender tagging.
- `cli.dfy`: applying the tags to the statement.

Where the code and its documentation differ, the model follows the code:

- Transactions with the same date are ordered by the string value of
  their category, so checks come before deposits and deposits before
  withdrawals.
- The account number comes from the first "CHECKING" that digits follow.
- A first-page "previous/new balance as of" date that does not exist
  makes parsing fail.
- A statement without transaction pages parses to an empty list of
  transactions.
- The year is kept as a 4-digit number when one follows "For", so
  "For 10/31/202" gives 2020. The period is not read when that year is 0.

## Model

| member | source | states |
|---|---|---|
| Models.NewTransaction | src/fin_tables_ocr/models.py:17-29 | A constructed transaction carries its given date, description, amount, type and check number, with no lender matches and both lender flags false. |
| Models.OfTypeMembers | src/fin_tables_ocr/models.py:43-53 | The checks/withdrawals/deposits views hold exactly the statement's transactions of that category, no more than the statement has. |
| Models.OfTypeAppend | src/fin_tables_ocr/models.py:43-53 | The view of a concatenation is the concatenation of the views, so each view keeps the statement's order. |
| Models.OfTypePartition | src/fin_tables_ocr/models.py:43-53 | The three views together count every transaction exactly once. |
| Models.StatementSummary | src/fin_tables_ocr/models.py:55-62 | The summary has the statement's bank name and number of transactions. Its check, withdrawal and deposit counts are the sizes of the three views, and they add up to that number. |
| Normalizer.RemoveCommasAppend | src/fin_tables_ocr/banks/truist/table_parsers.py:14 | Deleting commas distributes over concatenation. |
| Normalizer.GroupThousandsCommas | src/fin_tables_ocr/banks/truist/table_parsers.py:14 | Grouping a digit string by thousands adds only commas: removing them gives the digits back. |
| Normalizer.GroupThousandsChars | src/fin_tables_ocr/banks/truist/table_parsers.py:14 | A grouped digit string holds only digits and commas. |
| Normalizer.ReadPlainNumeral | src/fin_tables_ocr/banks/truist/table_parsers.py:12-15 | A numeral of digits, a point and two digits, with nothing to strip, is read as its value in cents. |
| Normalizer.ParseAmountRoundTrip | src/fin_tables_ocr/banks/truist/table_parsers.py:12-15 | An amount printed with thousands commas and two decimals parses back to exactly its number of cents. |
| Normalizer.ParseDate | src/fin_tables_ocr/banks/truist/table_parsers.py:18-21 | A date is produced only when the text splits into month and day numbers that form a valid date in the given year, and it lies in that year. |
| Normalizer.ParseDateRoundTrip | src/fin_tables_ocr/banks/truist/table_parsers.py:18-21 | "MM/DD" built from a month and a day gives that date in the year exactly when the date is valid, and fails otherwise. |
| Text.JoinSplit | src/fin_tables_ocr/banks/truist/table_parsers.py:70 | Joining the pieces of a split with the separator gives the text back. |
| Text.StripTrimmed | src/fin_tables_ocr/banks/truist/table_parsers.py:85-88 | A stripped text neither starts nor ends with whitespace. |
| Patterns.SpacesNewlineMatches | src/fin_tables_ocr/banks/truist/table_parsers.py:30-34 | `\s*\n` matches exactly when whitespace ending in a newline follows, and its match ends just after the last such newline, as the backtracking engine's greedy `\s*` leaves it. |
| Patterns.FindAllCovers | src/fin_tables_ocr/banks/truist/table_parsers.py:47 | The non-overlapping leftmost scan misses no match: every offset where the pattern matches lies in or starts a reported match. |
| LineParser.AmountTextValue | src/fin_tables_ocr/banks/truist/table_parsers.py:12-15 | Every `[\d,]+\.\d{2}` text parses: all its commas are dropped, its whole part counts in hundreds and its two fraction digits are the cents. |
| LineParser.AmountEnd | src/fin_tables_ocr/banks/truist/table_parsers.py:45 | `[\d,]+\.\d{2}` at an offset ends at the one place where the text between is an amount text, and fails when there is none. |
| LineParser.CheckAt | src/fin_tables_ocr/banks/truist/table_parsers.py:45 | A check entry match starts at the offset, with a date, a non-empty digit run as the check number and an amount text. |
| LineParser.CheckMatches | src/fin_tables_ocr/banks/truist/table_parsers.py:47 | The scan reports matches of the entry pattern, each starting where the pattern matches, in order and without overlap. |
| LineParser.ScanChecksCovers | src/fin_tables_ocr/banks/truist/table_parsers.py:47 | Scanning a table of the matches at each offset from a position on, every later offset holding a match lies inside a reported entry. |
| LineParser.CheckMatchesCover | src/fin_tables_ocr/banks/truist/table_parsers.py:47 | No entry is skipped: every offset of the checks text where the entry pattern matches lies in some reported match. |
| LineParser.CheckRecord | src/fin_tables_ocr/banks/truist/table_parsers.py:48-60 | An entry gives a check record of the given year, described as "Check #" and its number, or none when the date or amount does not parse. |
| LineParser.CheckRecordsSnoc | src/fin_tables_ocr/banks/truist/table_parsers.py:47-60 | The records of one more entry are the earlier records followed by that entry's own record, if any. |
| LineParser.ChecksRegion | src/fin_tables_ocr/banks/truist/table_parsers.py:29-42 | The checks block exists exactly when a "Checks" header line does. It starts after that line and ends at the first end phrase after it, or at the end of the text. |
| LineParser.ChecksOfPage | src/fin_tables_ocr/banks/truist/table_parsers.py:24-62 | Without a checks header there are no check records, and every record is a check record dated in the given year. |
| LineParser.CollectChecks | src/fin_tables_ocr/banks/truist/table_parsers.py:47-60 | The loop over the entries, skipping the failed ones, builds exactly the records of the entries in order. |
| LineParser.ExtractChecksFromPage | src/fin_tables_ocr/banks/truist/table_parsers.py:24-62 | The method returns exactly the check records of the page. |
| LineParser.FirstSplit | src/fin_tables_ocr/banks/truist/table_parsers.py:85 | The lazy description ends at the first place where whitespace and an amount close the line. |
| LineParser.MatchLine | src/fin_tables_ocr/banks/truist/table_parsers.py:85-87 | A matched table line yields a five-character date and an amount text. |
| LineParser.MatchStrippedFirst | src/fin_tables_ocr/banks/truist/table_parsers.py:85-87 | On a stripped line the table-line pattern fails exactly when no way to divide the line into date, whitespace, description, whitespace and amount exists. Otherwise it takes the way the backtracking engine tries first: the longest whitespace after the date, then the shortest description. |
| LineParser.MatchLineFirst | src/fin_tables_ocr/banks/truist/table_parsers.py:85-87 | The same, for any line, on its stripped text. |
| LineParser.GivenBackLineSkipped | src/fin_tables_ocr/banks/truist/table_parsers.py:85-91 | When no description can follow the whole whitespace run after the date, the engine gives whitespace back and finds a description of one whitespace character, which strips to nothing, so the line yields no record. |
| LineParser.LineRecord | src/fin_tables_ocr/banks/truist/table_parsers.py:72-103 | Header and footer lines yield nothing. A record has the block's type, no check number, a stripped description of at least 3 characters, a non-negative amount and the given year. |
| LineParser.TransactionsFromLinesSnoc | src/fin_tables_ocr/banks/truist/table_parsers.py:72-103 | The records of one more line are the earlier records followed by that line's own record, if any. |
| LineParser.ExtractTransactionsFromText | src/fin_tables_ocr/banks/truist/table_parsers.py:65-105 | The loop over the lines, skipping the failed ones, returns exactly the records of the text's lines in order. |
| LineParser.RecordLines | src/fin_tables_ocr/banks/truist/table_parsers.py:72-92 | The lines that yield records, in increasing order, are never header or footer lines, and every line that yields a record is among them. |
| LineParser.TransactionsFromLinesOrigin | src/fin_tables_ocr/banks/truist/table_parsers.py:72-105 | The k-th record is the record of the k-th yielding line: at most one per line, in line order. |
| LineParser.TransactionsFromLinesAppend | src/fin_tables_ocr/banks/truist/table_parsers.py:70-105 | Reading two runs of lines gives the records of the first run followed by those of the second. |
| LineParser.TransactionsFromLinesShape | src/fin_tables_ocr/banks/truist/table_parsers.py:88-100 | Every record of a block has the block's type, no check number, a stripped description of at least 3 characters, a non-negative amount and the given year. |
| LineParser.MatchJoinedLine | src/fin_tables_ocr/banks/truist/table_parsers.py:85 | The table-line pattern takes "date description amount" apart into exactly those three pieces. |
| LineParser.LineRoundTrip | src/fin_tables_ocr/banks/truist/table_parsers.py:85-100 | A printed table line is read back as the transaction it shows: its date, description, amount and type. |
| SectionLocator.HeaderBefore | src/fin_tables_ocr/banks/truist/table_parsers.py:121-133 | A section phrase qualifying a table header lies in the 100 characters before it. |
| SectionLocator.HeaderBeforeRule | src/fin_tables_ocr/banks/truist/table_parsers.py:121-146 | A phrase is found exactly when the leftmost match in that prefix has no "total" in the 10 characters before it, and then it is that leftmost match. |
| SectionLocator.Qualifications | src/fin_tables_ocr/banks/truist/table_parsers.py:119-147 | Each table header is qualified in turn, in order. |
| SectionLocator.TableHeaders | src/fin_tables_ocr/banks/truist/table_parsers.py:117 | The table headers found are matches inside the text, in order. |
| SectionLocator.CollectHeaderMarkers | src/fin_tables_ocr/banks/truist/table_parsers.py:119-147 | The loop over the table headers sets exactly the markers of their qualifications, in order. |
| SectionLocator.MarkHeader | src/fin_tables_ocr/banks/truist/table_parsers.py:123-147 | One turn of that loop sets a section's header and table markers only if they are unset and its phrase qualifies. |
| SectionLocator.HeaderMarkersSnoc | src/fin_tables_ocr/banks/truist/table_parsers.py:119-147 | The markers after one more table header are those of one more loop turn. |
| SectionLocator.FindSectionMarkers | src/fin_tables_ocr/banks/truist/table_parsers.py:108-167 | The method returns exactly the section markers of the page. |
| SectionLocator.HeaderMarkersFirst | src/fin_tables_ocr/banks/truist/table_parsers.py:129-147 | Each section's header and table markers are set together, by the first qualifying table header only, and the loop sets no total marker. |
| SectionLocator.MarkersFirst | src/fin_tables_ocr/banks/truist/table_parsers.py:114-165 | A section's markers exist exactly when some table header qualifies. They then come from the first such header: the phrase before it, and its end. |
| SectionLocator.SectionMarkersFirst | src/fin_tables_ocr/banks/truist/table_parsers.py:108-167 | The same, for a page's own table headers, section phrases and total lines. |
| SectionLocator.WithTotalsKeeps | src/fin_tables_ocr/banks/truist/table_parsers.py:149-165 | Adding the total lines leaves the four table-header markers unchanged. |
| SectionLocator.FirstTableEnd | src/fin_tables_ocr/banks/truist/table_parsers.py:190 | The first table header ends within the text. |
| SectionLocator.FootAfter | src/fin_tables_ocr/banks/truist/table_parsers.py:223-227 | A table that runs to the page foot ends at the first foot after its start, or at the end of the text. |
| SectionLocator.ExtractWithdrawalsFromPage | src/fin_tables_ocr/banks/truist/table_parsers.py:170-229 | The branch chain that sets start and end returns exactly the withdrawals of the page's withdrawals span. |
| SectionLocator.WithdrawalStartRule | src/fin_tables_ocr/banks/truist/table_parsers.py:182-214 | Withdrawals are read only with a withdrawals-table marker or on a continuation page. With the marker, the table starts at it. |
| SectionLocator.WithdrawalKeywordRule | src/fin_tables_ocr/banks/truist/table_parsers.py:194-211 | On such a continuation page, the withdrawals start exactly when a withdrawal keyword occurs in the 500 characters after the first table header. |
| SectionLocator.WithdrawalClosingSpan | src/fin_tables_ocr/banks/truist/table_parsers.py:188-193 | On a continuation page with a total-withdrawals line, the table runs from the first table header to that line. |
| SectionLocator.WithdrawalEndRule | src/fin_tables_ocr/banks/truist/table_parsers.py:216-227 | Otherwise the table ends at the deposits header, else the total line, else the first page foot, else the end of the text. |
| SectionLocator.ExtractDepositsFromPage | src/fin_tables_ocr/banks/truist/table_parsers.py:232-286 | The method returns exactly the deposits of the page's deposits span. |
| SectionLocator.FindDepositStart | src/fin_tables_ocr/banks/truist/table_parsers.py:244-271 | The branch chain sets exactly the deposits start of the page. |
| SectionLocator.FindStartAfterTotal | src/fin_tables_ocr/banks/truist/table_parsers.py:250-259 | After a total-withdrawals line, the deposits start at the end of the first table header after that line, and there is no start without one. |
| SectionLocator.FindStartByKeyword | src/fin_tables_ocr/banks/truist/table_parsers.py:261-271 | Without withdrawals markers, the deposits start at the end of the first table header exactly when a deposit keyword occurs in the 500 characters after it. |
| SectionLocator.DepositStartRule | src/fin_tables_ocr/banks/truist/table_parsers.py:244-274 | Deposits are read only with a deposits-table marker or on a continuation page. With the marker, the table starts at it. After a total-withdrawals line, it starts after that line. |
| SectionLocator.DepositKeywordRule | src/fin_tables_ocr/banks/truist/table_parsers.py:261-271 | On a continuation page without withdrawal markers, the deposits start exactly when a deposit keyword follows the first table header. |
| SectionLocator.EmptyTextNoRecords | src/fin_tables_ocr/banks/truist/table_parsers.py:65-105 | An empty block yields no records. |
| SectionLocator.InvertedWithdrawalSpan | src/fin_tables_ocr/banks/truist/table_parsers.py:229 | A withdrawals span that ends before it starts is an empty slice, and yields nothing. |
| SectionLocator.InvertedDepositSpan | src/fin_tables_ocr/banks/truist/table_parsers.py:286 | A deposits span that ends before it starts is an empty slice, and yields nothing. |
| PageClassifier.AnyFound | src/fin_tables_ocr/banks/truist/page_classifier.py:39-41 | The early-return loop over a pattern list is true exactly when one of the patterns is found. |
| PageClassifier.SearchOne | src/fin_tables_ocr/banks/truist/page_classifier.py:40 | A pattern is found exactly when it matches at some offset. |
| PageClassifier.FoundSomewhere | src/fin_tables_ocr/banks/truist/page_classifier.py:39-50 | A pattern list is found exactly when one of its patterns matches at some offset. |
| PageClassifier.LastDecimal | src/fin_tables_ocr/banks/truist/page_classifier.py:53 | The greedy `.*` stops at the last decimal amount on the line. |
| PageClassifier.DateAmountAtMatches | src/fin_tables_ocr/banks/truist/page_classifier.py:53 | The date/amount pattern matches at an offset exactly when some way of dividing the text among its parts matches, and the greedy match is one of them. |
| PageClassifier.ScanCovers | src/fin_tables_ocr/banks/truist/page_classifier.py:54 | `findall` skips no match: every offset where the pattern matches lies in some reported match. |
| PageClassifier.DateAmountMatches | src/fin_tables_ocr/banks/truist/page_classifier.py:53-54 | The reported matches are matches of the pattern, in order and without overlap. |
| PageClassifier.DateAmountCovers | src/fin_tables_ocr/banks/truist/page_classifier.py:53-54 | Every offset where the date/amount pattern matches is covered by a reported match. |
| PageClassifier.BoilerplateWins | src/fin_tables_ocr/banks/truist/page_classifier.py:38-41 | A boilerplate phrase anywhere, in any case, makes the page a non-transaction page. |
| PageClassifier.ShortPageRule | src/fin_tables_ocr/banks/truist/page_classifier.py:43-45 | Without boilerplate, a page whose stripped text is shorter than 100 characters is not a transaction page. |
| PageClassifier.ChecksWordRule | src/fin_tables_ocr/banks/truist/page_classifier.py:47-50 | Without boilerplate, on a long enough page the word "Checks" in any case makes it a transaction page. |
| PageClassifier.WordFound | src/fin_tables_ocr/banks/truist/page_classifier.py:48-50 | A pattern list with a plain word is found wherever that word occurs. |
| PageClassifier.CountRule | src/fin_tables_ocr/banks/truist/page_classifier.py:52-58 | Without boilerplate or indicators, a long enough page is a transaction page exactly when it has at least three date/amount matches. |
| PageClassifier.ClassifyPages | src/fin_tables_ocr/banks/truist/page_classifier.py:61-70 | The map holds exactly the page indices from 0, each with its page's classification. |
| StatementSort.TypeRankOrder | src/fin_tables_ocr/banks/truist/parser.py:129 | Ranking the categories orders them exactly as their string values compare. |
| StatementSort.KeyOrder | src/fin_tables_ocr/banks/truist/parser.py:129 | The sort key order is total and transitive, and its ties are exactly the equal (date, category) keys. |
| StatementSort.Insert | src/fin_tables_ocr/banks/truist/parser.py:129 | Inserting adds the element once and changes nothing else. |
| StatementSort.InsertSorted | src/fin_tables_ocr/banks/truist/parser.py:129 | Inserting into a sorted list keeps it sorted. |
| StatementSort.SortByKey | src/fin_tables_ocr/banks/truist/parser.py:129 | The sort is a permutation of its input. |
| StatementSort.SortByKeySorted | src/fin_tables_ocr/banks/truist/parser.py:129 | The sort's result is ordered by date, then category. |
| StatementSort.InsertStable | src/fin_tables_ocr/banks/truist/parser.py:129 | Inserting puts the element after every element with its key. |
| StatementSort.SortByKeyStable | src/fin_tables_ocr/banks/truist/parser.py:129 | The sort is stable: transactions that share a key keep their relative order. |
| StatementSort.SortByKeyIsStableSort | src/fin_tables_ocr/banks/truist/parser.py:129 | The result is the same transactions, each as often, in key order, with ties in input order. |
| TruistParser.CanParseRule | src/fin_tables_ocr/banks/truist/parser.py:29-39 | A statement is recognised exactly when it has a first page that holds "truist" in any case. |
| TruistParser.Year20At | src/fin_tables_ocr/banks/truist/parser.py:59-61 | A fallback year is "20" and two digits, a year from 2000 to 2099. |
| TruistParser.StatementYearRule | src/fin_tables_ocr/banks/truist/parser.py:48-63 | The year is the one after the leftmost "For" date, else the leftmost "20dd" year, else the current year. |
| TruistParser.ForFourDigitYear | src/fin_tables_ocr/banks/truist/parser.py:50-56 | "For MM/DD/YYYY" gives the year YYYY. |
| TruistParser.ForTwoDigitYear | src/fin_tables_ocr/banks/truist/parser.py:50-54 | "For MM/DD/YY" followed by a non-digit gives the year 2000 + YY. |
| TruistParser.ForYearAtStart | src/fin_tables_ocr/banks/truist/parser.py:47-56 | A "For" date at the very start of the first page decides the statement year. |
| TruistParser.AccountAt | src/fin_tables_ocr/banks/truist/parser.py:66 | An account match is a non-empty run of digits. |
| TruistParser.AccountNumber | src/fin_tables_ocr/banks/truist/parser.py:65-68 | The account number is the digit run of the leftmost match, and there is none exactly when no offset matches. |
| TruistParser.AccountRoundTrip | src/fin_tables_ocr/banks/truist/parser.py:65-68 | "CHECKING", with or without a space, followed by digits gives exactly those digits. |
| TruistParser.PeriodDate | src/fin_tables_ocr/banks/truist/parser.py:88-94 | A period date that is produced is a valid calendar date. |
| TruistParser.PeriodDateRule | src/fin_tables_ocr/banks/truist/parser.py:78-94 | A period end is none exactly when no anchor with a date occurs. It fails exactly when the leftmost anchor's date does not exist. Otherwise it is exactly the date after the leftmost anchor. |
| TruistParser.StatementPeriod | src/fin_tables_ocr/banks/truist/parser.py:70-73 | Without pages or a (non-zero) year, both period ends are None. |
| TruistParser.StatementPeriodRule | src/fin_tables_ocr/banks/truist/parser.py:75-96 | With a first page and a year, the period fails exactly when the leftmost dated anchor of either end holds a date that does not exist. Otherwise the start is the date after the leftmost "previous balance as of" and the end the date after the leftmost "new balance as of", each None when its anchor is missing. |
| TruistParser.AccumulatedAppend | src/fin_tables_ocr/banks/truist/parser.py:113-126 | The records of two runs of pages are those of the first run followed by those of the second. |
| TruistParser.NoTransactionPages | src/fin_tables_ocr/banks/truist/parser.py:113-115 | Without a transaction page, no records are collected. |
| TruistParser.AccumulatedOrigin | src/fin_tables_ocr/banks/truist/parser.py:113-126 | Every collected record is a check, withdrawal or deposit of some transaction page. |
| TruistParser.Metadata | src/fin_tables_ocr/banks/truist/parser.py:41-68 | With a first page, the year is always set. |
| TruistParser.Assemble | src/fin_tables_ocr/banks/truist/parser.py:128-137 | The statement is named "Truist", with the account and period given, and its transactions are a stable sort of the records. |
| TruistParser.ParseResultTransactions | src/fin_tables_ocr/banks/truist/parser.py:98-137 | A parsed statement is named "Truist". Its transactions are the records of the transaction pages with the first page's year, each as often as found, in key order with ties in page order. |
| TruistParser.ParseNoTransactionPages | src/fin_tables_ocr/banks/truist/parser.py:108-126 | Without a transaction page, a successful parse has no transactions. |
| TruistParser.ParseInvalidStart | src/fin_tables_ocr/banks/truist/parser.py:88-90 | A "previous balance" date that does not exist makes parsing fail. |
| TruistParser.Parser.constructor | src/fin_tables_ocr/banks/truist/parser.py:24-27 | A new parser has no year and no account number. |
| TruistParser.Parser.ExtractMetadata | src/fin_tables_ocr/banks/truist/parser.py:41-68 | The fields change only with a first page: the year is always set, and the account number only when the page has one. |
| TruistParser.Parser.Parse | src/fin_tables_ocr/banks/truist/parser.py:98-137 | The result is the parse result of the pages and the pages are left alone. The year and account number become the metadata of the first page; without an opened statement the call fails and leaves them as they were. |
| TruistParser.CollectRecords | src/fin_tables_ocr/banks/truist/parser.py:110-126 | The page loop collects exactly the records of the transaction pages, page by page. |
| TruistParser.RecordsOfPage | src/fin_tables_ocr/banks/truist/parser.py:114-126 | A page gives nothing when it is not a transaction page, else its checks, then its withdrawals, then its deposits. |
| LenderTagger.StripPunct | src/fin_tables_ocr/lender_tagger.py:77 | Deleting punctuation leaves no punctuation and keeps lower-case text lower-case. |
| LenderTagger.Normalize | src/fin_tables_ocr/lender_tagger.py:72-78 | A normalised text holds no punctuation and no upper-case letter. |
| LenderTagger.NormalizeIdempotent | src/fin_tables_ocr/lender_tagger.py:72-78 | Normalising twice is normalising once. |
| LenderTagger.NormalizeIgnoresCase | src/fin_tables_ocr/lender_tagger.py:75 | Normalising forgets the case a text was written in. |
| LenderTagger.PunctuationKeywordMatchesAll | src/fin_tables_ocr/lender_tagger.py:81-85 | A keyword made only of punctuation matches every description. |
| LenderTagger.MatchIgnoresCase | src/fin_tables_ocr/lender_tagger.py:81-85 | Matching does not depend on the case of the description or the keyword. |
| LenderTagger.FirstMatch | src/fin_tables_ocr/lender_tagger.py:106-111 | The keyword found is the first non-empty one that matches, and none is found exactly when none matches. |
| LenderTagger.LenderMatchesMembers | src/fin_tables_ocr/lender_tagger.py:105-111 | A lender is matched exactly when one of its non-empty keywords matches, and the recorded keyword is the first such. |
| LenderTagger.LenderMatchesSound | src/fin_tables_ocr/lender_tagger.py:105-111 | Every match names a lender of the dictionary, with the first of its keywords that counts. |
| LenderTagger.LenderMatchesComplete | src/fin_tables_ocr/lender_tagger.py:105-111 | Every lender that has a keyword that counts is matched, with the first such keyword. |
| LenderTagger.LenderMatchesOrder | src/fin_tables_ocr/lender_tagger.py:105-111 | Matches come in dictionary order, one per matching lender. With distinct lender names, no lender is matched twice. |
| LenderTagger.AnyHit | src/fin_tables_ocr/lender_tagger.py:113-117 | A transaction is a transfer exactly when some non-empty transfer keyword matches. |
| LenderTagger.FindFirstMatch | src/fin_tables_ocr/lender_tagger.py:106-111 | The loop that breaks at the first matching keyword returns exactly the first non-empty matching keyword. |
| LenderTagger.TagTransaction | src/fin_tables_ocr/lender_tagger.py:88-123 | The tagged transaction is the transaction with its lender matches, in dictionary order, and its transfer flag. |
| LenderTagger.QualifiesOnce | src/fin_tables_ocr/lender_tagger.py:146-172 | No transaction is both a transfer and a payment. Transfers are deposits; payments are not. |
| LenderTagger.Qualifying | src/fin_tables_ocr/lender_tagger.py:146-172 | The transactions of a kind are exactly those that qualify. |
| LenderTagger.SummaryCounts | src/fin_tables_ocr/lender_tagger.py:155-172 | A summary's count and total are exactly the number and the amount of the transactions of its kind. |
| LenderTagger.SummariesDisjoint | src/fin_tables_ocr/lender_tagger.py:155-172 | Transfers and payments together count no transaction twice. |
| LenderTagger.CreditAllEffect | src/fin_tables_ocr/lender_tagger.py:159-167 | Crediting distinct lenders adds one transaction and its amount to each of them, creating missing entries, and leaves the others alone. |
| LenderTagger.ByLenderExact | src/fin_tables_ocr/lender_tagger.py:159-182 | Each lender's entry exists exactly when some transaction of the kind matched it, and then counts and totals exactly those transactions. |
| LenderTagger.ByLenderBounded | src/fin_tables_ocr/lender_tagger.py:159-182 | With non-negative amounts, no lender's count or total exceeds the summary's. |
| LenderTagger.TagAll | src/fin_tables_ocr/lender_tagger.py:136-138 | There is one tagged transaction per statement transaction, in the same order. |
| LenderTagger.TagAllDistinct | src/fin_tables_ocr/lender_tagger.py:105-111 | With distinct lender names, every tagged transaction matches each lender at most once. |
| LenderTagger.AddToSummary | src/fin_tables_ocr/lender_tagger.py:156-167 | One summary step adds one to the count, the amount to the total, and the transaction to each matched lender's entry. |
| LenderTagger.TagStatement | src/fin_tables_ocr/lender_tagger.py:126-189 | The result holds the statement unchanged, its tagged transactions, and the transfer and payment summaries over them. |
| LenderTagger.TagEach | src/fin_tables_ocr/lender_tagger.py:136-138 | The loop tags every transaction of the statement, in order: the result is the tagged list the statement yields. |
| LenderTagger.Summarize | src/fin_tables_ocr/lender_tagger.py:140-182 | The loop builds both summaries at once: a transaction enters the transfer summary when it qualifies as a transfer and, independently, the payment summary when it qualifies as a payment. |
| Cli.LookupLatest | src/fin_tables_ocr/cli.py:20-28 | A key is in the lookup exactly when some tagged transaction has it, and it leads to the last one with that key. |
| Cli.Names | src/fin_tables_ocr/cli.py:34 | The lender names are those of the matches, in order. |
| Cli.Retag | src/fin_tables_ocr/cli.py:30-47 | The rules for one transaction: date, description, amount, type and check number never change, and without a lookup entry nothing changes. With one, the lender names and both flags are set, and the flags are never both true. |
| Cli.RetagOwnTags | src/fin_tables_ocr/cli.py:30-47 | With the statement's own tags, each transaction gets its own lender names whatever shares its key, and its flags say whether it counted as a transfer or a payment. |
| Cli.BuildLookup | src/fin_tables_ocr/cli.py:20-28 | The first loop builds exactly the lookup in which later entries win. |
| Cli.ApplyLenderTags | src/fin_tables_ocr/cli.py:18-47 | Every transaction of the array is retagged in place, and their number and order stay. |

## Left out

- Text extraction from PDF pages, opening files, the context manager, bank detection and dispatch. Page texts are inputs, and None stands for a statement that was not opened.
- The typer commands `extract` and `info`, output files (`outputs.py`) and `load_keywords`. These are I/O and formatting; the keywords are an input value.
- `date.today()` is a parameter: the current year.
- Unicode: `\d` is modelled as ASCII digits and `lower()`/`upper()`/IGNORECASE as ASCII case mapping. Whitespace is Python's `str.isspace` set.
- LineParser.CheckRecord: CPython's `int()` refuses digit strings longer than 4300 digits by default, so the source skips a check entry with such a number. The model has no such limit and records the entry.
- LenderTagger.TagStatement: the per-lender entries (`byLender` of `LenderSummary`) are a `map`, so they have no order. Python's dict keeps the order in which lenders were first credited, which only the JSON output (not modelled) shows.
- Normalizer.ParseAmount: modelled on the unsigned `\d*\.\d\d` numerals that the callers pass it (their patterns guarantee that shape). Decimal's other syntaxes (exponents, signs, more fraction digits) are not modelled, and amounts are whole cents.
- StatementSort.SortByKey: Python's in-place Timsort is modelled as a stable insertion sort on the sequence value. Both give the same result, since a stable sort's output is unique.
- LenderTagger.TagStatement: the summaries, which the source mutates in place (`LenderSummary` objects and their nested `by_lender` dictionaries), are local values that the method reassigns; they are not shared while the loop runs.
- LenderTagger.ByLenderExact: assumes the lender names of a tagged transaction are distinct, which holds when they come from a dictionary (TagAllDistinct).
- Cli.ApplyLenderTags: the statement's transactions are an array of values. The aliasing between the statement's transactions and the tagged transactions is not modelled; the lookup keys read only fields that the method does not change.
- Pydantic validation: `amount >= 0` is the predicate `ValidTransaction` and a precondition of `ByLenderBounded`, not a check at construction.
- Money is integer cents; Decimal sums are exact on such values.
