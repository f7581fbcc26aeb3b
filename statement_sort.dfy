/** The final ordering of a statement's transactions:
    `sort(key=lambda t: (t.date, t.transaction_type.value))`, a stable sort
    by date and then by the category's string value. The strings order the
    categories "check" < "deposit" < "withdrawal". */
module StatementSort {
  import opened Models

  /** Python's `<` on strings: lexicographic by code point, a proper prefix
      first. */
  predicate StrLess(a: string, b: string)
    decreases |a|
  {
    if |b| == 0 then false
    else if |a| == 0 then true
    else if a[0] != b[0] then a[0] < b[0]
    else StrLess(a[1..], b[1..])
  }

  /** The place of a category in the sort order. */
  function TypeRank(t: TransactionType): nat {
    match t
    case Check => 0
    case Deposit => 1
    case Withdrawal => 2
  }

  /** The ranks order the categories as their string values do. */
  lemma TypeRankOrder(x: TransactionType, y: TransactionType)
    ensures TypeRank(x) < TypeRank(y) <==> StrLess(TypeValue(x), TypeValue(y))
  {
    assert StrLess("check", "deposit") && StrLess("check", "withdrawal") && StrLess("deposit", "withdrawal");
    assert !StrLess("deposit", "check") && !StrLess("withdrawal", "check") && !StrLess("withdrawal", "deposit");
    assert !StrLess("check", "check") by { assert !StrLess("heck", "heck"); }
    assert !StrLess("deposit", "deposit") by { assert !StrLess("eposit", "eposit"); }
    assert !StrLess("withdrawal", "withdrawal") by { assert !StrLess("ithdrawal", "ithdrawal"); }
  }

  /** Dates compare chronologically: by year, then month, then day. */
  predicate DateBefore(a: Date, b: Date) {
    a.year < b.year || (a.year == b.year && (a.month < b.month || (a.month == b.month && a.day < b.day)))
  }

  /** a's sort key is not above b's. */
  predicate KeyLe(a: Transaction, b: Transaction) {
    DateBefore(a.date, b.date) || (a.date == b.date && TypeRank(a.txnType) <= TypeRank(b.txnType))
  }

  predicate SameKey(a: Transaction, b: Transaction) {
    a.date == b.date && a.txnType == b.txnType
  }

  /** The key order is a total preorder whose ties are exactly the equal keys. */
  lemma KeyOrder(a: Transaction, b: Transaction, c: Transaction)
    ensures KeyLe(a, b) || KeyLe(b, a)
    ensures KeyLe(a, b) && KeyLe(b, c) ==> KeyLe(a, c)
    ensures KeyLe(a, b) && KeyLe(b, a) <==> SameKey(a, b)
  {
  }

  predicate Sorted(s: seq<Transaction>) {
    forall i, j :: 0 <= i < j < |s| ==> KeyLe(s[i], s[j])
  }

  /** x placed after every element whose key is not above its own. */
  function Insert(x: Transaction, s: seq<Transaction>): (r: seq<Transaction>)
    ensures |r| == |s| + 1 && multiset(r) == multiset(s) + multiset{x}
  {
    if |s| == 0 then [x]
    else if KeyLe(s[0], x) then
      assert s == [s[0]] + s[1..];
      [s[0]] + Insert(x, s[1..])
    else [x] + s
  }

  lemma {:induction false} InsertSorted(x: Transaction, s: seq<Transaction>)
    requires Sorted(s)
    ensures Sorted(Insert(x, s))
  {
    var r := Insert(x, s);
    if |s| > 0 {
      if KeyLe(s[0], x) {
        var rest := Insert(x, s[1..]);
        InsertSorted(x, s[1..]);
        forall j | 0 <= j < |rest| ensures KeyLe(s[0], rest[j]) {
          assert rest[j] in multiset(rest);
          if rest[j] != x {
            assert rest[j] in multiset(s[1..]);
            var k :| 0 <= k < |s[1..]| && s[1..][k] == rest[j];
            assert s[k + 1] == rest[j];
          }
        }
        assert forall j :: 1 <= j < |r| ==> r[j] == rest[j - 1];
      } else {
        forall j | 0 <= j < |s| ensures KeyLe(x, s[j]) {
          KeyOrder(x, s[0], s[j]);
        }
        assert forall j :: 1 <= j < |r| ==> r[j] == s[j - 1];
      }
    }
  }

  /** The stable sort, one element at a time in input order. */
  function SortByKey(s: seq<Transaction>): (r: seq<Transaction>)
    ensures |r| == |s| && multiset(r) == multiset(s)
  {
    if |s| == 0 then []
    else
      var n := |s| - 1;
      assert s == s[..n] + [s[n]];
      Insert(s[n], SortByKey(s[..n]))
  }

  /** The result is ordered by the key. */
  lemma {:induction false} SortByKeySorted(s: seq<Transaction>)
    ensures Sorted(SortByKey(s))
  {
    if |s| > 0 {
      var n := |s| - 1;
      SortByKeySorted(s[..n]);
      InsertSorted(s[n], SortByKey(s[..n]));
    }
  }

  /** The transactions with the key (d, ty), in order. */
  function WithKey(s: seq<Transaction>, d: Date, ty: TransactionType): seq<Transaction> {
    if |s| == 0 then []
    else WithKey(s[..|s| - 1], d, ty)
         + (if s[|s| - 1].date == d && s[|s| - 1].txnType == ty then [s[|s| - 1]] else [])
  }

  lemma {:induction false} WithKeyAppend(a: seq<Transaction>, b: seq<Transaction>, d: Date, ty: TransactionType)
    ensures WithKey(a + b, d, ty) == WithKey(a, d, ty) + WithKey(b, d, ty)
    decreases |b|
  {
    if |b| == 0 {
      assert a + b == a;
    } else {
      var n := |b| - 1;
      assert (a + b)[..|a + b| - 1] == a + b[..n];
      WithKeyAppend(a, b[..n], d, ty);
    }
  }

  /** No element of a sorted sequence whose first element is above x has
      x's key. */
  lemma AboveHasOtherKeys(x: Transaction, s: seq<Transaction>)
    requires Sorted(s) && |s| > 0 && !KeyLe(s[0], x)
    ensures WithKey(s, x.date, x.txnType) == []
    decreases |s|
  {
    if |s| > 1 {
      AboveHasOtherKeys(x, s[..|s| - 1]);
    }
    KeyOrder(x, s[0], s[|s| - 1]);
  }

  lemma WithKeySingle(x: Transaction, d: Date, ty: TransactionType)
    ensures WithKey([x], d, ty) == if x.date == d && x.txnType == ty then [x] else []
  {
    assert [x][..0] == [];
  }

  /** Inserting x adds it after the elements with its key. */
  lemma {:induction false} InsertStable(x: Transaction, s: seq<Transaction>, d: Date, ty: TransactionType)
    requires Sorted(s)
    ensures WithKey(Insert(x, s), d, ty)
         == WithKey(s, d, ty) + (if x.date == d && x.txnType == ty then [x] else [])
    decreases |s|
  {
    if |s| == 0 {
      WithKeySingle(x, d, ty);
      assert Insert(x, s) == [x];
      assert WithKey(s, d, ty) == [];
    } else if KeyLe(s[0], x) {
      var rest := s[1..];
      assert Sorted(rest) by {
        forall i, j | 0 <= i < j < |rest| ensures KeyLe(rest[i], rest[j]) {
          assert rest[i] == s[i + 1] && rest[j] == s[j + 1];
        }
      }
      InsertStable(x, rest, d, ty);
      InsertStablePast(x, s, d, ty);
    } else {
      InsertStableFront(x, s, d, ty);
    }
  }

  /** The step of InsertStable where x goes past the first element. */
  lemma InsertStablePast(x: Transaction, s: seq<Transaction>, d: Date, ty: TransactionType)
    requires |s| > 0 && KeyLe(s[0], x)
    requires WithKey(Insert(x, s[1..]), d, ty)
          == WithKey(s[1..], d, ty) + (if x.date == d && x.txnType == ty then [x] else [])
    ensures WithKey(Insert(x, s), d, ty)
         == WithKey(s, d, ty) + (if x.date == d && x.txnType == ty then [x] else [])
  {
    var mine := if x.date == d && x.txnType == ty then [x] else [];
    var rest := s[1..];
    assert Insert(x, s) == [s[0]] + Insert(x, rest);
    WithKeyAppend([s[0]], Insert(x, rest), d, ty);
    WithKeyAppend([s[0]], rest, d, ty);
    assert s == [s[0]] + rest;
    var head := WithKey([s[0]], d, ty);
    var tail := WithKey(rest, d, ty);
    assert WithKey(Insert(x, s), d, ty) == head + (tail + mine);
    assert WithKey(s, d, ty) == head + tail;
    ConcatAssoc(head, tail, mine);
  }

  /** The step of InsertStable where x goes in front. */
  lemma InsertStableFront(x: Transaction, s: seq<Transaction>, d: Date, ty: TransactionType)
    requires Sorted(s) && |s| > 0 && !KeyLe(s[0], x)
    ensures WithKey(Insert(x, s), d, ty)
         == WithKey(s, d, ty) + (if x.date == d && x.txnType == ty then [x] else [])
  {
    WithKeySingle(x, d, ty);
    assert Insert(x, s) == [x] + s;
    WithKeyAppend([x], s, d, ty);
    if x.date == d && x.txnType == ty {
      AboveHasOtherKeys(x, s);
      assert WithKey(Insert(x, s), d, ty) == [x] + [];
    } else {
      assert WithKey(Insert(x, s), d, ty) == [] + WithKey(s, d, ty);
    }
  }

  lemma ConcatAssoc(a: seq<Transaction>, b: seq<Transaction>, c: seq<Transaction>)
    ensures a + (b + c) == (a + b) + c
  {
  }

  /** The sort is stable: the transactions that share a key keep their
      relative order. */
  lemma {:induction false} SortByKeyStable(s: seq<Transaction>, d: Date, ty: TransactionType)
    ensures WithKey(SortByKey(s), d, ty) == WithKey(s, d, ty)
  {
    if |s| > 0 {
      var n := |s| - 1;
      SortByKeyStable(s[..n], d, ty);
      SortByKeySorted(s[..n]);
      InsertStable(s[n], SortByKey(s[..n]), d, ty);
    }
  }

  /** r is s stably sorted by the key: the same transactions, each as
      often, in key order, and those sharing a key in their order in s. */
  ghost predicate StableSortOf(r: seq<Transaction>, s: seq<Transaction>) {
    multiset(r) == multiset(s) && Sorted(r) && forall d, ty :: WithKey(r, d, ty) == WithKey(s, d, ty)
  }

  lemma SortByKeyIsStableSort(s: seq<Transaction>)
    ensures StableSortOf(SortByKey(s), s)
  {
    SortByKeySorted(s);
    forall d, ty ensures WithKey(SortByKey(s), d, ty) == WithKey(s, d, ty) {
      SortByKeyStable(s, d, ty);
    }
  }
}
