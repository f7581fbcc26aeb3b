/** Copying the lender tags of a tagged statement back onto the
    statement's own transactions, which are updated in place. A tagged
    transaction is found by the transaction's date, description and
    amount. */
module Cli {
  import opened Wrappers
  import opened Models
  import opened LenderTagger

  /** The identity a transaction is looked up by. */
  type Key = (Date, string, int)

  function KeyOf(t: Transaction): Key {
    (t.date, t.description, t.amount)
  }

  /** The lookup `_apply_lender_tags` builds: a later tagged transaction
      replaces an earlier one with the same key. */
  function LookupOf(tts: seq<TaggedTransaction>): map<Key, TaggedTransaction> {
    if |tts| == 0 then map[]
    else
      var last := tts[|tts| - 1];
      LookupOf(tts[..|tts| - 1])[KeyOf(last.transaction) := last]
  }

  /** A key is in the lookup exactly when some tagged transaction has it,
      and it leads to the last of those. */
  lemma {:induction false} LookupLatest(tts: seq<TaggedTransaction>, key: Key)
    ensures key in LookupOf(tts) <==> exists i :: 0 <= i < |tts| && KeyOf(tts[i].transaction) == key
    ensures key in LookupOf(tts) ==>
              exists i :: 0 <= i < |tts| && LookupOf(tts)[key] == tts[i] && KeyOf(tts[i].transaction) == key
                          && forall j :: i < j < |tts| ==> KeyOf(tts[j].transaction) != key
  {
    if |tts| > 0 {
      var n := |tts| - 1;
      LookupLatest(tts[..n], key);
      assert forall i :: 0 <= i < n ==> tts[..n][i] == tts[i];
      if KeyOf(tts[n].transaction) != key && key in LookupOf(tts[..n]) {
        var i :| 0 <= i < n && LookupOf(tts[..n])[key] == tts[..n][i] && KeyOf(tts[..n][i].transaction) == key
                 && forall j :: i < j < n ==> KeyOf(tts[..n][j].transaction) != key;
        assert LookupOf(tts)[key] == tts[i];
      }
    }
  }

  /** The lender names of the matches, in order. */
  function Names(ms: seq<LenderMatch>): (r: seq<string>)
    ensures |r| == |ms| && forall i :: 0 <= i < |ms| ==> r[i] == ms[i].lenderName
  {
    seq(|ms|, i requires 0 <= i < |ms| => ms[i].lenderName)
  }

  /** One transaction after `_apply_lender_tags`: untouched without a
      tagged counterpart; otherwise its lender names and flags replaced.
      It stays the same record, and is never both a transfer and a
      payment once tagged. */
  function Retag(t: Transaction, lookup: map<Key, TaggedTransaction>): (r: Transaction)
    ensures r.date == t.date && r.description == t.description && r.amount == t.amount
    ensures r.txnType == t.txnType && r.checkNumber == t.checkNumber
    ensures KeyOf(t) !in lookup ==> r == t
    ensures KeyOf(t) in lookup ==>
              r.lenderMatches == Some(Names(lookup[KeyOf(t)].lenderMatches))
              && !(r.isLenderTransfer && r.isLenderPayment)
              && (r.isLenderTransfer <==> t.txnType == Deposit && (lookup[KeyOf(t)].isTransfer || |lookup[KeyOf(t)].lenderMatches| > 0))
              && (r.isLenderPayment <==> t.txnType != Deposit && |lookup[KeyOf(t)].lenderMatches| > 0)
  {
    var key := KeyOf(t);
    if key in lookup then
      var tt := lookup[key];
      var hasMatch := |tt.lenderMatches| > 0;
      t.(lenderMatches := Some(Names(tt.lenderMatches)),
         isLenderTransfer := t.txnType == Deposit && (tt.isTransfer || hasMatch),
         isLenderPayment := (t.txnType == Withdrawal || t.txnType == Check) && hasMatch)
    else t
  }

  /** Tags taken from the statement's own tagging are those of the
      transaction itself, whatever other transaction shares its key: the
      tags depend only on the description. The flags then say whether the
      transaction counted in the transfer or the payment summary. */
  lemma RetagOwnTags(ts: seq<Transaction>, k: Keywords, i: nat)
    requires i < |ts|
    ensures var t := ts[i];
            var r := Retag(t, LookupOf(TagAll(ts, k)));
            r.lenderMatches == Some(Names(Tag(t, k).lenderMatches))
            && r.isLenderTransfer == Qualifies(Transfers, Tag(t, k))
            && r.isLenderPayment == Qualifies(Payments, Tag(t, k))
  {
    var tts := TagAll(ts, k);
    var key := KeyOf(ts[i]);
    assert KeyOf(tts[i].transaction) == key;
    LookupLatest(tts, key);
    var j :| 0 <= j < |tts| && LookupOf(tts)[key] == tts[j] && KeyOf(tts[j].transaction) == key;
    assert ts[j].description == ts[i].description;
  }

  /** The first loop of `_apply_lender_tags`. */
  method BuildLookup(tts: seq<TaggedTransaction>) returns (lookup: map<Key, TaggedTransaction>)
    ensures lookup == LookupOf(tts)
  {
    lookup := map[];
    for i := 0 to |tts|
      invariant lookup == LookupOf(tts[..i])
    {
      assert tts[..i + 1][..i] == tts[..i];
      var tagged := tts[i];
      lookup := lookup[KeyOf(tagged.transaction) := tagged];
    }
    assert tts[..|tts|] == tts;
  }

  /** `_apply_lender_tags`: every transaction of the statement is retagged
      in place; their number and order stay. */
  method ApplyLenderTags(txns: array<Transaction>, tagged: seq<TaggedTransaction>)
    modifies txns
    ensures forall i :: 0 <= i < txns.Length ==> txns[i] == Retag(old(txns[i]), LookupOf(tagged))
  {
    var lookup := BuildLookup(tagged);
    for i := 0 to txns.Length
      invariant forall j :: 0 <= j < i ==> txns[j] == Retag(old(txns[j]), lookup)
      invariant forall j :: i <= j < txns.Length ==> txns[j] == old(txns[j])
    {
      txns[i] := Retag(txns[i], lookup);
    }
  }
}
