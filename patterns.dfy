/** The fixed regular expressions the extraction code searches for, written
    as token sequences.

    Every pattern of the statement parser is a chain of literals, `\s*`,
    `\s+`, `c?` and `\d`, in which each repeatable or optional token is
    followed by something it cannot itself consume (a literal that starts
    with a non-space, a digit, a different character). For such a chain
    Python's backtracking matcher has exactly one way to succeed from a
    given position: every `\s*`, `\s+` and `c?` takes as much as it can.
    The greedy matcher below is therefore the regex's own result. The one
    exception, `\s*\n`, is a token of its own: its whitespace run ends just
    after the LAST newline of the run, since the engine gives characters
    back one at a time until a newline follows.

    With IGNORECASE, letters compare after ASCII lower-casing. */
module Patterns {
  import opened Wrappers
  import opened Text

  datatype Tok =
    | Lit(word: string)          // the characters of word
    | Spaces(atLeastOne: bool)   // `\s+` when atLeastOne, else `\s*`
    | Opt(ch: char)              // `c?`
    | Digit                      // `\d`
    | SpacesNewline              // `\s*\n`

  type Pattern = seq<Tok>

  /** Alternatives `a|b|c`, tried in order at each position. */
  type Regex = seq<Pattern>

  /** A half-open range of offsets: a match, or a region of a page's text. */
  datatype Span = Span(start: nat, end: nat)

  predicate CharEq(a: char, b: char, ci: bool) {
    if ci then ToLower(a) == ToLower(b) else a == b
  }

  predicate LitAt(s: string, i: nat, w: string, ci: bool) {
    i + |w| <= |s| && forall k :: 0 <= k < |w| ==> CharEq(s[i + k], w[k], ci)
  }

  /** The last newline in s[lo..hi), if there is one. */
  function LastNewline(s: string, lo: nat, hi: nat): (r: Option<nat>)
    requires lo <= hi <= |s|
    ensures r.Some? ==> lo <= r.value < hi && s[r.value] == '\n'
    ensures r.Some? ==> forall k :: r.value < k < hi ==> s[k] != '\n'
    ensures r.None? ==> forall k :: lo <= k < hi ==> s[k] != '\n'
    decreases hi
  {
    if hi == lo then None
    else if s[hi - 1] == '\n' then Some(hi - 1)
    else LastNewline(s, lo, hi - 1)
  }

  /** Where one token that starts at i ends, if it matches there. */
  function Step(s: string, i: nat, t: Tok, ci: bool): (r: Option<nat>)
    requires i <= |s|
    ensures r.Some? ==> i <= r.value <= |s|
    ensures r.Some? && t.Lit? && |t.word| > 0 ==> i < r.value
  {
    match t
    case Lit(w) => if LitAt(s, i, w, ci) then Some(i + |w|) else None
    case Spaces(one) =>
      var j := SkipSpaces(s, i);
      if one && j == i then None else Some(j)
    case Opt(c) => if i < |s| && CharEq(s[i], c, ci) then Some(i + 1) else Some(i)
    case Digit => if i < |s| && IsDigit(s[i]) then Some(i + 1) else None
    case SpacesNewline =>
      match LastNewline(s, i, SkipSpaces(s, i))
      case Some(n) => Some(n + 1)
      case None => None
  }

  /** Every way `\s*\n` can match from i: whitespace up to e - 1, then a
      newline that ends at e. */
  predicate SpacesNewlineEnd(s: string, i: nat, e: nat) {
    i < e <= |s| && s[e - 1] == '\n' && forall k :: i <= k < e - 1 ==> IsSpace(s[k])
  }

  /** `\s*\n` matches exactly when some way does, and the engine ends it
      at the last of them: the greedy `\s*` gives characters back only
      until a newline follows. */
  lemma SpacesNewlineMatches(s: string, i: nat, ci: bool)
    requires i <= |s|
    ensures Step(s, i, SpacesNewline, ci).Some? <==> exists e: nat :: SpacesNewlineEnd(s, i, e)
    ensures forall e: nat :: Step(s, i, SpacesNewline, ci) == Some(e)
                        <==> SpacesNewlineEnd(s, i, e) && forall e': nat :: SpacesNewlineEnd(s, i, e') ==> e' <= e
  {
    var j := SkipSpaces(s, i);
    assert IsSpace('\n');
    forall e': nat | SpacesNewlineEnd(s, i, e')
      ensures e' <= j && LastNewline(s, i, j).Some? && e' <= LastNewline(s, i, j).value + 1
    {
      assert j == |s| || !IsSpace(s[j]);
      assert i <= e' - 1 < j;
    }
    match LastNewline(s, i, j)
    case Some(n) =>
      assert SpacesNewlineEnd(s, i, n + 1);
    case None =>
  }

  /** Where a match of p that starts at i ends, if p matches there. */
  function MatchAt(s: string, i: nat, p: Pattern, ci: bool): (r: Option<nat>)
    requires i <= |s|
    ensures r.Some? ==> i <= r.value <= |s|
    ensures r.Some? && |p| > 0 && p[0].Lit? && |p[0].word| > 0 ==> i < r.value
    decreases |p|
  {
    if |p| == 0 then Some(i)
    else
      match Step(s, i, p[0], ci)
      case Some(j) => MatchAt(s, j, p[1..], ci)
      case None => None
  }

  /** Matching a concatenation is matching its two parts one after the other. */
  lemma {:induction false} MatchConcat(s: string, i: nat, a: Pattern, b: Pattern, ci: bool)
    requires i <= |s|
    ensures MatchAt(s, i, a + b, ci)
         == (match MatchAt(s, i, a, ci)
             case Some(k) => MatchAt(s, k, b, ci)
             case None => None)
    decreases |a|
  {
    if |a| > 0 {
      assert (a + b)[0] == a[0] && (a + b)[1..] == a[1..] + b;
      var st := Step(s, i, a[0], ci);
      if st.Some? { MatchConcat(s, st.value, a[1..], b, ci); }
    } else {
      assert a + b == b;
    }
  }

  /** Every alternative starts with a non-empty literal, so no match is empty. */
  predicate StartsWithLiteral(re: Regex) {
    forall k :: 0 <= k < |re| ==> |re[k]| > 0 && re[k][0].Lit? && |re[k][0].word| > 0
  }

  /** The end of the first alternative that matches at i. */
  function MatchAny(s: string, i: nat, re: Regex, ci: bool): (r: Option<nat>)
    requires i <= |s|
    ensures r.Some? ==> i <= r.value <= |s|
    ensures r.Some? && StartsWithLiteral(re) ==> i < r.value
    decreases |re|
  {
    if |re| == 0 then None
    else
      match MatchAt(s, i, re[0], ci)
      case Some(e) => Some(e)
      case None =>
        var r := MatchAny(s, i, re[1..], ci);
        assert StartsWithLiteral(re) ==> StartsWithLiteral(re[1..]) by {
          assert forall k :: 1 <= k < |re| ==> re[1..][k - 1] == re[k];
        }
        r
  }

  /** An alternation matches exactly when one of its alternatives does. */
  lemma {:induction false} MatchAnySome(s: string, i: nat, re: Regex, ci: bool)
    requires i <= |s|
    ensures MatchAny(s, i, re, ci).Some? <==> exists k :: 0 <= k < |re| && MatchAt(s, i, re[k], ci).Some?
    decreases |re|
  {
    if |re| > 0 && MatchAt(s, i, re[0], ci).None? {
      MatchAnySome(s, i, re[1..], ci);
      assert forall k :: 1 <= k < |re| ==> re[1..][k - 1] == re[k];
    }
  }

  /** The leftmost position at or after `from` where re matches. */
  function SearchFrom(s: string, from: nat, re: Regex, ci: bool): (r: Option<nat>)
    requires from <= |s|
    ensures r.Some? ==> from <= r.value <= |s| && MatchAny(s, r.value, re, ci).Some?
    ensures r.Some? ==> forall j :: from <= j < r.value ==> MatchAny(s, j, re, ci).None?
    ensures r.None? ==> forall j :: from <= j <= |s| ==> MatchAny(s, j, re, ci).None?
    decreases |s| - from
  {
    if MatchAny(s, from, re, ci).Some? then Some(from)
    else if from == |s| then None
    else SearchFrom(s, from + 1, re, ci)
  }

  /** `re.search(re, s)`: the leftmost position where re matches. */
  function Search(s: string, re: Regex, ci: bool): (r: Option<nat>)
    ensures r.Some? ==> r.value <= |s| && MatchAny(s, r.value, re, ci).Some?
    ensures r.Some? ==> forall j :: 0 <= j < r.value ==> MatchAny(s, j, re, ci).None?
    ensures r.None? ==> forall j :: 0 <= j <= |s| ==> MatchAny(s, j, re, ci).None?
  {
    SearchFrom(s, 0, re, ci)
  }

  /** `re.finditer(re, s[pos:])` for a pattern whose matches are never empty:
      the matches found by searching again from the end of the previous one.
      They are in order, do not overlap, and every position where re matches
      starts or lies inside one of them. */
  function FindAllFrom(s: string, pos: nat, re: Regex, ci: bool): (r: seq<Span>)
    requires pos <= |s|
    requires StartsWithLiteral(re)
    ensures forall k :: 0 <= k < |r| ==> pos <= r[k].start < r[k].end <= |s|
    ensures forall k :: 0 <= k < |r| ==> MatchAny(s, r[k].start, re, ci) == Some(r[k].end)
    ensures forall k :: 0 <= k < |r| - 1 ==> r[k].end <= r[k + 1].start
    decreases |s| - pos
  {
    match SearchFrom(s, pos, re, ci)
    case None => []
    case Some(p) =>
      var e := MatchAny(s, p, re, ci).value;
      [Span(p, e)] + FindAllFrom(s, e, re, ci)
  }

  /** No match is skipped: every position where re matches starts, or lies
      inside, one of the matches FindAllFrom lists. */
  lemma {:induction false} FindAllCovers(s: string, pos: nat, re: Regex, ci: bool, j: nat)
    requires pos <= j <= |s| && StartsWithLiteral(re)
    requires MatchAny(s, j, re, ci).Some?
    ensures exists k :: 0 <= k < |FindAllFrom(s, pos, re, ci)|
                        && FindAllFrom(s, pos, re, ci)[k].start <= j < FindAllFrom(s, pos, re, ci)[k].end
    decreases |s| - pos
  {
    var r := FindAllFrom(s, pos, re, ci);
    var p := SearchFrom(s, pos, re, ci).value;
    var e := MatchAny(s, p, re, ci).value;
    if j < e {
      assert r[0].start <= j < r[0].end;
    } else {
      FindAllCovers(s, e, re, ci, j);
      var rest := FindAllFrom(s, e, re, ci);
      var k' :| 0 <= k' < |rest| && rest[k'].start <= j < rest[k'].end;
      assert r[k' + 1] == rest[k'];
    }
  }

  /** `re.finditer(re, s)`. */
  function FindAll(s: string, re: Regex, ci: bool): (r: seq<Span>)
    requires StartsWithLiteral(re)
    ensures forall k :: 0 <= k < |r| ==> r[k].start < r[k].end <= |s|
    ensures forall k :: 0 <= k < |r| ==> MatchAny(s, r[k].start, re, ci) == Some(r[k].end)
    ensures forall k :: 0 <= k < |r| - 1 ==> r[k].end <= r[k + 1].start
  {
    FindAllFrom(s, 0, re, ci)
  }
}
