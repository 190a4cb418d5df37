/**
 * The prefix search behind `/logs/search` and `/customers/search`: the query
 * asks the view for keys from the search value up to the value followed by
 * the client library's range-end sentinel, and for at most one page of rows.
 * The sentinel's concrete character belongs to the client library and is a
 * parameter here.
 */
module Search {
  import opened DocStore

  /** `ENTRIES_PER_PAGE`. */
  const EntriesPerPage: nat := 30

  /** The parts of a view query the handlers set: `mapkey_range` and `limit`. */
  datatype Query = Query(startKey: string, endKey: string, limit: nat)

  datatype QueryOutcome = Built(query: Query) | Raised(error: PyError)

  /**
   * The query built from the `value` request argument. A request without the
   * argument gets None, and `None + STRING_RANGE_END` raises a TypeError.
   */
  function SearchQuery(value: Option<string>, rangeEnd: char): (r: QueryOutcome)
    ensures r.Raised? <==> value.None?
    ensures r.Raised? ==> r.error == TypeError
    ensures r.Built? ==> r.query.startKey == value.value
    ensures r.Built? ==> r.query.endKey == value.value + [rangeEnd]
    ensures r.Built? ==> r.query.limit == EntriesPerPage
  {
    match value
    case None => Raised(TypeError)
    case Some(v) => Built(Query(v, v + [rangeEnd], EntriesPerPage))
  }

  /** Lexicographic order on strings, character by character (code-point order). */
  predicate LexLe(a: string, b: string)
  {
    a == [] || (b != [] && (a[0] < b[0] || (a[0] == b[0] && LexLe(a[1..], b[1..]))))
  }

  /** A key the view returns for the query: both bounds are inclusive. */
  predicate InRange(q: Query, key: string)
  {
    LexLe(q.startKey, key) && LexLe(key, q.endKey)
  }

  /** A prefix sorts at or before every extension of it. */
  lemma {:induction false} PrefixLexLe(a: string, b: string)
    requires a <= b
    ensures LexLe(a, b)
  {
    if a != [] {
      assert a[1..] <= b[1..];
      PrefixLexLe(a[1..], b[1..]);
    }
  }

  /** A common prefix does not change the order. */
  lemma {:induction false} LexLeCommonPrefix(v: string, x: string, y: string)
    ensures LexLe(v + x, v + y) <==> LexLe(x, y)
  {
    if v != [] {
      assert (v + x)[0] == v[0] == (v + y)[0];
      assert (v + x)[1..] == v[1..] + x;
      assert (v + y)[1..] == v[1..] + y;
      LexLeCommonPrefix(v[1..], x, y);
      assert LexLe(v + x, v + y) == LexLe(v[1..] + x, v[1..] + y);
    } else {
      assert v + x == x && v + y == y;
    }
  }

  /** A key between `v` and `v + [e]` starts with `v`. */
  lemma {:induction false} BetweenHasPrefix(v: string, e: char, s: string)
    requires LexLe(v, s) && LexLe(s, v + [e])
    ensures v <= s
  {
    if v != [] {
      assert s != [];
      assert (v + [e])[0] == v[0];
      assert (v + [e])[1..] == v[1..] + [e];
      BetweenHasPrefix(v[1..], e, s[1..]);
      assert s == [s[0]] + s[1..];
    }
  }

  /** The continuations of `v` that sort at or below `v + [e]`. */
  lemma ContinuationBelowEnd(e: char, c: string)
    ensures LexLe(c, [e]) <==> c == [] || c[0] < e || c == [e]
  {
    if c != [] && c[0] == e {
      assert c[1..] == [] <==> c == [e];
      assert [e][1..] == [];
    }
  }

  /**
   * Prefix completeness of a search query: a key is in the query's range
   * exactly when it starts with the search value and its continuation is
   * empty, begins with a character below the sentinel, or is the sentinel.
   */
  lemma SearchRangeMembership(value: string, rangeEnd: char, key: string)
    ensures SearchQuery(Some(value), rangeEnd).Built?
    ensures InRange(SearchQuery(Some(value), rangeEnd).query, key) <==>
              value <= key &&
              (|key| == |value| || key[|value|] < rangeEnd || key == value + [rangeEnd])
  {
    var q := SearchQuery(Some(value), rangeEnd).query;
    if InRange(q, key) {
      BetweenHasPrefix(value, rangeEnd, key);
    }
    if value <= key {
      var c := key[|value|..];
      assert key == value + c;
      PrefixLexLe(value, key);
      LexLeCommonPrefix(value, c, [rangeEnd]);
      ContinuationBelowEnd(rangeEnd, c);
      assert c == [rangeEnd] <==> key == value + [rangeEnd];
    }
  }

  /** The lower bound never sorts after the upper bound. */
  lemma SearchBoundsOrdered(value: string, rangeEnd: char)
    ensures SearchQuery(Some(value), rangeEnd).Built?
    ensures LexLe(SearchQuery(Some(value), rangeEnd).query.startKey, SearchQuery(Some(value), rangeEnd).query.endKey)
  {
    PrefixLexLe(value, value + [rangeEnd]);
  }

  /** The search value itself and every extension starting below the sentinel are in range. */
  lemma ExtensionsInRange(value: string, rangeEnd: char, c: string)
    requires c == [] || c[0] < rangeEnd
    ensures InRange(SearchQuery(Some(value), rangeEnd).query, value + c)
  {
    SearchRangeMembership(value, rangeEnd, value + c);
    assert (value + c)[|value|..] == c;
  }

  /**
   * Searching for `al` with a sentinel above the letters: `alice` and `album`
   * are in range, `bob` and the shorter `a` are not.
   */
  lemma SearchExample(rangeEnd: char)
    requires 'i' < rangeEnd && 'b' < rangeEnd
    ensures SearchQuery(Some("al"), rangeEnd).Built?
    ensures InRange(SearchQuery(Some("al"), rangeEnd).query, "alice")
    ensures InRange(SearchQuery(Some("al"), rangeEnd).query, "album")
    ensures !InRange(SearchQuery(Some("al"), rangeEnd).query, "bob")
    ensures !InRange(SearchQuery(Some("al"), rangeEnd).query, "a")
  {
    ExtensionsInRange("al", rangeEnd, "ice");
    assert "al" + "ice" == "alice";
    ExtensionsInRange("al", rangeEnd, "bum");
    assert "al" + "bum" == "album";
    SearchRangeMembership("al", rangeEnd, "bob");
    assert !("al" <= "bob") by { assert "bob"[0] != "al"[0]; }
    SearchRangeMembership("al", rangeEnd, "a");
  }
}
