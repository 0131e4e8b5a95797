/**
 * The meaning, as SQLite evaluates them, of the SQL expressions that the
 * store's statements use: `=` on nullable columns, `COALESCE`, `LIMIT`,
 * `LIKE` and the `BINARY` collation behind `ORDER BY name`.
 */
module Sql {
  import opened Wrappers

  // ---------------------------------------------------------------------
  // NULL-aware equality and COALESCE
  // ---------------------------------------------------------------------

  /** `a = b` in a WHERE clause holds only when neither side is NULL:
      `NULL = NULL` is NULL, which WHERE treats as false. */
  predicate SqlEquals<T(==)>(a: Option<T>, b: Option<T>)
  {
    a.Some? && b.Some? && a.value == b.value
  }

  /** `COALESCE(a, b)`: the first non-NULL argument. */
  function Coalesce<T>(a: Option<T>, b: Option<T>): Option<T>
  {
    if a.Some? then a else b
  }

  /** The filter `column = COALESCE(?, column)` for a bound parameter `param`. */
  predicate CoalesceFilter<T(==)>(param: Option<T>, column: Option<T>)
  {
    SqlEquals(column, Coalesce(param, column))
  }

  /** An omitted parameter does not make the filter transparent: a row whose
      column is NULL is rejected whatever the parameter. */
  lemma CoalesceFilterMeaning<T>(param: Option<T>, column: Option<T>)
    ensures CoalesceFilter(param, column) <==> column.Some? && (param.None? || param == column)
    ensures column.None? ==> !CoalesceFilter(param, column)
  {
  }

  // ---------------------------------------------------------------------
  // LIMIT
  // ---------------------------------------------------------------------

  function Min(a: int, b: int): int
  {
    if a <= b then a else b
  }

  /** `LIMIT n` applied to an ordered result: the first `n` rows; a negative
      limit means no upper bound (SQLite's rule). */
  function Limit<T>(rows: seq<T>, limit: int): (r: seq<T>)
    ensures r <= rows
    ensures limit >= 0 ==> |r| == Min(limit, |rows|)
    ensures limit < 0 ==> r == rows
  {
    if 0 <= limit < |rows| then rows[..limit] else rows
  }

  // ---------------------------------------------------------------------
  // LIKE
  // ---------------------------------------------------------------------

  /** SQLite's default LIKE folds case for the ASCII letters only. */
  function Fold(c: char): char
  {
    if 'A' <= c <= 'Z' then (c as int + 32) as char else c
  }

  /** Two strings of equal length that agree character by character up to ASCII case. */
  predicate FoldedEquals(a: string, b: string)
  {
    |a| == |b| && forall k :: 0 <= k < |a| ==> Fold(a[k]) == Fold(b[k])
  }

  /** `s LIKE pattern` without an ESCAPE clause: `%` matches any run of
      characters, `_` exactly one, and every other pattern character one
      character equal up to ASCII case. */
  predicate Like(pattern: string, s: string)
    decreases |pattern| + |s|
  {
    if |pattern| == 0 then
      |s| == 0
    else if pattern[0] == '%' then
      Like(pattern[1..], s) || (|s| > 0 && Like(pattern, s[1..]))
    else
      |s| > 0 && (pattern[0] == '_' || Fold(pattern[0]) == Fold(s[0])) && Like(pattern[1..], s[1..])
  }

  /** A string in which LIKE sees no wildcard. */
  predicate NoWildcards(q: string)
  {
    forall k :: 0 <= k < |q| ==> q[k] != '%' && q[k] != '_'
  }

  /** `needle` occurs in `s` from position `i`, up to ASCII case. */
  predicate OccursAt(s: string, needle: string, i: int)
  {
    0 <= i && i + |needle| <= |s| && FoldedEquals(needle, s[i..i + |needle|])
  }

  /** `needle` occurs somewhere in `s`, up to ASCII case. */
  predicate ContainsFolded(s: string, needle: string)
  {
    exists i | 0 <= i <= |s| :: OccursAt(s, needle, i)
  }

  /** The pattern `%query%` that `f"%{query}%"` builds. */
  function SurroundPattern(query: string): string
  {
    "%" + query + "%"
  }

  lemma {:induction false} LikePercentMatchesAll(s: string)
    ensures Like("%", s)
    decreases |s|
  {
    if |s| > 0 {
      LikePercentMatchesAll(s[1..]);
    }
  }

  /** A leading `%` lets the rest of the pattern match any suffix. */
  lemma {:induction false} LikeLeadingPercent(rest: string, s: string)
    ensures Like("%" + rest, s) <==> exists i :: 0 <= i <= |s| && Like(rest, s[i..])
    decreases |s|
  {
    var p := "%" + rest;
    assert p[1..] == rest;
    assert s[0..] == s;
    if |s| > 0 {
      LikeLeadingPercent(rest, s[1..]);
      forall i | 1 <= i <= |s|
        ensures s[1..][i - 1..] == s[i..]
      {
      }
      if Like(p, s[1..]) {
        var j :| 0 <= j <= |s[1..]| && Like(rest, s[1..][j..]);
        assert s[1..][j..] == s[j + 1..];
      }
      if exists i :: 0 <= i <= |s| && Like(rest, s[i..]) {
        var i :| 0 <= i <= |s| && Like(rest, s[i..]);
        if i > 0 {
          assert s[1..][i - 1..] == s[i..];
        }
      }
    }
  }

  /** A wildcard-free prefix followed by `%` matches exactly the strings
      that start with that prefix up to ASCII case. */
  lemma {:induction false} LikePrefixThenPercent(q: string, t: string)
    requires NoWildcards(q)
    ensures Like(q + "%", t) <==> |q| <= |t| && FoldedEquals(q, t[..|q|])
    decreases |q|
  {
    if |q| == 0 {
      assert q + "%" == "%";
      LikePercentMatchesAll(t);
    } else {
      var p := q + "%";
      assert p[0] == q[0] && p[0] != '%' && p[0] != '_';
      assert p[1..] == q[1..] + "%";
      assert NoWildcards(q[1..]);
      if |t| > 0 {
        LikePrefixThenPercent(q[1..], t[1..]);
        if |q| <= |t| {
          assert t[1..][..|q| - 1] == t[1..|q|];
          assert FoldedEquals(q, t[..|q|]) <==>
            Fold(q[0]) == Fold(t[0]) && FoldedEquals(q[1..], t[1..|q|]) by {
            if Fold(q[0]) == Fold(t[0]) && FoldedEquals(q[1..], t[1..|q|]) {
              forall k | 0 <= k < |q| ensures Fold(q[k]) == Fold(t[..|q|][k]) {
                if k > 0 {
                  assert q[k] == q[1..][k - 1] && t[..|q|][k] == t[1..|q|][k - 1];
                }
              }
            }
            if FoldedEquals(q, t[..|q|]) {
              forall k | 0 <= k < |q| - 1 ensures Fold(q[1..][k]) == Fold(t[1..|q|][k]) {
                assert q[1..][k] == q[k + 1] && t[1..|q|][k] == t[..|q|][k + 1];
              }
            }
          }
        }
      }
    }
  }

  /** The search pattern `%query%` of a wildcard-free query matches exactly
      the strings that contain the query, ASCII case ignored. */
  lemma SurroundPatternMeaning(query: string, s: string)
    requires NoWildcards(query)
    ensures Like(SurroundPattern(query), s) <==> ContainsFolded(s, query)
  {
    var rest := query + "%";
    assert SurroundPattern(query) == "%" + rest;
    LikeLeadingPercent(rest, s);
    if Like(SurroundPattern(query), s) {
      var i :| 0 <= i <= |s| && Like(rest, s[i..]);
      LikePrefixThenPercent(query, s[i..]);
      assert s[i..][..|query|] == s[i..i + |query|];
      assert OccursAt(s, query, i);
    }
    if ContainsFolded(s, query) {
      var i :| 0 <= i <= |s| && OccursAt(s, query, i);
      LikePrefixThenPercent(query, s[i..]);
      assert s[i..][..|query|] == s[i..i + |query|];
    }
  }

  /** Because the query is spliced into the pattern unescaped, `_` in it is a
      wildcard: the query "a_c" finds "abc", which does not contain "a_c". */
  lemma UnderscoreInQueryIsWildcard()
    ensures Like(SurroundPattern("a_c"), "abc")
    ensures !ContainsFolded("abc", "a_c")
  {
    var p := SurroundPattern("a_c");
    assert p == "%a_c%";
    assert p[1..] == "a_c%" && p[1..][1..] == "_c%" && p[1..][1..][1..] == "c%";
    assert p[1..][1..][1..][1..] == "%";
    assert "abc"[1..] == "bc" && "bc"[1..] == "c" && "c"[1..] == "";
    assert Like("%", "");
    assert Like("c%", "c");
    assert Like("_c%", "bc");
    assert Like("a_c%", "abc");
    forall i | 0 <= i <= 3
      ensures !OccursAt("abc", "a_c", i)
    {
      if i == 0 {
        assert "abc"[0..3][1] == 'b' && "a_c"[1] == '_';
      }
    }
  }

  // ---------------------------------------------------------------------
  // BINARY collation (ORDER BY on TEXT)
  // ---------------------------------------------------------------------

  /** `a` sorts no later than `b` under SQLite's BINARY collation: the
      UTF-8 bytes are compared as with memcmp, which orders strings
      lexicographically by code point, a proper prefix first. */
  predicate TextAtMost(a: string, b: string)
    decreases |a|
  {
    |a| == 0 || (|b| > 0 && (a[0] < b[0] || (a[0] == b[0] && TextAtMost(a[1..], b[1..]))))
  }

  lemma {:induction false} TextAtMostTotal(a: string, b: string)
    ensures TextAtMost(a, b) || TextAtMost(b, a)
    decreases |a|
  {
    if |a| > 0 && |b| > 0 && a[0] == b[0] {
      TextAtMostTotal(a[1..], b[1..]);
    }
  }

  lemma {:induction false} TextAtMostAntisymmetric(a: string, b: string)
    requires TextAtMost(a, b) && TextAtMost(b, a)
    ensures a == b
    decreases |a|
  {
    if |a| > 0 {
      TextAtMostAntisymmetric(a[1..], b[1..]);
      assert a == [a[0]] + a[1..] && b == [b[0]] + b[1..];
    }
  }

  lemma {:induction false} TextAtMostTransitive(a: string, b: string, c: string)
    requires TextAtMost(a, b) && TextAtMost(b, c)
    ensures TextAtMost(a, c)
    decreases |a|
  {
    if |a| > 0 && a[0] == b[0] && b[0] == c[0] {
      TextAtMostTransitive(a[1..], b[1..], c[1..]);
    }
  }
}
