/** The Python and SQL text semantics the backend routes rely on: Python
    truthiness and `str()` of a decoded JSON query value, `int()` on a
    decimal tag, and the SQL `LIKE` match the tag and project filters use. */
module BackendText {
  import opened Wrappers
  import opened Text
  import opened Json

  // ---------------------------------------------------------------- Python values

  /** Python truthiness of a decoded JSON value: `None`, `False`, `0`, the
      empty string, list and dict are falsy. */
  predicate PyTruthy(v: Json) {
    match v
    case JNull => false
    case JBool(b) => b
    case JNum(n) => n != 0
    case JStr(s) => s != ""
    case JArr(items) => items != []
    case JObj(fields) => fields != map[]
  }

  /** `repr()` of a list element inside `str(list)`: strings are quoted. */
  function PyRepr(v: Json): string
    decreases v, 1
  {
    if v.JStr? then PyQuoted(v.s) else PyStr(v)
  }

  /** `repr()` of a string: in single quotes, or in double quotes when it
      holds a single quote and no double quote; the backslash, the chosen
      quote, newline, carriage return and tab are escaped. */
  function PyQuoted(s: string): (r: string)
    ensures |r| >= 2 && r[0] == r[|r| - 1] && (r[0] == '\'' || r[0] == '"')
    ensures r[0] == '"' <==> '\'' in s && '"' !in s
  {
    var q := if '\'' in s && '"' !in s then '"' else '\'';
    [q] + PyEscaped(s, q) + [q]
  }

  function PyEscaped(s: string, q: char): string {
    if s == [] then ""
    else
      var c := s[0];
      (if c == '\\' then "\\\\"
       else if c == q then ['\\', q]
       else if c == '\n' then "\\n"
       else if c == '\r' then "\\r"
       else if c == '\t' then "\\t"
       else [c]) + PyEscaped(s[1..], q)
  }

  /** `', '.join(repr(x) for x in items)`. */
  function PyReprs(items: seq<Json>): string
    decreases items, 2
  {
    if items == [] then ""
    else if |items| == 1 then PyRepr(items[0])
    else PyRepr(items[0]) + ", " + PyReprs(items[1..])
  }

  /** `str(v)` for a decoded JSON value. A non-empty dict is rendered as
      `{…}` (see README). */
  function PyStr(v: Json): (r: string)
    ensures v.JStr? ==> r == v.s
    ensures v.JNum? ==> r == IntToString(v.n)
    ensures v.JNull? ==> r == "None"
    ensures v.JBool? ==> r == (if v.b then "True" else "False")
    ensures v.JArr? ==> |r| >= 2 && r[0] == '[' && r[|r| - 1] == ']'
    decreases v, 0
  {
    match v
    case JNull => "None"
    case JBool(b) => if b then "True" else "False"
    case JNum(n) => IntToString(n)
    case JStr(s) => s
    case JArr(items) => "[" + PyReprs(items) + "]"
    case JObj(fields) => if fields == map[] then "{}" else "{…}"
  }

  /** Appending an item to a non-empty list appends `, ` and its `repr()`. */
  lemma {:induction false} PyReprsAppend(items: seq<Json>, x: Json)
    requires items != []
    ensures PyReprs(items + [x]) == PyReprs(items) + ", " + PyRepr(x)
    decreases |items|
  {
    var all := items + [x];
    assert all[0] == items[0] && all[1..] == items[1..] + [x];
    if |items| > 1 {
      PyReprsAppend(items[1..], x);
    }
  }

  /** `str()` of a list is its items' `repr()`s, separated by `, `, between
      brackets. */
  lemma PyStrOfList(items: seq<Json>, x: Json)
    ensures PyStr(JArr([])) == "[]"
    ensures PyStr(JArr(items + [x]))
         == "[" + (if items == [] then "" else PyReprs(items) + ", ") + PyRepr(x) + "]"
  {
    if items != [] {
      PyReprsAppend(items, x);
    } else {
      assert items + [x] == [x];
    }
  }

  /** `[str(x) for x in items]`. */
  function PyStrs(items: seq<Json>): (r: seq<string>)
    ensures |r| == |items|
    ensures forall j :: 0 <= j < |items| ==> r[j] == PyStr(items[j])
  {
    if items == [] then [] else [PyStr(items[0])] + PyStrs(items[1..])
  }

  // ---------------------------------------------------------------- int()

  /** A run of decimal digits in which single underscores may separate
      digits, as Python's `int()` accepts. */
  predicate DigitGroups(u: string) {
    u != [] && IsDigit(u[0]) && IsDigit(u[|u| - 1])
    && (forall k :: 0 <= k < |u| ==> IsDigit(u[k]) || u[k] == '_')
    && (forall k :: 0 <= k < |u| - 1 ==> !(u[k] == '_' && u[k + 1] == '_'))
  }

  /** `u` with its underscores removed. */
  function Unscored(u: string): (d: string)
    requires forall k :: 0 <= k < |u| ==> IsDigit(u[k]) || u[k] == '_'
    ensures AllDigits(d) && |d| <= |u|
  {
    if u == [] then []
    else if u[0] == '_' then Unscored(u[1..])
    else [u[0]] + Unscored(u[1..])
  }

  /** Python's `int(s)` in base 10: an optional sign, then digits with
      optional single underscores between them; None for a ValueError. */
  function PyInt(s: string): (r: Option<int>)
    ensures s != [] && s[0] == '-' && DigitGroups(s[1..]) ==> r == Some(-(DigitsValue(Unscored(s[1..])) as int))
    ensures DigitGroups(s) ==> r == Some(DigitsValue(Unscored(s)))
    ensures r.Some? ==> s != [] && (DigitGroups(s) || (s[0] in "+-" && DigitGroups(s[1..])))
  {
    if s != [] && s[0] == '-' && DigitGroups(s[1..]) then Some(-(DigitsValue(Unscored(s[1..])) as int))
    else if s != [] && s[0] == '+' && DigitGroups(s[1..]) then Some(DigitsValue(Unscored(s[1..])))
    else if DigitGroups(s) then Some(DigitsValue(Unscored(s)))
    else None
  }

  lemma {:induction false} UnscoredOfDigits(d: string)
    requires AllDigits(d)
    ensures Unscored(d) == d
    decreases |d|
  {
    if d != [] {
      UnscoredOfDigits(d[1..]);
      assert d == [d[0]] + d[1..];
    }
  }

  /** `int(str(n))` is `n` for every natural number. */
  lemma PyIntOfNatToString(n: nat)
    ensures PyInt(NatToString(n)) == Some(n)
  {
    var s := NatToString(n);
    UnscoredOfDigits(s);
    DigitsValueOfNatToString(n);
    assert DigitGroups(s);
  }

  /** A value `int()` reads has no letters in it: text such as `latest`
      is a ValueError. */
  lemma PyIntRejectsLetters(s: string, k: nat)
    requires k < |s| && 'a' <= s[k] <= 'z'
    ensures PyInt(s) == None
  {
  }

  // ---------------------------------------------------------------- LIKE

  /** SQL `s LIKE p`: `%` matches any run of characters, `_` any single
      character, every other character itself. No escape character. */
  predicate Like(s: string, p: string)
    decreases |s| + |p|
  {
    if p == [] then s == []
    else if p[0] == '%' then Like(s, p[1..]) || (s != [] && Like(s[1..], p))
    else s != [] && (p[0] == '_' || p[0] == s[0]) && Like(s[1..], p[1..])
  }

  /** A pattern free of wildcards. */
  predicate Literal(t: string) {
    '%' !in t && '_' !in t
  }

  /** A pattern without wildcards matches exactly the equal text. */
  lemma {:induction false} LikeLiteral(s: string, p: string)
    requires Literal(p)
    ensures Like(s, p) <==> s == p
    decreases |p|
  {
    if p != [] {
      assert Literal(p[1..]) by {
        assert forall c :: c in p[1..] ==> c in p;
      }
      if s != [] {
        LikeLiteral(s[1..], p[1..]);
        assert s == p <==> s[0] == p[0] && s[1..] == p[1..];
      }
    }
  }

  /** `%` matches every string. */
  lemma {:induction false} LikePercentAlone(s: string)
    ensures Like(s, "%")
    decreases |s|
  {
    assert "%"[1..] == [];
    if s != [] {
      LikePercentAlone(s[1..]);
    }
  }

  /** A literal prefix of the pattern must be matched character by
      character. */
  lemma {:induction false} LikeLiteralPrefix(s: string, t: string, q: string)
    requires Literal(t)
    ensures Like(s, t + q) <==> StartsWith(s, t) && Like(s[|t|..], q)
    decreases |t|
  {
    if t == [] {
      assert t + q == q;
    } else {
      var p := t + q;
      assert p[0] == t[0] && p[1..] == t[1..] + q;
      if s != [] {
        LikeLiteralPrefix(s[1..], t[1..], q);
        if |t| <= |s| {
          assert s[1..][|t| - 1..] == s[|t|..];
        }
        assert StartsWith(s, t) <==> s[0] == t[0] && StartsWith(s[1..], t[1..]);
      }
    }
  }

  /** A leading `%` tries every suffix of the string. */
  lemma {:induction false} LikeLeadingPercent(s: string, q: string)
    ensures Like(s, ['%'] + q) <==> exists i :: 0 <= i <= |s| && Like(s[i..], q)
    decreases |s|
  {
    var p := ['%'] + q;
    assert p[1..] == q;
    if s == [] {
      assert Like(s, p) <==> Like(s[0..], q);
    } else {
      LikeLeadingPercent(s[1..], q);
      if Like(s, p) {
        if !Like(s, q) {
          var i :| 0 <= i <= |s[1..]| && Like(s[1..][i..], q);
          assert s[1..][i..] == s[i + 1..];
        } else {
          assert s[0..] == s;
        }
      }
      if exists i :: 0 <= i <= |s| && Like(s[i..], q) {
        var i :| 0 <= i <= |s| && Like(s[i..], q);
        if i == 0 {
          assert s[0..] == s;
        } else {
          assert s[1..][i - 1..] == s[i..];
        }
      }
    }
  }

  /** `code LIKE '%t%'` with a wildcard-free `t` is substring search. */
  lemma LikeContains(s: string, t: string)
    requires Literal(t)
    ensures Like(s, ['%'] + t + ['%']) <==> Contains(s, t)
  {
    assert ['%'] + t + ['%'] == ['%'] + (t + "%");
    LikeLeadingPercent(s, t + "%");
    if Like(s, ['%'] + t + ['%']) {
      var i :| 0 <= i <= |s| && Like(s[i..], t + "%");
      LikeLiteralPrefix(s[i..], t, "%");
      assert s[i..][..|t|] == s[i..i + |t|];
      assert OccursAt(s, t, i);
    }
    if Contains(s, t) {
      var i :| 0 <= i <= |s| - |t| && OccursAt(s, t, i);
      LikeLiteralPrefix(s[i..], t, "%");
      LikePercentAlone(s[i..][|t|..]);
      assert StartsWith(s[i..], t);
    }
  }
}
