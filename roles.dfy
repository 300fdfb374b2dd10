/** The role claim decoding of the browser client (frontend/src/network/api.js):
    `role2Object`, which turns one `key=value&…` role string into an object,
    and the `roles` getter, which applies it to each item of the access
    token's role claim. */
module Roles {
  import opened Wrappers
  import opened Text
  import opened Json
  import opened Errors

  /** A value of a decoded role object: text, or a coerced boolean. */
  datatype RoleValue = RoleText(text: string) | RoleFlag(flag: bool)

  /** The value of one hex digit, either case. */
  function HexValue(c: char): Option<nat> {
    if '0' <= c <= '9' then Some(c as int - '0' as int)
    else if 'a' <= c <= 'f' then Some(c as int - 'a' as int + 10)
    else if 'A' <= c <= 'F' then Some(c as int - 'A' as int + 10)
    else None
  }

  /** `decodeURIComponent` for escapes of ASCII characters: `%XX` becomes
      the character XX, a malformed escape is a URIError (None). Escapes of
      bytes above 0x7F are reported as URIErrors too (see README). */
  function DecodeUriComponent(s: string): (r: Option<string>)
    ensures '%' !in s ==> r == Some(s)
    ensures r.Some? ==> |r.value| <= |s|
    decreases |s|
  {
    if s == [] then Some([])
    else if s[0] != '%' then
      assert '%' in s[1..] ==> '%' in s;
      assert s == [s[0]] + s[1..];
      match DecodeUriComponent(s[1..])
      case None => None
      case Some(t) => Some([s[0]] + t)
    else if |s| < 3 then None
    else
      match (HexValue(s[1]), HexValue(s[2]))
      case (Some(h), Some(l)) =>
        if h * 16 + l < 0x80 then
          match DecodeUriComponent(s[3..])
          case None => None
          case Some(t) => Some([(h * 16 + l) as char] + t)
        else None
      case _ => None
  }

  /** An escape `%XX` of an ASCII character decodes to that character,
      and decoding goes on after it. */
  lemma DecodeEscape(h: char, l: char, rest: string)
    requires HexValue(h).Some? && HexValue(l).Some?
    requires HexValue(h).value * 16 + HexValue(l).value < 0x80
    ensures DecodeUriComponent(['%', h, l] + rest)
            == match DecodeUriComponent(rest)
               case None => None
               case Some(t) => Some([(HexValue(h).value * 16 + HexValue(l).value) as char] + t)
  {
    var s := ['%', h, l] + rest;
    assert s[0] == '%' && s[1] == h && s[2] == l && s[3..] == rest;
  }

  /** A `%` not followed by two hex digits is a URIError, whatever follows. */
  lemma DecodeMalformedEscape(s: string)
    requires s != [] && s[0] == '%'
    requires |s| < 3 || HexValue(s[1]).None? || HexValue(s[2]).None?
    ensures DecodeUriComponent(s).None?
  {
  }

  /** A character `encodeURIComponent` leaves as it is. */
  predicate Unreserved(c: char) {
    || 'A' <= c <= 'Z' || 'a' <= c <= 'z' || '0' <= c <= '9'
    || c in {'-', '_', '.', '!', '~', '*', '\'', '(', ')'}
  }

  /** The upper-case hex digit of `n`. */
  function HexDigit(n: nat): (c: char)
    requires n < 16
    ensures HexValue(c) == Some(n)
  {
    if n < 10 then ('0' as int + n) as char else ('A' as int + n - 10) as char
  }

  /** `encodeURIComponent` of ASCII text: an unreserved character stays,
      any other becomes `%` and its two upper-case hex digits. */
  function EncodeUriComponent(s: string): (r: string)
    requires forall k :: 0 <= k < |s| ==> s[k] as int < 0x80
    ensures |s| <= |r| <= 3 * |s|
    decreases |s|
  {
    if s == [] then []
    else
      var c := s[0];
      var head := if Unreserved(c) then [c] else ['%', HexDigit(c as int / 16), HexDigit(c as int % 16)];
      head + EncodeUriComponent(s[1..])
  }

  /** Decoding undoes encoding: every ASCII text comes back unchanged. */
  lemma {:induction false} DecodeEncode(s: string)
    requires forall k :: 0 <= k < |s| ==> s[k] as int < 0x80
    ensures DecodeUriComponent(EncodeUriComponent(s)) == Some(s)
    decreases |s|
  {
    if s != [] {
      var c := s[0];
      var rest := EncodeUriComponent(s[1..]);
      DecodeEncode(s[1..]);
      if Unreserved(c) {
        var e := [c] + rest;
        assert e[0] == c && e[1..] == rest;
      } else {
        var h, l := HexDigit(c as int / 16), HexDigit(c as int % 16);
        DecodeEscape(h, l, rest);
        assert ((c as int / 16) * 16 + c as int % 16) as char == c;
      }
      assert s == [c] + s[1..];
    }
  }

  /** The text `"true"` or `"false"` becomes a boolean, any other text stays. */
  function RoleValueOf(text: string): (v: RoleValue)
    ensures v == RoleFlag(true) <==> text == "true"
    ensures v == RoleFlag(false) <==> text == "false"
    ensures v.RoleText? ==> v.text == text
  {
    if text == "true" || text == "false" then RoleFlag(text == "true") else RoleText(text)
  }

  /** The key of a `key=value` part: the text before its first `=`. */
  function KeyOf(part: string): string {
    Split(part, '=')[0]
  }

  /** The text `String(undefined)`: what a part without `=` gets. */
  const Undefined := "undefined"

  /** One `key=value` part: the value is the decoded text between the first
      and the second `=`; with no `=` it is the text `"undefined"`. */
  function RoleEntry(part: string): (r: Result<(string, RoleValue), Foreign>)
    ensures r.Ok? ==> r.value.0 == KeyOf(part)
    ensures '=' !in part ==> r == Ok((part, RoleText(Undefined)))
    ensures r.Err? ==> r.error == UriError
  {
    var item := Split(part, '=');
    var raw := if |item| >= 2 then item[1] else Undefined;
    assert DecodeUriComponent(Undefined) == Some(Undefined) by {
      assert '%' !in Undefined;
    }
    assert RoleValueOf(Undefined) == RoleText(Undefined) by {
      assert Undefined[0] == 'u';
    }
    match DecodeUriComponent(raw)
    case None => Err(UriError)
    case Some(text) => Ok((item[0], RoleValueOf(text)))
  }

  /** Adds the parts to `acc` in order, a later part overwriting an earlier
      one with the same key; the first part that fails to decode throws. */
  function CollectRoleParts(parts: seq<string>, acc: map<string, RoleValue>): (r: Result<map<string, RoleValue>, Foreign>)
    ensures r.Err? ==> r.error == UriError
    decreases |parts|
  {
    if parts == [] then Ok(acc)
    else
      match RoleEntry(parts[0])
      case Err(f) => Err(f)
      case Ok((k, v)) => CollectRoleParts(parts[1..], acc[k := v])
  }

  /** `role2Object(roleStr)`, as a value. */
  function Role2ObjectOf(roleStr: string): (r: Result<map<string, RoleValue>, Foreign>)
    ensures r.Err? <==> exists k :: 0 <= k < |Split(roleStr, '&')| && RoleEntry(Split(roleStr, '&')[k]).Err?
    ensures r.Ok? ==> r.value.Keys == set k | 0 <= k < |Split(roleStr, '&')| :: KeyOf(Split(roleStr, '&')[k])
  {
    var r := CollectRoleParts(Split(roleStr, '&'), map[]);
    CollectRolePartsFails(Split(roleStr, '&'), map[]);
    if r.Ok? then CollectRolePartsKeys(Split(roleStr, '&'), map[]); r else r
  }

  /** Decoding throws exactly when some part fails to decode. */
  lemma {:induction false} CollectRolePartsFails(parts: seq<string>, acc: map<string, RoleValue>)
    ensures CollectRoleParts(parts, acc).Err? <==> exists k :: 0 <= k < |parts| && RoleEntry(parts[k]).Err?
    decreases |parts|
  {
    if parts != [] {
      var entry := RoleEntry(parts[0]);
      if entry.Ok? {
        CollectRolePartsFails(parts[1..], acc[entry.value.0 := entry.value.1]);
        if exists k :: 0 <= k < |parts| && RoleEntry(parts[k]).Err? {
          var k :| 0 <= k < |parts| && RoleEntry(parts[k]).Err?;
          assert parts[1..][k - 1] == parts[k];
        }
        if exists k :: 0 <= k < |parts[1..]| && RoleEntry(parts[1..][k]).Err? {
          var k :| 0 <= k < |parts[1..]| && RoleEntry(parts[1..][k]).Err?;
          assert parts[k + 1] == parts[1..][k];
        }
      }
    }
  }

  /** `role2Object`: split on `&`, and store each part's entry in turn. */
  method Role2Object(roleStr: string) returns (r: Result<map<string, RoleValue>, Foreign>)
    ensures r == Role2ObjectOf(roleStr)
  {
    var parts := Split(roleStr, '&');
    var result: map<string, RoleValue> := map[];
    var i := 0;
    while i < |parts|
      invariant 0 <= i <= |parts|
      invariant CollectRoleParts(parts, map[]) == CollectRoleParts(parts[i..], result)
    {
      assert parts[i..][1..] == parts[i + 1..];
      var entry := RoleEntry(parts[i]);
      if entry.Err? {
        return Err(entry.error);
      }
      result := result[entry.value.0 := entry.value.1];
      i := i + 1;
    }
    assert parts[i..] == [];
    return Ok(result);
  }

  /** The keys of a decoded role object are exactly the keys of its parts. */
  lemma {:induction false} CollectRolePartsKeys(parts: seq<string>, acc: map<string, RoleValue>)
    requires CollectRoleParts(parts, acc).Ok?
    ensures CollectRoleParts(parts, acc).value.Keys == acc.Keys + set k | 0 <= k < |parts| :: KeyOf(parts[k])
    decreases |parts|
  {
    if parts != [] {
      var entry := RoleEntry(parts[0]);
      assert entry.Ok?;
      CollectRolePartsKeys(parts[1..], acc[entry.value.0 := entry.value.1]);
      var here := set k | 0 <= k < |parts| :: KeyOf(parts[k]);
      var later := set k | 0 <= k < |parts[1..]| :: KeyOf(parts[1..][k]);
      assert here == {KeyOf(parts[0])} + later by {
        forall x | x in here ensures x in {KeyOf(parts[0])} + later {
          var k :| 0 <= k < |parts| && x == KeyOf(parts[k]);
          if k > 0 { assert x == KeyOf(parts[1..][k - 1]); }
        }
        forall x | x in later ensures x in here {
          var k :| 0 <= k < |parts[1..]| && x == KeyOf(parts[1..][k]);
          assert x == KeyOf(parts[k + 1]);
        }
      }
    }
  }

  /** A key's value is the one its last part gives. */
  lemma {:induction false} CollectRolePartsLastWins(parts: seq<string>, acc: map<string, RoleValue>, j: nat)
    requires CollectRoleParts(parts, acc).Ok? && j < |parts|
    requires forall k :: j < k < |parts| ==> KeyOf(parts[k]) != KeyOf(parts[j])
    ensures RoleEntry(parts[j]).Ok?
    ensures KeyOf(parts[j]) in CollectRoleParts(parts, acc).value
    ensures CollectRoleParts(parts, acc).value[KeyOf(parts[j])] == RoleEntry(parts[j]).value.1
    decreases |parts|
  {
    var entry := RoleEntry(parts[0]);
    assert entry.Ok?;
    var acc' := acc[entry.value.0 := entry.value.1];
    if j == 0 {
      CollectRolePartsKeep(parts[1..], acc', KeyOf(parts[0]));
    } else {
      forall k | j - 1 < k < |parts[1..]| ensures KeyOf(parts[1..][k]) != KeyOf(parts[1..][j - 1]) {
        assert parts[1..][k] == parts[k + 1];
      }
      CollectRolePartsLastWins(parts[1..], acc', j - 1);
    }
  }

  /** A key no remaining part mentions keeps its accumulated value. */
  lemma {:induction false} CollectRolePartsKeep(parts: seq<string>, acc: map<string, RoleValue>, key: string)
    requires CollectRoleParts(parts, acc).Ok? && key in acc
    requires forall k :: 0 <= k < |parts| ==> KeyOf(parts[k]) != key
    ensures key in CollectRoleParts(parts, acc).value
    ensures CollectRoleParts(parts, acc).value[key] == acc[key]
    decreases |parts|
  {
    if parts != [] {
      var entry := RoleEntry(parts[0]);
      assert entry.Ok?;
      forall k | 0 <= k < |parts[1..]| ensures KeyOf(parts[1..][k]) != key {
        assert parts[1..][k] == parts[k + 1];
      }
      CollectRolePartsKeep(parts[1..], acc[entry.value.0 := entry.value.1], key);
    }
  }

  /** The entries `roles` builds from the parsed role claim's items: an
      `"admin"` item is skipped; a non-string item (whose `split` throws)
      or a part that fails to decode ends the list, because the exception
      leaves the `forEach` and is swallowed by the getter. */
  function RolesOf(items: seq<Json>): (r: seq<map<string, RoleValue>>)
    ensures |r| <= |items|
    ensures AllPlainRoles(items) ==> |r| == |items| && forall k :: 0 <= k < |items| ==> r[k] == Role2ObjectOf(items[k].s).value
    decreases |items|
  {
    if items == [] then []
    else
      var rest := RolesOf(items[1..]);
      AllPlainRolesTail(items);
      match items[0]
      case JStr(part) =>
        if part == "admin" then rest
        else
          (match Role2ObjectOf(part)
           case Ok(m) => [m] + rest
           case Err(_) => [])
      case _ => []
  }

  /** The items after the first of a list of plain roles are plain roles. */
  lemma AllPlainRolesTail(items: seq<Json>)
    requires items != []
    ensures forall k :: 1 <= k < |items| ==> items[k] == items[1..][k - 1]
    ensures AllPlainRoles(items) ==> AllPlainRoles(items[1..])
  {
  }

  /** Every item is a role string other than `"admin"` that decodes. */
  predicate AllPlainRoles(items: seq<Json>) {
    forall k :: 0 <= k < |items| ==> items[k].JStr? && items[k].s != "admin" && Role2ObjectOf(items[k].s).Ok?
  }

  /** `roles` given the role claim of the access token, parsed (None when
      decoding the token or parsing the claim throws): anything but an
      array gives no entries, because its `forEach` throws. */
  function RolesFrom(claim: Option<Json>): seq<map<string, RoleValue>> {
    match claim
    case Some(JArr(items)) => RolesOf(items)
    case _ => []
  }

  /** The `roles` getter's loop: push an entry per item, stop at the first
      exception. */
  method Roles(claim: Option<Json>) returns (result: seq<map<string, RoleValue>>)
    ensures result == RolesFrom(claim)
  {
    result := [];
    if !(claim.Some? && claim.value.JArr?) {
      return;
    }
    var items := claim.value.items;
    var i := 0;
    while i < |items|
      invariant 0 <= i <= |items|
      invariant RolesOf(items) == result + RolesOf(items[i..])
    {
      assert items[i..][1..] == items[i + 1..];
      var item := items[i];
      if !item.JStr? {
        assert RolesOf(items[i..]) == [];
        return;
      }
      if item.s != "admin" {
        var entry := Role2Object(item.s);
        if entry.Err? {
          assert RolesOf(items[i..]) == [];
          return;
        }
        assert RolesOf(items[i..]) == [entry.value] + RolesOf(items[i + 1..]);
        result := result + [entry.value];
      } else {
        assert RolesOf(items[i..]) == RolesOf(items[i + 1..]);
      }
      i := i + 1;
    }
    assert items[i..] == [];
  }

  /** Dropping an `"admin"` item anywhere in the claim changes nothing. */
  lemma {:induction false} AdminIsSkipped(before: seq<Json>, after: seq<Json>)
    ensures RolesOf(before + [JStr("admin")] + after) == RolesOf(before + after)
    decreases |before|
  {
    if before == [] {
      assert before + [JStr("admin")] + after == [JStr("admin")] + after;
      assert ([JStr("admin")] + after)[1..] == after;
      assert before + after == after;
    } else {
      assert (before + [JStr("admin")] + after)[0] == before[0] == (before + after)[0];
      assert (before + [JStr("admin")] + after)[1..] == before[1..] + [JStr("admin")] + after;
      assert (before + after)[1..] == before[1..] + after;
      AdminIsSkipped(before[1..], after);
    }
  }

  /** The value of a part is its text between the first and the second
      `=`, decoded: whatever follows a second `=` is ignored, and a
      malformed escape in the value is a URIError. */
  lemma RoleEntryOfPair(key: string, value: string, rest: string)
    requires '=' !in key && '=' !in value
    ensures RoleEntry(key + ['='] + value + ['='] + rest) == RoleEntry(key + ['='] + value)
    ensures RoleEntry(key + ['='] + value)
            == (match DecodeUriComponent(value)
                case None => Err(UriError)
                case Some(text) => Ok((key, RoleValueOf(text))))
  {
    PairPieces(key, value, rest);
    RoleEntryOfSplit(key + ['='] + value, key, value);
    RoleEntryOfSplit(key + ['='] + value + ['='] + rest, key, value);
  }

  /** The first two `=`-separated pieces of `key=value` and of
      `key=value=rest` are `key` and `value`. */
  lemma PairPieces(key: string, value: string, rest: string)
    requires '=' !in key && '=' !in value
    ensures Split(key + ['='] + value, '=') == [key, value]
    ensures var pieces := Split(key + ['='] + value + ['='] + rest, '=');
            |pieces| >= 2 && pieces[0] == key && pieces[1] == value
  {
    assert Split(key + ['='] + value, '=') == [key, value] by {
      SplitFirst(key, '=', value);
      assert Split(value, '=') == [value];
    }
    var tail := value + ['='] + rest;
    assert key + ['='] + value + ['='] + rest == key + ['='] + tail;
    var pieces := Split(key + ['='] + tail, '=');
    assert |pieces| >= 2 && pieces[0] == key && pieces[1] == value by {
      SplitFirst(key, '=', tail);
      SplitFirst(value, '=', rest);
      assert pieces == [key] + ([value] + Split(rest, '='));
    }
  }

  /** A part whose first two `=`-separated pieces are `key` and `value`. */
  lemma RoleEntryOfSplit(part: string, key: string, value: string)
    requires |Split(part, '=')| >= 2 && Split(part, '=')[0] == key && Split(part, '=')[1] == value
    ensures RoleEntry(part)
            == (match DecodeUriComponent(value)
                case None => Err(UriError)
                case Some(text) => Ok((key, RoleValueOf(text))))
  {
  }

  /** A `key=value` part with a plain value decodes to that key and value. */
  lemma RoleEntryOfPlainPair(key: string, value: string)
    requires '=' !in key && '=' !in value && '%' !in value
    ensures RoleEntry(key + ['='] + value) == Ok((key, RoleValueOf(value)))
  {
    SplitFirst(key, '=', value);
    assert Split(value, '=') == [value];
  }

  /** A role string holding one plain `key=value` pair. */
  lemma Role2ObjectOfOnePair(key: string, value: string)
    requires '=' !in key && '=' !in value && '%' !in value
    requires '&' !in key && '&' !in value
    ensures Role2ObjectOf(key + ['='] + value) == Ok(map[key := RoleValueOf(value)])
  {
    var part := key + ['='] + value;
    assert '&' !in part;
    RoleEntryOfPlainPair(key, value);
    assert CollectRoleParts([part], map[]) == CollectRoleParts([], map[key := RoleValueOf(value)]);
  }

  /** A role string joined from `&`-free parts decodes part by part. */
  lemma Role2ObjectOfJoin(parts: seq<string>)
    requires |parts| >= 1
    requires forall k :: 0 <= k < |parts| ==> '&' !in parts[k]
    ensures Role2ObjectOf(Join(parts, '&')) == CollectRoleParts(parts, map[])
  {
    SplitJoin(parts, '&');
  }

  /** A role string holding two plain pairs joined by `&`; when the keys
      are equal the second value wins. */
  lemma Role2ObjectOfTwoPairs(k1: string, v1: string, k2: string, v2: string)
    requires '=' !in k1 && '=' !in v1 && '%' !in v1 && '&' !in k1 && '&' !in v1
    requires '=' !in k2 && '=' !in v2 && '%' !in v2 && '&' !in k2 && '&' !in v2
    ensures Role2ObjectOf(k1 + ['='] + v1 + ['&'] + k2 + ['='] + v2)
         == Ok(map[k1 := RoleValueOf(v1)][k2 := RoleValueOf(v2)])
  {
    var p1, p2 := k1 + ['='] + v1, k2 + ['='] + v2;
    var parts := [p1, p2];
    assert Join(parts, '&') == p1 + ['&'] + p2 by {
      assert parts[1..] == [p2];
    }
    assert k1 + ['='] + v1 + ['&'] + k2 + ['='] + v2 == p1 + ['&'] + p2;
    Role2ObjectOfJoin(parts);
    RoleEntryOfPlainPair(k1, v1);
    RoleEntryOfPlainPair(k2, v2);
    var m1 := map[k1 := RoleValueOf(v1)];
    assert CollectRoleParts(parts, map[]) == CollectRoleParts([p2], m1) by {
      assert parts[1..] == [p2];
    }
    assert CollectRoleParts([p2], m1) == CollectRoleParts([], m1[k2 := RoleValueOf(v2)]);
  }

  /** Only an item that is exactly `"admin"` is skipped: any `key=value`
      item, `"type=admin"` among them, is decoded and kept. */
  lemma PairItemIsKept(key: string, value: string)
    requires '=' !in key && '=' !in value && '%' !in value
    requires '&' !in key && '&' !in value
    ensures RolesOf([JStr(key + ['='] + value)]) == [map[key := RoleValueOf(value)]]
  {
    var part := key + ['='] + value;
    assert part[|key|] == '=';
    assert part != "admin";
    Role2ObjectOfOnePair(key, value);
    assert [JStr(part)][1..] == [];
  }
}
