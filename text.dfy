/** String helpers shared by the browser client and the backend: prefix and
    substring tests, splitting on one separator character (JavaScript's and
    Python's `split` agree for a one-character separator), lowercase hex and
    decimal text. */
module Text {
  import opened Wrappers

  type byte = b: int | 0 <= b < 256

  /** `s.startsWith(prefix)`: case-sensitive, character by character. */
  predicate StartsWith(s: string, prefix: string) {
    |prefix| <= |s| && forall i :: 0 <= i < |prefix| ==> s[i] == prefix[i]
  }

  /** `t` occurs in `s` starting at position `i`. */
  predicate OccursAt(s: string, t: string, i: int) {
    0 <= i && i + |t| <= |s| && s[i..i + |t|] == t
  }

  /** `s.includes(t)` in JavaScript, `t in s` in Python. */
  predicate Contains(s: string, t: string) {
    exists i :: 0 <= i <= |s| - |t| && OccursAt(s, t, i)
  }

  /** Position of the first occurrence of `c` in `s`. */
  function IndexOf(s: string, c: char): (i: nat)
    requires c in s
    ensures i < |s| && s[i] == c
    ensures forall j :: 0 <= j < i ==> s[j] != c
  {
    if s[0] == c then 0 else IndexOf(s[1..], c) + 1
  }

  /** The first occurrence of `c` in `a + [c] + b` is right after `a` when `a`
      does not contain `c`. */
  lemma IndexOfAfter(a: string, c: char, b: string)
    requires c !in a
    ensures c in a + [c] + b && IndexOf(a + [c] + b, c) == |a|
  {
    var s := a + [c] + b;
    assert s[|a|] == c;
    var i := IndexOf(s, c);
    assert forall j :: 0 <= j < |a| ==> s[j] == a[j];
  }

  /** `s.split(sep)` for a one-character separator: the pieces between the
      separators, in order; the empty string gives `[""]`. */
  function Split(s: string, sep: char): (parts: seq<string>)
    ensures |parts| >= 1
    ensures forall k :: 0 <= k < |parts| ==> sep !in parts[k]
    decreases |s|
  {
    if sep !in s then [s]
    else
      var i := IndexOf(s, sep);
      [s[..i]] + Split(s[i + 1..], sep)
  }

  /** Splitting cuts at the first separator. */
  lemma SplitFirst(a: string, c: char, b: string)
    requires c !in a
    ensures Split(a + [c] + b, c) == [a] + Split(b, c)
  {
    IndexOfAfter(a, c, b);
    var s := a + [c] + b;
    assert s[..|a|] == a && s[|a| + 1..] == b;
  }

  /** `parts.join(sep)`, the inverse of `Split`. */
  function Join(parts: seq<string>, sep: char): string
    requires |parts| >= 1
  {
    if |parts| == 1 then parts[0] else parts[0] + [sep] + Join(parts[1..], sep)
  }

  /** Splitting loses nothing: joining the pieces gives the string back. */
  lemma {:induction false} JoinSplit(s: string, sep: char)
    ensures Join(Split(s, sep), sep) == s
    decreases |s|
  {
    if sep in s {
      var i := IndexOf(s, sep);
      var parts := Split(s, sep);
      assert parts == [s[..i]] + Split(s[i + 1..], sep);
      assert parts[0] == s[..i] && parts[1..] == Split(s[i + 1..], sep);
      JoinSplit(s[i + 1..], sep);
      calc {
        Join(parts, sep);
        parts[0] + [sep] + Join(parts[1..], sep);
        s[..i] + [sep] + s[i + 1..];
        s;
      }
    }
  }

  /** Pieces free of the separator are exactly what splitting their join
      gives back. */
  lemma {:induction false} SplitJoin(parts: seq<string>, sep: char)
    requires |parts| >= 1
    requires forall k :: 0 <= k < |parts| ==> sep !in parts[k]
    ensures Split(Join(parts, sep), sep) == parts
    decreases |parts|
  {
    if |parts| > 1 {
      var tail := parts[1..];
      assert forall k :: 0 <= k < |tail| ==> tail[k] == parts[k + 1];
      SplitJoin(tail, sep);
      SplitFirst(parts[0], sep, Join(tail, sep));
      assert parts == [parts[0]] + tail;
    }
  }

  // ---------------------------------------------------------------- hex

  const HexDigits := "0123456789abcdef"

  predicate IsLowerHex(c: char) {
    c in HexDigits
  }

  /** `n.toString(16)`: lowercase hex without leading zeros. */
  function ToHex(n: nat): (r: string)
    ensures 1 <= |r|
    ensures n < 16 <==> |r| == 1
    decreases n
  {
    if n < 16 then [HexDigits[n]] else ToHex(n / 16) + [HexDigits[n % 16]]
  }

  /** `s.padStart(width, fill)` for a one-character fill. */
  function PadStart(s: string, width: nat, fill: char): string {
    if |s| >= width then s else seq(width - |s|, _ => fill) + s
  }

  /** One byte as `x.toString(16).padStart(2, '0')`: always two lowercase
      digits, high nibble first. */
  function ByteToHex(b: byte): (r: string)
    ensures r == [HexDigits[b / 16], HexDigits[b % 16]]
  {
    if b < 16 then
      assert ToHex(b) == [HexDigits[b]] && b / 16 == 0 && b % 16 == b;
      assert seq(1, _ => '0') == [HexDigits[0]];
      PadStart(ToHex(b), 2, '0')
    else
      assert ToHex(b / 16) == [HexDigits[b / 16]];
      PadStart(ToHex(b), 2, '0')
  }

  /** `buf2hex`: the bytes as lowercase hex, two digits per byte, joined. */
  function Buf2Hex(bytes: seq<byte>): (r: string)
    ensures |r| == 2 * |bytes|
    ensures forall i :: 0 <= i < |bytes| ==>
              r[2 * i] == HexDigits[bytes[i] / 16] && r[2 * i + 1] == HexDigits[bytes[i] % 16]
  {
    if bytes == [] then ""
    else
      var head := ByteToHex(bytes[0]);
      var tail := Buf2Hex(bytes[1..]);
      assert forall i :: 1 <= i < |bytes| ==> bytes[i] == bytes[1..][i - 1];
      head + tail
  }

  /** Every character of a `buf2hex` string is a lowercase hex digit. */
  lemma Buf2HexIsLowerHex(bytes: seq<byte>)
    ensures forall k :: 0 <= k < |Buf2Hex(bytes)| ==> IsLowerHex(Buf2Hex(bytes)[k])
  {
    var r := Buf2Hex(bytes);
    forall k | 0 <= k < |r| ensures IsLowerHex(r[k]) {
      var i := k / 2;
      assert k == 2 * i || k == 2 * i + 1;
      assert HexDigits[bytes[i] / 16] in HexDigits && HexDigits[bytes[i] % 16] in HexDigits;
    }
  }

  lemma HexDigitsDistinct(j: nat, k: nat)
    requires j < 16 && k < 16 && HexDigits[j] == HexDigits[k]
    ensures j == k
  {
  }

  /** `buf2hex` keeps every bit of its input: different byte strings give
      different hex strings. */
  lemma Buf2HexInjective(a: seq<byte>, b: seq<byte>)
    requires Buf2Hex(a) == Buf2Hex(b)
    ensures a == b
  {
    assert |a| == |b|;
    forall i | 0 <= i < |a| ensures a[i] == b[i] {
      HexDigitsDistinct(a[i] / 16, b[i] / 16);
      HexDigitsDistinct(a[i] % 16, b[i] % 16);
    }
  }

  // ---------------------------------------------------------------- decimal

  predicate IsDigit(c: char) {
    '0' <= c <= '9'
  }

  predicate AllDigits(s: string) {
    forall k :: 0 <= k < |s| ==> IsDigit(s[k])
  }

  function DigitChar(d: nat): (c: char)
    requires d < 10
    ensures IsDigit(c)
  {
    "0123456789"[d]
  }

  lemma DigitCharValue(d: nat)
    requires d < 10
    ensures DigitChar(d) as int - '0' as int == d
  {
  }

  /** Decimal text of a natural number, without leading zeros. */
  function NatToString(n: nat): (r: string)
    ensures 1 <= |r| && AllDigits(r)
    decreases n
  {
    if n < 10 then [DigitChar(n)] else NatToString(n / 10) + [DigitChar(n % 10)]
  }

  /** Decimal text of an integer: `String(n)` in JavaScript, `str(n)` in Python. */
  function IntToString(n: int): string {
    if n < 0 then "-" + NatToString(-n) else NatToString(n)
  }

  /** The value of a run of decimal digits. */
  function DigitsValue(s: string): nat
    requires AllDigits(s)
  {
    if s == [] then 0
    else DigitsValue(s[..|s| - 1]) * 10 + (s[|s| - 1] as int - '0' as int)
  }

  lemma {:induction false} DigitsValueOfNatToString(n: nat)
    ensures DigitsValue(NatToString(n)) == n
    decreases n
  {
    var s := NatToString(n);
    DigitCharValue(n % 10);
    if n >= 10 {
      DigitsValueOfNatToString(n / 10);
      assert s == NatToString(n / 10) + [DigitChar(n % 10)];
      assert s[..|s| - 1] == NatToString(n / 10);
    }
  }

  /** Length of the run of digits at the start of `s`. */
  function DigitRun(s: string): (k: nat)
    ensures k <= |s| && AllDigits(s[..k])
    ensures k < |s| ==> !IsDigit(s[k])
  {
    if s != [] && IsDigit(s[0]) then
      var k := 1 + DigitRun(s[1..]);
      assert s[..k] == [s[0]] + s[1..][..k - 1];
      k
    else 0
  }

  lemma {:induction false} DigitRunOfDigits(d: string, t: string)
    requires AllDigits(d)
    requires t == [] || !IsDigit(t[0])
    ensures DigitRun(d + t) == |d|
    decreases |d|
  {
    if d != [] {
      assert (d + t)[1..] == d[1..] + t;
      DigitRunOfDigits(d[1..], t);
    } else {
      assert d + t == t;
    }
  }

  // ---------------------------------------------------------------- parseInt

  /** The characters JavaScript's `parseInt` skips at the start of its
      argument (white space and line terminators). */
  predicate IsJsSpace(c: char) {
    var n := c as int;
    (9 <= n <= 13) || n == 0x20 || n == 0xA0 || n == 0x1680 || (0x2000 <= n <= 0x200A)
    || n == 0x2028 || n == 0x2029 || n == 0x202F || n == 0x205F || n == 0x3000 || n == 0xFEFF
  }

  function TrimStart(s: string): (t: string)
    ensures t == [] || !IsJsSpace(t[0])
    ensures |t| <= |s| && t == s[|s| - |t|..]
  {
    if s != [] && IsJsSpace(s[0]) then TrimStart(s[1..]) else s
  }

  /** The value of the longest run of decimal digits at the start of `u`;
      None when there is none. */
  function LeadingDigits(u: string): Option<nat> {
    var k := DigitRun(u);
    if k == 0 then None else Some(DigitsValue(u[..k]))
  }

  /** An optional sign, then the leading digits. */
  function SignedDigits(t: string): Option<int> {
    if t != [] && t[0] == '-' then
      match LeadingDigits(t[1..])
      case None => None
      case Some(v) => Some(-(v as int))
    else if t != [] && t[0] == '+' then
      match LeadingDigits(t[1..])
      case None => None
      case Some(v) => Some(v)
    else
      match LeadingDigits(t)
      case None => None
      case Some(v) => Some(v)
  }

  /** `parseInt(s, 10)`: optional white space and sign, then the longest run
      of decimal digits; NaN (None) when there is no digit. */
  function ParseInt(s: string): (r: Option<int>)
    ensures var t := TrimStart(s);
            var u := if t != [] && (t[0] == '-' || t[0] == '+') then t[1..] else t;
            r.None? <==> u == [] || !IsDigit(u[0])
    ensures r.Some? && r.value < 0 ==> TrimStart(s)[0] == '-'
  {
    SignedDigits(TrimStart(s))
  }

  /** Text that does not start with white space is not trimmed. */
  lemma TrimStartKeeps(s: string)
    requires s != [] && !IsJsSpace(s[0])
    ensures TrimStart(s) == s
  {
  }

  /** The leading digits of a run of digits followed by other text. */
  lemma LeadingDigitsOfDigits(d: string, t: string)
    requires d != [] && AllDigits(d) && (t == [] || !IsDigit(t[0]))
    ensures LeadingDigits(d + t) == Some(DigitsValue(d))
  {
    DigitRunOfDigits(d, t);
    assert (d + t)[..|d|] == d;
  }

  /** Text that does not start with white space is parsed as it stands. */
  lemma ParseIntUntrimmed(s: string)
    requires s != [] && !IsJsSpace(s[0])
    ensures ParseInt(s) == SignedDigits(s)
  {
    TrimStartKeeps(s);
  }

  /** `parseInt` of a minus sign followed by text with leading digits. */
  lemma ParseIntMinus(x: string, v: nat)
    requires LeadingDigits(x) == Some(v)
    ensures ParseInt(['-'] + x) == Some(-(v as int))
  {
    var s := ['-'] + x;
    assert s[0] == '-';
    ParseIntUntrimmed(s);
    assert s[1..] == x;
  }

  /** `parseInt` of text that starts with a digit. */
  lemma ParseIntUnsigned(x: string, v: nat)
    requires x != [] && IsDigit(x[0]) && LeadingDigits(x) == Some(v)
    ensures ParseInt(x) == Some(v as int)
  {
    ParseIntUntrimmed(x);
  }

  /** `parseInt` of a run of digits followed by other text. */
  lemma ParseIntOfDigits(d: string, t: string)
    requires d != [] && AllDigits(d) && (t == [] || !IsDigit(t[0]))
    ensures ParseInt(d + t) == Some(DigitsValue(d))
  {
    LeadingDigitsOfDigits(d, t);
    assert (d + t)[0] == d[0];
    ParseIntUnsigned(d + t, DigitsValue(d));
  }

  /** `parseInt` of a minus sign, a run of digits and other text. */
  lemma ParseIntOfMinusDigits(d: string, t: string)
    requires d != [] && AllDigits(d) && (t == [] || !IsDigit(t[0]))
    ensures ParseInt(['-'] + (d + t)) == Some(-(DigitsValue(d) as int))
  {
    LeadingDigitsOfDigits(d, t);
    ParseIntMinus(d + t, DigitsValue(d));
  }

  lemma ParseIntOfMinusNat(m: nat, t: string)
    requires t == [] || !IsDigit(t[0])
    ensures ParseInt(['-'] + (NatToString(m) + t)) == Some(-(m as int))
  {
    DigitsValueOfNatToString(m);
    ParseIntOfMinusDigits(NatToString(m), t);
  }

  lemma ParseIntOfNat(m: nat, t: string)
    requires t == [] || !IsDigit(t[0])
    ensures ParseInt(NatToString(m) + t) == Some(m)
  {
    DigitsValueOfNatToString(m);
    ParseIntOfDigits(NatToString(m), t);
  }

  lemma IntToStringNegative(n: int, t: string)
    requires n < 0
    ensures IntToString(n) + t == ['-'] + (NatToString(-n) + t)
  {
  }

  lemma ParseIntOfNegative(n: int, t: string)
    requires n < 0 && (t == [] || !IsDigit(t[0]))
    ensures ParseInt(IntToString(n) + t) == Some(n)
  {
    var m: nat := -n;
    var x := NatToString(m) + t;
    var s := IntToString(n) + t;
    assert s == ['-'] + x by { IntToStringNegative(n, t); }
    ParseIntOfMinusNat(m, t);
    assert ParseInt(['-'] + x) == Some(n);
  }

  lemma ParseIntOfNonNegative(n: nat, t: string)
    requires t == [] || !IsDigit(t[0])
    ensures ParseInt(IntToString(n) + t) == Some(n)
  {
    var s := IntToString(n) + t;
    assert s == NatToString(n) + t;
    ParseIntOfNat(n, t);
  }

  /** `parseInt` reads back any integer printed in decimal, and stops at the
      first character that is not a digit. */
  lemma ParseIntOfIntToString(n: int, t: string)
    requires t == [] || !IsDigit(t[0])
    ensures ParseInt(IntToString(n) + t) == Some(n)
  {
    if n < 0 {
      ParseIntOfNegative(n, t);
    } else {
      ParseIntOfNonNegative(n, t);
    }
  }
}
