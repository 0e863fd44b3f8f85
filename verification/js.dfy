/**
 * The pieces of JavaScript value semantics that the landing page's modules
 * depend on: numbers that may be NaN, `String.prototype.trim`, `split` on a
 * one-character separator, `parseInt`, string-to-number coercion, the `%`
 * operator, and the insertion-ordered property list of a plain object.
 */
module Js {

  datatype Option<+T> = None | Some(value: T)

  /** A JavaScript number as the page uses it: an integer, or NaN. */
  datatype Number = Int(i: int) | NaN {
    /** JavaScript truthiness of a number: NaN and 0 are falsy. */
    predicate Truthy() { Int? && i != 0 }

    /** `x < y`; every comparison with NaN is false. */
    predicate Lt(y: int) { Int? && i < y }

    /** `x >= y` */
    predicate Ge(y: int) { Int? && i >= y }

    /** `x + y` */
    function Plus(y: int): Number {
      match this
      case Int(x) => Int(x + y)
      case NaN => NaN
    }
  }

  // ---------------------------------------------------------------------
  // Whitespace and trim

  /**
   * ECMAScript WhiteSpace or LineTerminator: the code points that `trim`
   * removes and that `\s` matches in a regular expression.
   */
  predicate IsWhiteSpace(c: char) {
    var n := c as int;
    n == 0x09 || n == 0x0A || n == 0x0B || n == 0x0C || n == 0x0D || n == 0x20
    || n == 0xA0 || n == 0x1680 || (0x2000 <= n <= 0x200A) || n == 0x2028
    || n == 0x2029 || n == 0x202F || n == 0x205F || n == 0x3000 || n == 0xFEFF
  }

  predicate AllWhiteSpace(s: string) {
    forall i :: 0 <= i < |s| ==> IsWhiteSpace(s[i])
  }

  /** Drops leading whitespace. */
  function TrimStart(s: string): (r: string)
    ensures |r| <= |s| && r == s[|s| - |r|..]
    ensures r != [] ==> !IsWhiteSpace(r[0])
    ensures AllWhiteSpace(s[..|s| - |r|])
  {
    if s != [] && IsWhiteSpace(s[0]) then TrimStart(s[1..]) else s
  }

  /** Drops trailing whitespace. */
  function TrimEnd(s: string): (r: string)
    ensures |r| <= |s| && r == s[..|r|]
    ensures r != [] ==> !IsWhiteSpace(r[|r| - 1])
    ensures AllWhiteSpace(s[|r|..])
  {
    if s != [] && IsWhiteSpace(s[|s| - 1]) then TrimEnd(s[..|s| - 1]) else s
  }

  /** `s.trim()` */
  function Trim(s: string): string {
    TrimEnd(TrimStart(s))
  }

  /** `s.trim()` is empty exactly when every character of `s` is whitespace. */
  lemma TrimEmptyIff(s: string)
    ensures Trim(s) == [] <==> AllWhiteSpace(s)
  {
    var t := TrimStart(s);
    if Trim(s) == [] {
      assert AllWhiteSpace(t[0..]);
      assert t == [];
      assert s[..|s|] == s;
    }
    if AllWhiteSpace(s) {
      TrimStartAllWhiteSpace(s);
    }
  }

  lemma {:induction false} TrimStartAllWhiteSpace(s: string)
    requires AllWhiteSpace(s)
    ensures TrimStart(s) == []
  {
    if s != [] {
      assert IsWhiteSpace(s[0]);
      TrimStartAllWhiteSpace(s[1..]);
    }
  }

  // ---------------------------------------------------------------------
  // UTF-16 length

  /**
   * `s.length`: JavaScript counts UTF-16 code units, so a code point above
   * U+FFFF counts twice.
   */
  function Utf16Length(s: string): (n: nat)
    ensures |s| <= n <= 2 * |s|
  {
    if s == [] then 0
    else (if s[0] as int >= 0x10000 then 2 else 1) + Utf16Length(s[1..])
  }

  // ---------------------------------------------------------------------
  // split on a one-character separator

  /** Index of the first occurrence of `c` in `s`. */
  function IndexOf<T(==)>(s: seq<T>, c: T): (i: nat)
    requires c in s
    ensures i < |s| && s[i] == c && c !in s[..i]
  {
    if s[0] == c then 0 else 1 + IndexOf(s[1..], c)
  }

  /** The first occurrence is the one with no earlier occurrence. */
  lemma {:induction false} IndexOfAt<T>(s: seq<T>, c: T, j: nat)
    requires j < |s| && s[j] == c && c !in s[..j]
    ensures c in s && IndexOf(s, c) == j
  {
    if j > 0 {
      assert s[..j][0] == s[0];
      assert s[1..][..j - 1] == s[..j][1..];
      IndexOfAt(s[1..], c, j - 1);
    }
  }

  /**
   * `s.split(sep)` for a one-character separator: the maximal pieces between
   * separators, empty pieces included (so `"".split(",")` is `[""]`).
   */
  function Split(s: string, sep: char): (parts: seq<string>)
    ensures |parts| >= 1
    ensures forall p :: p in parts ==> sep !in p
    decreases |s|
  {
    if sep !in s then [s]
    else
      var i := IndexOf(s, sep);
      [s[..i]] + Split(s[i + 1..], sep)
  }

  /** `parts.join(sep)` */
  function Join(parts: seq<string>, sep: char): string
    requires |parts| >= 1
  {
    if |parts| == 1 then parts[0] else parts[0] + [sep] + Join(parts[1..], sep)
  }

  /** Joining the pieces with the separator gives back the original string. */
  lemma {:induction false} JoinSplit(s: string, sep: char)
    ensures Join(Split(s, sep), sep) == s
    decreases |s|
  {
    if sep in s {
      var i := IndexOf(s, sep);
      JoinSplit(s[i + 1..], sep);
      assert s == s[..i] + [sep] + s[i + 1..];
    }
  }

  /** Splitting a join of separator-free pieces gives back the pieces. */
  lemma {:induction false} SplitJoin(parts: seq<string>, sep: char)
    requires |parts| >= 1
    requires forall p :: p in parts ==> sep !in p
    ensures Split(Join(parts, sep), sep) == parts
  {
    if |parts| > 1 {
      var rest := Join(parts[1..], sep);
      assert Join(parts, sep) == parts[0] + [sep] + rest;
      assert parts[0] in parts;
      SplitAt(parts[0], sep, rest);
      assert forall p :: p in parts[1..] ==> p in parts;
      SplitJoin(parts[1..], sep);
    }
  }

  /** A separator-free piece, the separator, then the rest: the piece is the first part. */
  lemma SplitAt(piece: string, sep: char, rest: string)
    requires sep !in piece
    ensures Split(piece + [sep] + rest, sep) == [piece] + Split(rest, sep)
  {
    var s := piece + [sep] + rest;
    assert s[|piece|] == sep;
    assert s[..|piece|] == piece;
    IndexOfAt(s, sep, |piece|);
    assert s[|piece| + 1..] == rest;
  }

  // ---------------------------------------------------------------------
  // Numbers

  predicate IsDecimalDigit(c: char) { '0' <= c <= '9' }

  predicate IsHexDigit(c: char) {
    IsDecimalDigit(c) || 'a' <= c <= 'f' || 'A' <= c <= 'F'
  }

  function DigitValue(c: char): (d: nat)
    requires IsHexDigit(c)
    ensures d < 16
    ensures IsDecimalDigit(c) ==> d < 10
  {
    if IsDecimalDigit(c) then c as int - '0' as int
    else if 'a' <= c <= 'f' then c as int - 'a' as int + 10
    else c as int - 'A' as int + 10
  }

  predicate IsDigitOf(c: char, radix: nat) {
    if radix == 16 then IsHexDigit(c) else IsDecimalDigit(c)
  }

  /** Length of the longest prefix of `s` made of digits of `radix`. */
  function DigitRun(s: string, radix: nat): (k: nat)
    ensures k <= |s|
    ensures forall i :: 0 <= i < k ==> IsDigitOf(s[i], radix)
    ensures k < |s| ==> !IsDigitOf(s[k], radix)
  {
    if s != [] && IsDigitOf(s[0], radix) then 1 + DigitRun(s[1..], radix) else 0
  }

  /** The value of a string of digits in `radix`, most significant first. */
  function DigitsValue(ds: string, radix: nat): nat
    requires radix == 10 || radix == 16
    requires forall i :: 0 <= i < |ds| ==> IsDigitOf(ds[i], radix)
  {
    if ds == [] then 0
    else
      var last := ds[|ds| - 1];
      assert IsDigitOf(last, radix) && IsHexDigit(last);
      DigitsValue(ds[..|ds| - 1], radix) * radix + DigitValue(last)
  }

  /**
   * `parseInt(x)` with no radix, where `x` is an attribute value and `None`
   * stands for a missing attribute (`parseInt(null)` reads the string "null").
   * Leading whitespace and one sign are skipped, a `0x`/`0X` prefix selects
   * base 16, and the longest run of digits is read; no digits gives NaN.
   */
  function ParseInt(x: Option<string>): (r: Number)
    ensures x.None? ==> r == NaN
  {
    match x
    case None => NaN
    case Some(raw) => ParseSigned(TrimStart(raw))
  }

  /** `parseInt` after the leading whitespace: one optional sign, then the digits. */
  function ParseSigned(s: string): Number {
    var negative := s != [] && s[0] == '-';
    var unsigned := if s != [] && (s[0] == '-' || s[0] == '+') then s[1..] else s;
    match ParseUnsigned(unsigned)
    case NaN => NaN
    case Int(v) => Int(if negative then -v else v)
  }

  /** `parseInt` of the part after the sign: a `0x`/`0X` prefix selects base 16, then the longest digit run. */
  function ParseUnsigned(unsigned: string): (r: Number)
    ensures r.Int? ==> r.i >= 0
  {
    var hex := |unsigned| >= 2 && unsigned[0] == '0' && (unsigned[1] == 'x' || unsigned[1] == 'X');
    var radix := if hex then 16 else 10;
    var body := if hex then unsigned[2..] else unsigned;
    var k := DigitRun(body, radix);
    if k == 0 then NaN else Int(DigitsValue(body[..k], radix))
  }

  /**
   * `Number(s)` (the coercion a relational comparison applies to a string
   * operand), for the forms the page's attributes use: surrounding
   * whitespace is ignored, the empty string is 0, and an optionally signed
   * run of decimal digits is its value; anything else is NaN here.
   */
  function StringToNumber(s: string): (r: Number)
    ensures Trim(s) == [] ==> r == Int(0)
  {
    var t := Trim(s);
    if t == [] then Int(0)
    else
      var negative := t[0] == '-';
      var digits := if t[0] == '-' || t[0] == '+' then t[1..] else t;
      if digits != [] && DigitRun(digits, 10) == |digits| then
        var v: int := DigitsValue(digits, 10);
        Int(if negative then -v else v)
      else NaN
  }

  /** Decimal rendering of a natural number. */
  function NatToString(n: nat): (s: string)
    ensures |s| >= 1
    ensures forall i :: 0 <= i < |s| ==> IsDecimalDigit(s[i])
  {
    var d := ['0' + (n % 10) as char];
    if n < 10 then d else NatToString(n / 10) + d
  }

  /** `String(n)` for an integer. */
  function IntToString(n: int): string {
    if n < 0 then "-" + NatToString(-n) else NatToString(n)
  }

  /** Reading back a rendered natural number gives the number. */
  lemma {:induction false} DigitsValueOfNatToString(n: nat)
    ensures DigitsValue(NatToString(n), 10) == n
  {
    var s := NatToString(n);
    if n >= 10 {
      DigitsValueOfNatToString(n / 10);
      assert s[..|s| - 1] == NatToString(n / 10);
    }
  }

  /** `Number.MAX_SAFE_INTEGER`: beyond it a number no longer holds every integer exactly. */
  const MaxSafeInteger: int := 0x1F_FFFF_FFFF_FFFF

  /**
   * `parseInt(String(n))` is `n` for every safe integer `n`. Larger numbers
   * are not exact, and from 1e21 on `String` writes an exponent.
   */
  lemma ParseIntOfString(n: int)
    requires -MaxSafeInteger <= n <= MaxSafeInteger
    ensures ParseInt(Some(IntToString(n))) == Int(n)
  {
    var m: nat := if n < 0 then -n else n;
    var sign := if n < 0 then "-" else "";
    assert IntToString(n) == sign + NatToString(m);
    ParseSignedDigits(sign, m);
    TrimStartKeeps(sign + NatToString(m));
  }

  /** A string starting with a character other than whitespace is its own `trimStart`. */
  lemma TrimStartKeeps(s: string)
    requires s != [] && !IsWhiteSpace(s[0])
    ensures TrimStart(s) == s
  {
  }

  /** An optional minus sign and the decimal rendering of `m` parse as the signed `m`. */
  lemma ParseSignedDigits(sign: string, m: nat)
    requires sign == "" || sign == "-"
    ensures var s := sign + NatToString(m);
            s != [] && !IsWhiteSpace(s[0]) && ParseSigned(s) == Int(if sign == "-" then -(m as int) else m)
  {
    var digits := NatToString(m);
    var s := sign + digits;
    assert IsDecimalDigit(digits[0]);
    assert s[0] == (if sign == "-" then '-' else digits[0]);
    ParseUnsignedDigits(m);
    if sign == "-" {
      assert s[1..] == digits;
    } else {
      assert s == digits;
    }
  }

  /** The decimal rendering of `m` reads back as `m`. */
  lemma ParseUnsignedDigits(m: nat)
    ensures ParseUnsigned(NatToString(m)) == Int(m)
  {
    var digits := NatToString(m);
    assert !(|digits| >= 2 && (digits[1] == 'x' || digits[1] == 'X')) by {
      if |digits| >= 2 { assert IsDecimalDigit(digits[1]); }
    }
    DigitRunAll(digits);
    assert digits[..|digits|] == digits;
    DigitsValueOfNatToString(m);
  }

  lemma {:induction false} DigitRunAll(s: string)
    requires forall i :: 0 <= i < |s| ==> IsDecimalDigit(s[i])
    ensures DigitRun(s, 10) == |s|
  {
    if s != [] {
      DigitRunAll(s[1..]);
    }
  }

  /** `String(x)` for a number. */
  function NumberToString(x: Number): string {
    match x
    case Int(i) => IntToString(i)
    case NaN => "NaN"
  }

  /** `String(b)` for a boolean. */
  function BoolToString(b: bool): string {
    if b then "true" else "false"
  }

  /** Euclidean remainder is determined by any quotient/remainder pair with `0 <= r < n`. */
  lemma ModUnique(a: int, q: int, r: int, n: int)
    requires n > 0 && 0 <= r < n && a == q * n + r
    ensures a % n == r
  {
    var d := q - a / n;
    assert d * n == a % n - r;
    MulAwayFromZero(d, n);
  }

  lemma MulAwayFromZero(d: int, n: int)
    requires n > 0
    ensures d >= 1 ==> d * n >= n
    ensures d <= -1 ==> d * n <= -n
  {
  }

  /**
   * JavaScript's `a % n`: the result takes the sign of the dividend
   * (truncated division), and a zero divisor gives NaN.
   */
  function Rem(a: int, n: int): (r: Number)
    ensures n == 0 <==> r == NaN
    ensures r.Int? && a >= 0 && n > 0 ==> r.i == a % n
    ensures r.Int? && n != 0 ==> -(if n < 0 then -n else n) < r.i < (if n < 0 then -n else n)
    ensures r.Int? && r.i < 0 ==> a < 0
  {
    if n == 0 then NaN
    else
      var m := if n < 0 then -n else n;
      var q := (if a < 0 then -a else a) % m;
      Int(if a < 0 then -q else q)
  }

  // ---------------------------------------------------------------------
  // The own properties of a plain object, in insertion order

  /** The entries of a plain object, in the order `Object.entries` gives. */
  type Entries<V> = seq<(string, V)>

  /** No property name occurs twice, as in every JavaScript object. */
  predicate UniqueKeys<V>(e: Entries<V>) {
    e == [] || (e[0].0 !in KeySet(e[1..]) && UniqueKeys(e[1..]))
  }

  function KeySet<V>(e: Entries<V>): set<string> {
    if e == [] then {} else {e[0].0} + KeySet(e[1..])
  }

  function Lookup<V>(e: Entries<V>, key: string): Option<V> {
    if e == [] then None
    else if e[0].0 == key then Some(e[0].1)
    else Lookup(e[1..], key)
  }

  /**
   * `obj[key] = value`: an existing property keeps its place and takes the
   * new value; a new property goes to the end.
   */
  function SetEntry<V>(e: Entries<V>, key: string, value: V): (r: Entries<V>)
    ensures Lookup(r, key) == Some(value)
    ensures KeySet(r) == KeySet(e) + {key}
    ensures key !in KeySet(e) ==> r == e + [(key, value)]
    ensures key in KeySet(e) ==> |r| == |e|
  {
    if e == [] then [(key, value)]
    else if e[0].0 == key then [(key, value)] + e[1..]
    else
      var rest := SetEntry(e[1..], key, value);
      var r := [e[0]] + rest;
      assert r[1..] == rest;
      r
  }

  /**
   * Setting one property leaves every other property's value alone and
   * keeps every property in its place.
   */
  lemma {:induction false} SetEntryFacts<V>(e: Entries<V>, key: string, value: V)
    ensures forall k :: k != key ==> Lookup(SetEntry(e, key, value), k) == Lookup(e, k)
    ensures |SetEntry(e, key, value)| >= |e|
    ensures forall i :: 0 <= i < |e| ==> SetEntry(e, key, value)[i].0 == e[i].0
    ensures forall i :: 0 <= i < |e| && e[i].0 != key ==> SetEntry(e, key, value)[i] == e[i]
    ensures forall i :: 0 <= i < |e| ==> SetEntry(e, key, value)[i].1 in {e[i].1, value}
    ensures UniqueKeys(e) ==> UniqueKeys(SetEntry(e, key, value))
  {
    var r := SetEntry(e, key, value);
    if e != [] && e[0].0 != key {
      SetEntryFacts(e[1..], key, value);
      assert r[1..] == SetEntry(e[1..], key, value);
      assert forall i :: 1 <= i < |e| ==> r[i] == r[1..][i - 1] && e[i] == e[1..][i - 1];
    } else if e != [] {
      assert r[1..] == e[1..];
    }
  }

  lemma LookupNoneIff<V>(e: Entries<V>, key: string)
    ensures Lookup(e, key).None? <==> key !in KeySet(e)
  {
  }

  /**
   * `{...e, ...added}` and `Object.assign(e, added)`: the properties of
   * `added` are set one after the other, in order.
   */
  function Assign<V>(e: Entries<V>, added: Entries<V>): (r: Entries<V>)
    ensures KeySet(r) == KeySet(e) + KeySet(added)
    decreases |added|
  {
    if added == [] then e
    else Assign(SetEntry(e, added[0].0, added[0].1), added[1..])
  }

  /**
   * After `Assign`, a property of `added` has its value from `added`, any
   * other keeps its old value, the original properties keep their places,
   * and a value at such a place is the old one or one of `added`.
   */
  lemma {:induction false} AssignFacts<V>(e: Entries<V>, added: Entries<V>)
    ensures |Assign(e, added)| >= |e|
    ensures forall k :: k !in KeySet(added) ==> Lookup(Assign(e, added), k) == Lookup(e, k)
    ensures UniqueKeys(added) ==> forall k :: k in KeySet(added) ==> Lookup(Assign(e, added), k) == Lookup(added, k)
    ensures forall i :: 0 <= i < |e| ==> Assign(e, added)[i].0 == e[i].0
    ensures forall i :: 0 <= i < |e| && e[i].0 !in KeySet(added) ==> Assign(e, added)[i] == e[i]
    ensures forall i :: 0 <= i < |e| ==>
              (Assign(e, added)[i].1 == e[i].1 || exists j :: 0 <= j < |added| && Assign(e, added)[i].1 == added[j].1)
    ensures UniqueKeys(e) ==> UniqueKeys(Assign(e, added))
    decreases |added|
  {
    if added != [] {
      var key, value := added[0].0, added[0].1;
      var e1 := SetEntry(e, key, value);
      SetEntryFacts(e, key, value);
      AssignFacts(e1, added[1..]);
      var r := Assign(e, added);
      assert r == Assign(e1, added[1..]);
      assert forall j :: 0 <= j < |added[1..]| ==> added[1..][j] == added[j + 1];
      forall i | 0 <= i < |e|
        ensures r[i].1 == e[i].1 || exists j :: 0 <= j < |added| && r[i].1 == added[j].1
      {
        if r[i].1 != e1[i].1 {
          var j :| 0 <= j < |added[1..]| && r[i].1 == added[1..][j].1;
          assert r[i].1 == added[j + 1].1;
        } else if e1[i].1 != e[i].1 {
          assert r[i].1 == added[0].1;
        }
      }
    }
  }

  /** In an object, the property at position `i` is what a lookup of its name finds. */
  lemma {:induction false} LookupAt<V>(e: Entries<V>, i: nat)
    requires UniqueKeys(e) && i < |e|
    ensures Lookup(e, e[i].0) == Some(e[i].1)
  {
    if i > 0 {
      LookupAt(e[1..], i - 1);
      KeySetMembers(e[1..], i - 1);
    }
  }

  lemma {:induction false} KeySetMembers<V>(e: Entries<V>, i: nat)
    requires i < |e|
    ensures e[i].0 in KeySet(e)
  {
    if i > 0 {
      KeySetMembers(e[1..], i - 1);
    }
  }
}
