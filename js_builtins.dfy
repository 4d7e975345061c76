/** The few ECMAScript string and number built-ins the front end relies on,
    stated over Dafny strings: `trim`, `toLowerCase`, `includes`, `parseInt`,
    `String(n)` and `Array.prototype.slice`. */
module JsBuiltins {

  datatype Option<T> = None | Some(value: T)

  /** The WhiteSpace and LineTerminator code points of ECMAScript: what
      `String.prototype.trim` strips and what the regular expression `\s` matches. */
  predicate IsSpace(c: char) {
    var n := c as int;
    || n == 0x20 || 0x09 <= n <= 0x0D || n == 0xA0 || n == 0x1680 || 0x2000 <= n <= 0x200A
    || n == 0x2028 || n == 0x2029 || n == 0x202F || n == 0x205F || n == 0x3000 || n == 0xFEFF
  }

  predicate AllSpace(s: string) {
    forall i :: 0 <= i < |s| ==> IsSpace(s[i])
  }

  /** Leading white space removed. */
  function TrimStart(s: string): (r: string)
    ensures |r| <= |s| && r == s[|s| - |r|..]
    ensures AllSpace(s[..|s| - |r|])
    ensures r == [] || !IsSpace(r[0])
  {
    if |s| > 0 && IsSpace(s[0]) then
      var r := TrimStart(s[1..]);
      assert s[..|s| - |r|] == [s[0]] + s[1..][..|s| - 1 - |r|];
      r
    else s
  }

  /** Trailing white space removed. */
  function TrimEnd(s: string): (r: string)
    ensures |r| <= |s| && r == s[..|r|]
    ensures AllSpace(s[|r|..])
    ensures r == [] || !IsSpace(r[|r| - 1])
  {
    if |s| > 0 && IsSpace(s[|s| - 1]) then
      var r := TrimEnd(s[..|s| - 1]);
      assert s[|r|..] == s[..|s| - 1][|r|..] + [s[|s| - 1]];
      r
    else s
  }

  /** `String.prototype.trim`. */
  function Trim(s: string): string {
    TrimEnd(TrimStart(s))
  }

  /** A string trims to nothing exactly when every character of it is white space. */
  lemma TrimEmptyIff(s: string)
    ensures Trim(s) == [] <==> AllSpace(s)
  {
    var t := TrimStart(s);
    if Trim(s) == [] {
      assert t == [];
      assert s[..|s|] == s;
    }
  }

  /** Trimming a string with no white space changes nothing. */
  lemma TrimNoSpace(s: string)
    requires forall i :: 0 <= i < |s| ==> !IsSpace(s[i])
    ensures Trim(s) == s
  {
    assert TrimStart(s) == s;
    assert TrimEnd(s) == s;
  }

  function LowerChar(c: char): (r: char)
    ensures 'A' <= c <= 'Z' ==> 'a' <= r <= 'z' && r as int - 'a' as int == c as int - 'A' as int
    ensures !('A' <= c <= 'Z') ==> r == c
  {
    if 'A' <= c <= 'Z' then (c as int - 'A' as int + 'a' as int) as char else c
  }

  /** `String.prototype.toLowerCase`, for the Basic Latin letters: each
      capital becomes the small letter at the same place in the alphabet. */
  function Lower(s: string): (r: string)
    ensures |r| == |s|
    ensures forall i :: 0 <= i < |s| ==> !('A' <= r[i] <= 'Z')
    ensures forall i :: 0 <= i < |s| && 'A' <= s[i] <= 'Z' ==>
      'a' <= r[i] <= 'z' && r[i] as int - 'a' as int == s[i] as int - 'A' as int
    ensures forall i :: 0 <= i < |s| ==> (IsSpace(r[i]) <==> IsSpace(s[i]))
    ensures forall i :: 0 <= i < |s| ==> (r[i] == s[i] <==> !('A' <= s[i] <= 'Z'))
  {
    seq(|s|, i requires 0 <= i < |s| => LowerChar(s[i]))
  }

  /** Lower-casing works piece by piece. */
  lemma LowerAppend(a: string, b: string)
    ensures Lower(a + b) == Lower(a) + Lower(b)
  {
    assert forall i :: 0 <= i < |a + b| ==> Lower(a + b)[i] == (Lower(a) + Lower(b))[i];
  }

  /** `s.includes(t)`: `t` occurs in `s` as a contiguous piece. */
  predicate Includes(s: string, t: string) {
    exists i | 0 <= i <= |s| - |t| :: OccursAt(s, t, i)
  }

  /** `t` occurs in `s` starting at index `i`. */
  predicate OccursAt(s: string, t: string, i: int) {
    0 <= i && i + |t| <= |s| && s[i..i + |t|] == t
  }

  /** `haystack.toLowerCase().includes(needle.toLowerCase())`. */
  predicate IncludesIgnoringCase(haystack: string, needle: string) {
    Includes(Lower(haystack), Lower(needle))
  }

  // ---- numbers and their decimal text ----

  function DigitChar(d: nat): (c: char)
    requires d < 10
    ensures '0' <= c <= '9'
  {
    ('0' as int + d) as char
  }

  /** The value of `c` as a digit in base `radix` (10 or 16), if it is one. */
  function DigitValue(c: char, radix: nat): (r: Option<nat>)
    ensures r.Some? ==> r.value < radix
    ensures radix == 10 ==> (r.Some? <==> '0' <= c <= '9')
  {
    if '0' <= c <= '9' && (c as int - '0' as int) < radix then Some(c as int - '0' as int)
    else if radix == 16 && 'a' <= c <= 'f' then Some(c as int - 'a' as int + 10)
    else if radix == 16 && 'A' <= c <= 'F' then Some(c as int - 'A' as int + 10)
    else None
  }

  /** The length of the longest prefix of `s` made of base-`radix` digits. */
  function DigitRun(s: string, radix: nat): (n: nat)
    ensures n <= |s|
    ensures forall i :: 0 <= i < n ==> DigitValue(s[i], radix).Some?
    ensures n < |s| ==> DigitValue(s[n], radix).None?
  {
    if |s| > 0 && DigitValue(s[0], radix).Some? then 1 + DigitRun(s[1..], radix) else 0
  }

  /** The number a run of base-`radix` digits denotes. */
  function DigitsValue(ds: string, radix: nat): nat
    requires forall i :: 0 <= i < |ds| ==> DigitValue(ds[i], radix).Some?
  {
    if ds == [] then 0
    else DigitsValue(ds[..|ds| - 1], radix) * radix + DigitValue(ds[|ds| - 1], radix).value
  }

  /** The value of the longest run of base-`radix` digits at the start of `d`;
      `None` when `d` does not start with a digit. */
  function ReadDigits(d: string, radix: nat): Option<nat> {
    var n := DigitRun(d, radix);
    if n == 0 then None
    else
      assert forall i :: 0 <= i < n ==> d[..n][i] == d[i];
      Some(DigitsValue(d[..n], radix))
  }

  /** `parseInt(s)` with no radix argument; `None` stands for NaN. Leading
      white space is skipped, one sign is accepted, a `0x`/`0X` prefix selects
      base 16, and the longest run of digits that follows is read. */
  function ParseInt(s: string): Option<int> {
    ParseSigned(TrimStart(s))
  }

  /** `parseInt` after the leading white space: an optional sign, then the magnitude. */
  function ParseSigned(t: string): Option<int> {
    if |t| > 0 && t[0] == '-' then
      (match ParseMagnitude(t[1..]) case None => None case Some(m) => Some(-(m as int)))
    else if |t| > 0 && t[0] == '+' then
      (match ParseMagnitude(t[1..]) case None => None case Some(m) => Some(m as int))
    else
      (match ParseMagnitude(t) case None => None case Some(m) => Some(m as int))
  }

  /** A `0x`/`0X` prefix selects base 16, anything else is read in base 10. */
  function ParseMagnitude(u: string): Option<nat> {
    if |u| >= 2 && u[0] == '0' && (u[1] == 'x' || u[1] == 'X') then ReadDigits(u[2..], 16)
    else ReadDigits(u, 10)
  }

  /** `String(n)` for a natural number: its shortest decimal numeral. */
  function NatToString(n: nat): (s: string)
    ensures |s| > 0
    ensures forall i :: 0 <= i < |s| ==> '0' <= s[i] <= '9'
    ensures s[0] == '0' ==> n == 0
  {
    if n < 10 then [DigitChar(n)] else NatToString(n / 10) + [DigitChar(n % 10)]
  }

  /** `String(n)` for an integer. */
  function IntToString(n: int): (s: string)
    ensures |s| > 0
    ensures s[0] == '-' <==> n < 0
  {
    if n < 0 then "-" + NatToString(-n) else NatToString(n)
  }

  lemma {:induction false} DigitsValueOfNatToString(n: nat)
    ensures forall i :: 0 <= i < |NatToString(n)| ==> DigitValue(NatToString(n)[i], 10).Some?
    ensures DigitsValue(NatToString(n), 10) == n
  {
    var s := NatToString(n);
    if n >= 10 {
      DigitsValueOfNatToString(n / 10);
      assert s[..|s| - 1] == NatToString(n / 10);
    }
  }

  /** `parseInt` reads back what `String` writes. */
  lemma ParseIntOfIntToString(n: int)
    ensures ParseInt(IntToString(n)) == Some(n)
  {
    var m: nat := if n < 0 then -n else n;
    var text := IntToString(n);
    if n < 0 {
      assert text == "-" + NatToString(m);
      ParseIntOfMinusNatToString(m);
      assert ParseInt(text) == Some(-(m as int));
    } else {
      assert text == NatToString(m);
      ParseIntOfNatToString(m);
      assert ParseInt(text) == Some(m);
    }
  }

  lemma ParseIntOfNatToString(m: nat)
    ensures ParseInt(NatToString(m)) == Some(m)
  {
    ParseMagnitudeOfNatToString(m);
    ParseIntOfDigits(NatToString(m), m);
  }

  lemma ParseIntOfMinusNatToString(m: nat)
    ensures ParseInt("-" + NatToString(m)) == Some(-(m as int))
  {
    ParseMagnitudeOfNatToString(m);
    ParseIntOfDigits(NatToString(m), m);
  }

  /** `parseInt` accepts an explicit '+' in front of a numeral. */
  lemma ParseIntOfPlusNatToString(m: nat)
    ensures ParseInt("+" + NatToString(m)) == Some(m)
  {
    ParseMagnitudeOfNatToString(m);
    ParseIntOfDigits(NatToString(m), m);
  }

  /** A text starting with a digit is read by `parseInt` as its magnitude,
      with or without a sign in front. */
  lemma ParseIntOfDigits(s: string, m: nat)
    requires |s| > 0 && '0' <= s[0] <= '9'
    requires ParseMagnitude(s) == Some(m)
    ensures ParseInt(s) == Some(m)
    ensures ParseInt("-" + s) == Some(-(m as int))
    ensures ParseInt("+" + s) == Some(m)
  {
    TrimStartOfNonSpace(s);
    TrimStartOfNonSpace("-" + s);
    TrimStartOfNonSpace("+" + s);
    assert ("-" + s)[1..] == s;
    assert ("+" + s)[1..] == s;
  }

  lemma TrimStartOfNonSpace(t: string)
    requires |t| > 0 && !IsSpace(t[0])
    ensures TrimStart(t) == t
  {
  }

  lemma ParseMagnitudeOfNatToString(m: nat)
    ensures ParseMagnitude(NatToString(m)) == Some(m)
  {
    ReadDigitsOfNatToString(m);
  }

  lemma ReadDigitsOfNatToString(m: nat)
    ensures ReadDigits(NatToString(m), 10) == Some(m)
    ensures |NatToString(m)| >= 2 ==> NatToString(m)[1] != 'x' && NatToString(m)[1] != 'X'
  {
    var s := NatToString(m);
    DigitsValueOfNatToString(m);
    DigitRunOfDecimal(s);
    assert s[..|s|] == s;
  }

  lemma {:induction false} DigitRunOfDecimal(s: string)
    requires forall i :: 0 <= i < |s| ==> '0' <= s[i] <= '9'
    ensures DigitRun(s, 10) == |s|
  {
    if s != [] {
      DigitRunOfDecimal(s[1..]);
    }
  }

  /** The decimal numerals of two different naturals differ. */
  lemma {:induction false} NatToStringInjective(a: nat, b: nat)
    requires NatToString(a) == NatToString(b)
    ensures a == b
  {
    DigitsValueOfNatToString(a);
    DigitsValueOfNatToString(b);
  }

  /** `s.slice(start, end)`: negative positions count from the end, and
      positions past either end are clamped. */
  function Slice<T>(s: seq<T>, start: int, end: int): seq<T>
  {
    var lo := Clamp(start, |s|);
    var hi := Clamp(end, |s|);
    if lo < hi then s[lo..hi] else []
  }

  /** How `slice` turns a position argument into an index of a sequence of length `n`. */
  function Clamp(k: int, n: nat): (r: nat)
    ensures r <= n
    ensures 0 <= k <= n ==> r == k
    ensures k > n ==> r == n
  {
    if k < 0 then (if n + k < 0 then 0 else n + k) else if k > n then n else k
  }

  /** `Array.prototype.join(sep)` over strings. */
  function Join(parts: seq<string>, sep: string): (r: string)
    ensures |parts| == 1 ==> r == parts[0]
  {
    if parts == [] then "" else if |parts| == 1 then parts[0] else parts[0] + sep + Join(parts[1..], sep)
  }

  /** Joining a list of two or more parts puts the separator after the first. */
  lemma JoinCons(w: string, ws: seq<string>, sep: string)
    requires ws != []
    ensures Join([w] + ws, sep) == w + (sep + Join(ws, sep))
  {
    assert ([w] + ws)[1..] == ws;
  }

  // ---- string comparison ----

  /** `a < b` on two strings: lexicographic order of their characters, a
      proper prefix coming first. */
  predicate StringLess(a: string, b: string) {
    if a == [] then b != []
    else if b == [] then false
    else if a[0] != b[0] then a[0] < b[0]
    else StringLess(a[1..], b[1..])
  }

  lemma {:induction false} StringLessIrreflexive(a: string)
    ensures !StringLess(a, a)
  {
    if a != [] {
      StringLessIrreflexive(a[1..]);
    }
  }

  lemma {:induction false} StringLessTransitive(a: string, b: string, c: string)
    requires StringLess(a, b) && StringLess(b, c)
    ensures StringLess(a, c)
  {
    if a != [] && a[0] == b[0] && b[0] == c[0] {
      StringLessTransitive(a[1..], b[1..], c[1..]);
    }
  }

  /** Of two different strings, one is less than the other. */
  lemma {:induction false} StringLessTotal(a: string, b: string)
    requires a != b
    ensures StringLess(a, b) || StringLess(b, a)
  {
    if a != [] && b != [] && a[0] == b[0] {
      assert a == [a[0]] + a[1..] && b == [b[0]] + b[1..];
      StringLessTotal(a[1..], b[1..]);
    }
  }

  lemma StringLessAsymmetric(a: string, b: string)
    requires StringLess(a, b)
    ensures !StringLess(b, a)
  {
    if StringLess(b, a) {
      StringLessTransitive(a, b, a);
      StringLessIrreflexive(a);
    }
  }
}
