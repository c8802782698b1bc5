/**
 * String helpers with the meaning the TypeScript runtime gives them:
 * `split`/`join` on a one-character separator, ASCII `toLowerCase`,
 * `includes`/`startsWith`/`endsWith`, `String(n)` for integers and
 * `parseInt` without a radix.
 */
module Text {
  import opened Wrappers

  /** JavaScript truthiness of an optional string: present and non-empty. */
  predicate Truthy(s: Option<string>) {
    s.Some? && s.value != ""
  }

  /** `s || fallback` for an optional string. */
  function OrElse(s: Option<string>, fallback: string): (r: string)
    ensures Truthy(s) ==> r == s.value
    ensures !Truthy(s) ==> r == fallback
  {
    if Truthy(s) then s.value else fallback
  }

  predicate StartsWith(s: string, prefix: string) {
    |prefix| <= |s| && s[..|prefix|] == prefix
  }

  predicate EndsWith(s: string, suffix: string) {
    |suffix| <= |s| && s[|s| - |suffix|..] == suffix
  }

  /** `s.includes(sub)`: `sub` occurs at some position of `s`. */
  predicate Contains(s: string, sub: string)
    decreases |s|
  {
    StartsWith(s, sub) || (|s| > 0 && Contains(s[1..], sub))
  }

  lemma {:induction false} ContainsAt(s: string, sub: string, i: nat)
    requires i + |sub| <= |s| && s[i..i + |sub|] == sub
    ensures Contains(s, sub)
    decreases i
  {
    if i > 0 {
      assert s[1..][i - 1..i - 1 + |sub|] == sub;
      ContainsAt(s[1..], sub, i - 1);
    }
  }

  /** A substring found by `Contains` sits at some position. */
  lemma {:induction false} ContainsWitness(s: string, sub: string) returns (i: nat)
    requires Contains(s, sub)
    ensures i + |sub| <= |s| && s[i..i + |sub|] == sub
    ensures forall k :: 0 <= k < |sub| ==> s[i + k] == sub[k]
    decreases |s|
  {
    if StartsWith(s, sub) {
      i := 0;
    } else {
      var j := ContainsWitness(s[1..], sub);
      assert s[1..][j..j + |sub|] == s[j + 1..j + 1 + |sub|];
      i := j + 1;
    }
  }

  /** `sub` occurs in `s` at position `i`. */
  predicate OccursAt(s: string, sub: string, i: nat) {
    i + |sub| <= |s| && s[i..i + |sub|] == sub
  }

  /** A substring found at no position is not contained. */
  lemma NotContains(s: string, sub: string)
    requires forall i: nat :: !OccursAt(s, sub, i)
    ensures !Contains(s, sub)
  {
    if Contains(s, sub) {
      var i := ContainsWitness(s, sub);
      assert OccursAt(s, sub, i);
      assert false;
    }
  }

  lemma ContainsSelf(s: string)
    ensures Contains(s, s)
  {
    assert StartsWith(s, s);
  }

  /** A text shorter than `sub` does not contain it. */
  lemma ShorterNotContains(s: string, sub: string)
    requires |s| < |sub|
    ensures !Contains(s, sub)
  {
    if Contains(s, sub) {
      var _ := ContainsWitness(s, sub);
      assert false;
    }
  }

  /** A string holding a non-empty substring holds that substring's first character. */
  lemma {:induction false} ContainsHead(s: string, sub: string)
    requires Contains(s, sub) && |sub| > 0
    ensures sub[0] in s
    decreases |s|
  {
    if !StartsWith(s, sub) {
      ContainsHead(s[1..], sub);
      assert sub[0] in s[1..];
    } else {
      assert s[0] == sub[0];
    }
  }

  /** `s.split(sep)` for a one-character separator. */
  function Split(s: string, sep: char): (parts: seq<string>)
    ensures |parts| >= 1
    decreases |s|
  {
    if s == [] then [""]
    else if s[0] == sep then [""] + Split(s[1..], sep)
    else
      var rest := Split(s[1..], sep);
      [[s[0]] + rest[0]] + rest[1..]
  }

  /** `parts.join(sep)`. */
  function Join(parts: seq<string>, sep: string): string
    decreases |parts|
  {
    if |parts| == 0 then ""
    else if |parts| == 1 then parts[0]
    else parts[0] + sep + Join(parts[1..], sep)
  }

  /** `parts.slice(0, k)`. */
  function Take<T>(parts: seq<T>, k: nat): (r: seq<T>)
    ensures |r| == if k < |parts| then k else |parts|
    ensures r == parts[..|r|]
  {
    if k < |parts| then parts[..k] else parts
  }

  /** Joining the parts of a split with the same separator gives back the string. */
  lemma {:induction false} JoinSplit(s: string, sep: char)
    ensures Join(Split(s, sep), [sep]) == s
    decreases |s|
  {
    if s != [] {
      var rest := Split(s[1..], sep);
      JoinSplit(s[1..], sep);
      if s[0] == sep {
        assert Split(s, sep) == [""] + rest;
        assert Join(Split(s, sep), [sep]) == "" + [sep] + Join(rest, [sep]);
      } else if |rest| == 1 {
        assert Join(Split(s, sep), [sep]) == [s[0]] + rest[0];
      } else {
        var parts := Split(s, sep);
        assert parts[1..] == rest[1..];
        assert Join(rest, [sep]) == rest[0] + [sep] + Join(rest[1..], [sep]);
        assert Join(parts, [sep]) == [s[0]] + rest[0] + [sep] + Join(rest[1..], [sep]);
      }
    }
  }

  /** Joining a leading run of parts gives a prefix of joining them all. */
  lemma {:induction false} JoinTakeIsPrefix(parts: seq<string>, sep: string, k: nat)
    ensures StartsWith(Join(parts, sep), Join(Take(parts, k), sep))
    decreases |parts|
  {
    if k == 0 {
    } else if |parts| <= 1 {
      assert Take(parts, k) == parts;
    } else if k == 1 {
      assert Take(parts, 1) == [parts[0]];
      assert Join(parts, sep) == parts[0] + (sep + Join(parts[1..], sep));
    } else {
      JoinTakeIsPrefix(parts[1..], sep, k - 1);
      var tail := Join(Take(parts[1..], k - 1), sep);
      var whole := Join(parts[1..], sep);
      assert Take(parts, k)[1..] == Take(parts[1..], k - 1);
      assert Join(Take(parts, k), sep) == parts[0] + sep + tail;
      assert Join(parts, sep)[..|parts[0]| + |sep| + |tail|] == parts[0] + sep + whole[..|tail|];
    }
  }

  /** Joining any leading run of the parts of a split gives a prefix of the string. */
  lemma JoinTakeSplitIsPrefix(s: string, sep: char, k: nat)
    ensures StartsWith(s, Join(Take(Split(s, sep), k), [sep]))
  {
    JoinTakeIsPrefix(Split(s, sep), [sep], k);
    JoinSplit(s, sep);
  }

  /** A string without the separator splits into itself alone. */
  lemma {:induction false} SplitNoSep(s: string, sep: char)
    requires sep !in s
    ensures Split(s, sep) == [s]
    decreases |s|
  {
    if s != [] {
      assert s[0] != sep;
      SplitNoSep(s[1..], sep);
      assert [s[0]] + s[1..] == s;
    }
  }

  /** Concatenation regroups freely. */
  lemma AppendAssoc<T>(x: seq<T>, y: seq<T>, z: seq<T>)
    ensures x + (y + z) == (x + y) + z
  {
  }

  /** Splitting at one separator occurrence splits both sides independently. */
  lemma {:induction false} SplitAppendSep(a: string, b: string, sep: char)
    ensures Split(a + [sep] + b, sep) == Split(a, sep) + Split(b, sep)
    decreases |a|
  {
    var s := a + [sep] + b;
    if a == [] {
      assert s[1..] == b;
    } else {
      var t := a[1..] + [sep] + b;
      assert s[0] == a[0] && s[1..] == t;
      SplitAppendSep(a[1..], b, sep);
      var rest := Split(a[1..], sep);
      var whole := Split(t, sep);
      var tail := Split(b, sep);
      assert whole == rest + tail;
      var head := if a[0] == sep then [""] else [[a[0]] + rest[0]];
      var more := if a[0] == sep then rest else rest[1..];
      assert Split(a, sep) == head + more;
      assert Split(s, sep) == head + (more + tail) by {
        if a[0] != sep {
          assert whole[0] == rest[0] && whole[1..] == rest[1..] + tail;
        }
      }
      AppendAssoc(head, more, tail);
    }
  }

  function LowerChar(c: char): (r: char)
    ensures 'A' <= c <= 'Z' ==> r as int == c as int + 32
    ensures !('A' <= c <= 'Z') ==> r == c
  {
    if 'A' <= c <= 'Z' then (c as int + 32) as char else c
  }

  /** `s.toLowerCase()` on the ASCII letters. */
  function Lower(s: string): (r: string)
    ensures |r| == |s|
    ensures forall i :: 0 <= i < |s| ==> r[i] == LowerChar(s[i])
  {
    seq(|s|, i requires 0 <= i < |s| => LowerChar(s[i]))
  }

  lemma LowerIdempotent(s: string)
    ensures Lower(Lower(s)) == Lower(s)
  {
    assert forall i :: 0 <= i < |s| ==> LowerChar(LowerChar(s[i])) == LowerChar(s[i]);
  }

  predicate IsDigit(c: char) {
    '0' <= c <= '9'
  }

  function DigitChar(d: nat): (c: char)
    requires d < 10
    ensures IsDigit(c) && c as int - '0' as int == d
  {
    ('0' as int + d) as char
  }

  /** `String(n)` for a non-negative integer. */
  function NatToString(n: nat): (s: string)
    ensures |s| >= 1 && forall i :: 0 <= i < |s| ==> IsDigit(s[i])
    decreases n
  {
    if n < 10 then [DigitChar(n)] else NatToString(n / 10) + [DigitChar(n % 10)]
  }

  /** The value of `c` as a digit of either case in bases up to 16, or 16 when it is none. */
  function DigitValue(c: char): (v: nat)
    ensures v <= 16
    ensures v < 10 <==> IsDigit(c)
    ensures IsDigit(c) ==> v == c as int - '0' as int
  {
    if IsDigit(c) then c as int - '0' as int
    else if 'a' <= c <= 'f' then c as int - 'a' as int + 10
    else if 'A' <= c <= 'F' then c as int - 'A' as int + 10
    else 16
  }

  predicate IsDigitIn(c: char, radix: nat) {
    DigitValue(c) < radix
  }

  /** The value of a run of digits in base `radix`, most significant first. */
  function DigitsValue(d: string, radix: nat): int
    requires forall i :: 0 <= i < |d| ==> IsDigitIn(d[i], radix)
    decreases |d|
  {
    if d == [] then 0
    else
      var init := d[..|d| - 1];
      assert forall i :: 0 <= i < |init| ==> init[i] == d[i];
      DigitsValue(init, radix) * radix + DigitValue(d[|d| - 1])
  }

  /** Number of leading digits of base `radix` in `s`. */
  function LeadingDigits(s: string, radix: nat): (k: nat)
    ensures k <= |s| && forall i :: 0 <= i < k ==> IsDigitIn(s[i], radix)
    ensures k < |s| ==> !IsDigitIn(s[k], radix)
    decreases |s|
  {
    if s != [] && IsDigitIn(s[0], radix) then 1 + LeadingDigits(s[1..], radix) else 0
  }

  /**
   * The white space and line terminators that `parseInt` skips before the
   * number (sections 12.2 and 12.3 of ECMA-262).
   */
  predicate IsJsSpace(c: char) {
    c == '\t' || c == '\n' || c == '\U{B}' || c == '\U{C}' || c == '\r' || c == ' ' ||
    c == '\U{A0}' || c == '\U{1680}' || ('\U{2000}' <= c <= '\U{200A}') ||
    c == '\U{2028}' || c == '\U{2029}' || c == '\U{202F}' || c == '\U{205F}' ||
    c == '\U{3000}' || c == '\U{FEFF}'
  }

  /** Number of leading white-space characters of `s`. */
  function LeadingSpace(s: string): (k: nat)
    ensures k <= |s| && forall i :: 0 <= i < k ==> IsJsSpace(s[i])
    ensures k < |s| ==> !IsJsSpace(s[k])
    decreases |s|
  {
    if s != [] && IsJsSpace(s[0]) then 1 + LeadingSpace(s[1..]) else 0
  }

  /** A `0x` or `0X` prefix, which makes `parseInt` without a radix read base 16. */
  predicate HexPrefixed(s: string) {
    |s| >= 2 && s[0] == '0' && (s[1] == 'x' || s[1] == 'X')
  }

  /**
   * The longest run of digits of base `radix` at the start of `body`; no
   * digit at all gives NaN, modelled as None.
   */
  function ReadDigits(body: string, radix: nat): Option<int> {
    var k := LeadingDigits(body, radix);
    if k == 0 then None else Some(DigitsValue(body[..k], radix))
  }

  /** The digits after the sign: a `0x`/`0X` prefix selects base 16, anything else base 10. */
  function ParseUnsigned(u: string): Option<int> {
    if HexPrefixed(u) then ReadDigits(u[2..], 16) else ReadDigits(u, 10)
  }

  /** What follows the white space: one optional sign, then the digits. */
  function ParseSigned(t: string): Option<int> {
    if t != [] && (t[0] == '-' || t[0] == '+') then
      match ParseUnsigned(t[1..])
      case None => None
      case Some(m) => Some(if t[0] == '-' then -m else m)
    else ParseUnsigned(t)
  }

  /**
   * `parseInt(s)` with no radix (section 19.2.5 of ECMA-262): leading white
   * space is skipped, then the signed number is read.
   */
  function ParseInt(s: string): Option<int> {
    ParseSigned(s[LeadingSpace(s)..])
  }

  /** Without white space or sign in front, `parseInt` reads the digits directly. */
  lemma ParseIntUnsigned(s: string)
    requires s == [] || (!IsJsSpace(s[0]) && s[0] != '-' && s[0] != '+')
    ensures ParseInt(s) == ParseUnsigned(s)
  {
    LeadingSpaceOfPrefix([], s);
    assert [] + s == s;
    assert s[0..] == s;
  }

  /** A run of digits followed by a non-digit is read as exactly that run. */
  lemma ReadDigitsOfPrefix(a: string, rest: string, radix: nat)
    requires a != [] && forall i :: 0 <= i < |a| ==> IsDigitIn(a[i], radix)
    requires rest == [] || !IsDigitIn(rest[0], radix)
    ensures ReadDigits(a + rest, radix) == Some(DigitsValue(a, radix))
  {
    LeadingDigitsOfPrefix(a, rest, radix);
    assert (a + rest)[..|a|] == a;
  }

  lemma {:induction false} DigitsValueOfNatToString(n: nat)
    ensures DigitsValue(NatToString(n), 10) == n
    decreases n
  {
    var s := NatToString(n);
    if n >= 10 {
      DigitsValueOfNatToString(n / 10);
      assert s[..|s| - 1] == NatToString(n / 10);
    }
  }

  /** The run of digits ends where the first non-digit after `a` stands. */
  lemma LeadingDigitsOfPrefix(a: string, rest: string, radix: nat)
    requires forall i :: 0 <= i < |a| ==> IsDigitIn(a[i], radix)
    requires rest == [] || !IsDigitIn(rest[0], radix)
    ensures LeadingDigits(a + rest, radix) == |a|
  {
    var s := a + rest;
    assert forall i :: 0 <= i < |a| ==> s[i] == a[i];
    assert rest != [] ==> s[|a|] == rest[0];
  }

  /** The white space ends where the first other character after `w` stands. */
  lemma LeadingSpaceOfPrefix(w: string, s: string)
    requires forall i :: 0 <= i < |w| ==> IsJsSpace(w[i])
    requires s == [] || !IsJsSpace(s[0])
    ensures LeadingSpace(w + s) == |w|
  {
    var t := w + s;
    assert forall i :: 0 <= i < |w| ==> t[i] == w[i];
    assert s != [] ==> t[|w|] == s[0];
  }

  /** White space before the number does not change what `parseInt` reads. */
  lemma ParseIntSkipsSpace(w: string, s: string)
    requires forall i :: 0 <= i < |w| ==> IsJsSpace(w[i])
    requires s == [] || !IsJsSpace(s[0])
    ensures ParseInt(w + s) == ParseInt(s)
  {
    LeadingSpaceOfPrefix(w, s);
    LeadingSpaceOfPrefix([], s);
    assert [] + s == s;
    assert (w + s)[|w|..] == s;
    assert s[0..] == s;
  }

  /** After a `0x` prefix, the digits are read in base 16. */
  lemma HexPrefixReads(u: string)
    ensures ParseInt("0x" + u) == ReadDigits(u, 16)
  {
    var s := "0x" + u;
    assert s[0] == '0' && s[1] == 'x' && s[2..] == u;
    ParseIntUnsigned(s);
  }

  /** A `0x` prefix followed by hexadecimal digits reads them in base 16. */
  lemma ParseIntHex(d: string, rest: string)
    requires d != [] && forall i :: 0 <= i < |d| ==> IsDigitIn(d[i], 16)
    requires rest == [] || !IsDigitIn(rest[0], 16)
    ensures ParseInt("0x" + d + rest) == Some(DigitsValue(d, 16))
  {
    AppendAssoc("0x", d, rest);
    HexPrefixReads(d + rest);
    ReadDigitsOfPrefix(d, rest, 16);
  }

  /**
   * `parseInt` reads back what `String(n)` wrote, and stops at the first
   * character that cannot continue the numeral.
   */
  lemma ParseIntReadsNumeral(n: nat, rest: string)
    requires rest == [] || (!IsDigit(rest[0]) && rest[0] != 'x' && rest[0] != 'X')
    ensures ParseInt(NatToString(n) + rest) == Some(n)
  {
    var a := NatToString(n);
    var s := a + rest;
    assert s[0] == a[0];
    assert !HexPrefixed(s) by {
      if |s| >= 2 {
        if |a| >= 2 {
          assert s[1] == a[1];
        } else {
          assert s[1] == rest[0];
        }
      }
    }
    ReadDigitsOfPrefix(a, rest, 10);
    DigitsValueOfNatToString(n);
    ParseIntUnsigned(s);
  }

  /** Reading back what `String(n)` wrote gives `n`. */
  lemma ParseIntNatToString(n: nat)
    ensures ParseInt(NatToString(n)) == Some(n)
  {
    ParseIntReadsNumeral(n, []);
    assert NatToString(n) + [] == NatToString(n);
  }

  /** Distinct numbers print differently. */
  lemma NatToStringInjective(m: nat, n: nat)
    ensures NatToString(m) == NatToString(n) ==> m == n
  {
    ParseIntNatToString(m);
    ParseIntNatToString(n);
  }

  /**
   * `s.length`: the number of UTF-16 code units, so a character above
   * U+FFFF (a surrogate pair) counts twice.
   */
  function Utf16Length(s: string): (n: nat)
    ensures |s| <= n <= 2 * |s|
    ensures (forall i :: 0 <= i < |s| ==> s[i] <= '\U{FFFF}') ==> n == |s|
    ensures (forall i :: 0 <= i < |s| ==> s[i] > '\U{FFFF}') ==> n == 2 * |s|
  {
    if s == [] then 0 else (if s[0] > '\U{FFFF}' then 2 else 1) + Utf16Length(s[1..])
  }

  /** Position of the first `c` in `s`, or `|s|` when there is none. */
  function IndexOf(s: string, c: char): (i: nat)
    ensures i <= |s| && c !in s[..i]
    ensures i < |s| ==> s[i] == c
    decreases |s|
  {
    if s == [] then 0
    else if s[0] == c then 0
    else
      var j := IndexOf(s[1..], c);
      assert s[..j + 1] == [s[0]] + s[1..][..j];
      1 + j
  }

  /** `s.replace(c, r)` with a one-character pattern: only the first occurrence. */
  function ReplaceFirst(s: string, c: char, r: string): (t: string)
    decreases |s|
  {
    if s == [] then []
    else if s[0] == c then r + s[1..]
    else [s[0]] + ReplaceFirst(s[1..], c, r)
  }

  /** The replacement splices `r` in at the first `c`, and leaves `s` alone without one. */
  lemma {:induction false} ReplaceFirstSpec(s: string, c: char, r: string)
    ensures var i := IndexOf(s, c);
      ReplaceFirst(s, c, r) == if i < |s| then s[..i] + r + s[i + 1..] else s
    decreases |s|
  {
    if s != [] && s[0] != c {
      ReplaceFirstSpec(s[1..], c, r);
      var j := IndexOf(s[1..], c);
      if j < |s[1..]| {
        assert s[..j + 1] == [s[0]] + s[1..][..j];
        assert s[j + 2..] == s[1..][j + 1..];
      }
    }
  }
}
