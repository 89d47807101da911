/** The Go string operations the services rely on: decimal printing and parsing, trimming, byte length,
    and joining. A string is a sequence of Unicode scalar values; `len` in the source counts UTF-8 bytes. */
module Text {

  import opened Wrappers

  // ---- decimal numbers -------------------------------------------------------------------------

  const DIGITS := "0123456789"

  predicate IsDigit(c: char) { '0' <= c <= '9' }

  predicate AllDigits(s: string) { forall i :: 0 <= i < |s| ==> IsDigit(s[i]) }

  function DigitValue(c: char): nat
    requires IsDigit(c)
  {
    c as int - '0' as int
  }

  /** `fmt.Sprintf("%d", n)` for an unsigned n. */
  function PrintNat(n: nat): string
  {
    if n < 10 then [DIGITS[n]] else PrintNat(n / 10) + [DIGITS[n % 10]]
  }

  /** `fmt.Sprintf("%d", n)` for a signed n. */
  function PrintInt(n: int): string
  {
    if n < 0 then "-" + PrintNat(-n) else PrintNat(n)
  }

  function NatValue(s: string): nat
    requires AllDigits(s)
  {
    if s == [] then 0 else 10 * NatValue(s[..|s| - 1]) + DigitValue(s[|s| - 1])
  }

  const UINT64_LIMIT: int := 0x1_0000_0000_0000_0000
  const INT64_LIMIT: int := 0x8000_0000_0000_0000

  /** `strconv.ParseUint(s, 10, 64)`; a failed parse is None. */
  function ParseUint(s: string): Option<nat>
  {
    if s == [] || !AllDigits(s) || NatValue(s) >= UINT64_LIMIT then None else Some(NatValue(s))
  }

  /** `strconv.Atoi(s)` on a 64-bit platform: an optional sign, digits, and a value that fits. */
  function Atoi(s: string): Option<int>
  {
    if s == [] then None
    else
      var negative := s[0] == '-';
      var digits := if s[0] == '-' || s[0] == '+' then s[1..] else s;
      if digits == [] || !AllDigits(digits) then None
      else
        var n: int := NatValue(digits);
        if negative then if n > INT64_LIMIT then None else Some(-n)
        else if n >= INT64_LIMIT then None else Some(n)
  }

  lemma DigitOfValue(d: nat)
    requires d < 10
    ensures IsDigit(DIGITS[d]) && DigitValue(DIGITS[d]) == d
  {
  }

  lemma {:induction false} PrintNatParses(n: nat)
    ensures |PrintNat(n)| > 0
    ensures AllDigits(PrintNat(n))
    ensures NatValue(PrintNat(n)) == n
  {
    if n < 10 {
      DigitOfValue(n);
      assert PrintNat(n)[..0] == [];
    } else {
      PrintNatParses(n / 10);
      DigitOfValue(n % 10);
      var p := PrintNat(n / 10);
      assert PrintNat(n)[..|PrintNat(n)| - 1] == p;
    }
  }

  lemma PrintNatInjective(m: nat, n: nat)
    requires PrintNat(m) == PrintNat(n)
    ensures m == n
  {
    PrintNatParses(m);
    PrintNatParses(n);
  }

  lemma PrintIntInjective(m: int, n: int)
    requires PrintInt(m) == PrintInt(n)
    ensures m == n
  {
    PrintNatParses(if m < 0 then -m else m);
    PrintNatParses(if n < 0 then -n else n);
    assert m >= 0 ==> IsDigit(PrintInt(m)[0]);
    assert n >= 0 ==> IsDigit(PrintInt(n)[0]);
    if m < 0 {
      assert PrintInt(m)[0] == '-';
      assert PrintInt(m)[1..] == PrintNat(-m) && PrintInt(n)[1..] == PrintNat(-n);
    }
  }

  /** Printing then parsing gives the number back, for every value the Go types can hold. */
  lemma PrintParseRoundTrip(n: nat)
    ensures n < UINT64_LIMIT ==> ParseUint(PrintNat(n)) == Some(n)
    ensures n < INT64_LIMIT ==> Atoi(PrintNat(n)) == Some(n)
  {
    PrintNatParses(n);
    assert IsDigit(PrintNat(n)[0]);
  }

  function Zeros(k: nat): string { seq(k, _ => '0') }

  lemma {:induction false} DigitsPadded(s: string) returns (k: nat)
    requires s != [] && AllDigits(s)
    ensures s == Zeros(k) + PrintNat(NatValue(s))
  {
    var t, d := s[..|s| - 1], DigitValue(s[|s| - 1]);
    assert s == t + [s[|s| - 1]] && [DIGITS[d]] == [s[|s| - 1]];
    if t == [] {
      k := 0;
      assert s == PrintNat(d);
    } else {
      k := DigitsPadded(t);
      if NatValue(t) == 0 {
        k := k + 1;
        assert Zeros(k - 1) + "0" == Zeros(k);
      } else {
        assert NatValue(s) / 10 == NatValue(t) && NatValue(s) % 10 == d;
        assert PrintNat(NatValue(s)) == PrintNat(NatValue(t)) + [DIGITS[d]];
        assert Zeros(k) + (PrintNat(NatValue(t)) + [DIGITS[d]]) == Zeros(k) + PrintNat(NatValue(t)) + [DIGITS[d]];
      }
    }
  }

  lemma {:induction false} PaddedValue(k: nat, s: string)
    requires s != [] && AllDigits(s)
    ensures AllDigits(Zeros(k) + s) && NatValue(Zeros(k) + s) == NatValue(s)
  {
    var all := Zeros(k) + s;
    assert all[..|all| - 1] == Zeros(k) + s[..|s| - 1];
    if |s| > 1 {
      PaddedValue(k, s[..|s| - 1]);
    } else {
      ZerosValue(k);
      assert all[..|all| - 1] == Zeros(k) && s[..0] == [];
    }
  }

  lemma {:induction false} ZerosValue(k: nat)
    ensures AllDigits(Zeros(k)) && NatValue(Zeros(k)) == 0
  {
    if k > 0 {
      ZerosValue(k - 1);
      assert Zeros(k)[..k - 1] == Zeros(k - 1);
    }
  }

  /** The decimal form of n, possibly with zeros in front. */
  ghost predicate Spells(s: string, n: nat) { exists k: nat :: s == Zeros(k) + PrintNat(n) }

  lemma SpellsExact(s: string, n: nat)
    ensures Spells(s, n) <==> s != [] && AllDigits(s) && NatValue(s) == n
  {
    PrintNatParses(n);
    if Spells(s, n) {
      var k: nat :| s == Zeros(k) + PrintNat(n);
      PaddedValue(k, PrintNat(n));
    }
    if s != [] && AllDigits(s) {
      var k := DigitsPadded(s);
      assert Spells(s, NatValue(s));
    }
  }

  /** Exactly what parses, and to what: decimal forms of numbers that fit, with zeros in front; and for Atoi a sign. m is
      the negative of n. */
  lemma ParseExact(s: string, n: nat, m: int)
    requires m + n == 0
    ensures ParseUint(s) == Some(n) <==> n < UINT64_LIMIT && Spells(s, n)
    ensures Atoi(s) == Some(n) <==>
      n < INT64_LIMIT && (Spells(s, n) || (s != [] && s[0] == '+' && Spells(s[1..], n))
                          || (s != [] && s[0] == '-' && n == 0 && Spells(s[1..], 0)))
    ensures n > 0 ==>
      (Atoi(s) == Some(m) <==> n <= INT64_LIMIT && s != [] && s[0] == '-' && Spells(s[1..], n))
  {
    hide Spells, NatValue;
    SpellsExact(s, n);
    if s != [] {
      SpellsExact(s[1..], n);
      assert !IsDigit('+') && !IsDigit('-');
      assert s[0] == '+' || s[0] == '-' ==> !AllDigits(s);
    }
  }

  // ---- delimiters ------------------------------------------------------------------------------

  lemma DelimiterInside(c: char, a: string, x: string, b: string, y: string)
    requires a + [c] + x == b + [c] + y
    requires |a| < |b|
    ensures c in b
  {
    assert (a + [c] + x)[|a|] == c;
    assert (b + [c] + y)[|a|] == b[|a|];
  }

  /** A separator that occurs in neither prefix determines where the prefixes end. */
  lemma {:induction false} SplitAtDelimiter(c: char, a: string, x: string, b: string, y: string)
    requires c !in a && c !in b
    requires a + [c] + x == b + [c] + y
    ensures a == b && x == y
  {
    var s := a + [c] + x;
    if |a| < |b| { DelimiterInside(c, a, x, b, y); }
    if |b| < |a| { DelimiterInside(c, b, y, a, x); }
    assert s[..|a|] == a && s[..|b|] == b;
    assert s[|a| + 1..] == x && s[|b| + 1..] == y;
  }

  /** `strings.Join`. */
  function Join(parts: seq<string>, sep: string): string
  {
    if parts == [] then ""
    else if |parts| == 1 then parts[0]
    else parts[0] + sep + Join(parts[1..], sep)
  }

  // ---- trimming and length ---------------------------------------------------------------------

  /** `unicode.IsSpace`. */
  predicate IsSpace(c: char)
  {
    var n := c as int;
    9 <= n <= 13 || n == 0x20 || n == 0x85 || n == 0xA0 || n == 0x1680 || 0x2000 <= n <= 0x200A
    || n == 0x2028 || n == 0x2029 || n == 0x202F || n == 0x205F || n == 0x3000
  }

  function TrimLeft(s: string): string
  {
    if s != [] && IsSpace(s[0]) then TrimLeft(s[1..]) else s
  }

  function TrimRight(s: string): string
  {
    if s != [] && IsSpace(s[|s| - 1]) then TrimRight(s[..|s| - 1]) else s
  }

  /** `strings.TrimSpace`. */
  function TrimSpace(s: string): string { TrimRight(TrimLeft(s)) }

  /** Trimming takes white space off both ends, all of it, and nothing else. */
  lemma TrimSpaceExact(s: string) returns (i: nat, j: nat)
    ensures i <= j <= |s| && TrimSpace(s) == s[i..j]
    ensures forall k :: 0 <= k < i || j <= k < |s| ==> IsSpace(s[k])
    ensures TrimSpace(s) != "" ==> !IsSpace(s[i]) && !IsSpace(s[j - 1])
  {
    i := TrimLeftExact(s);
    var n := TrimRightExact(TrimLeft(s));
    j := i + n;
    assert forall k :: j <= k < |s| ==> s[k] == s[i..][k - i];
  }

  lemma {:induction false} TrimLeftExact(s: string) returns (i: nat)
    ensures i <= |s| && TrimLeft(s) == s[i..]
    ensures forall k :: 0 <= k < i ==> IsSpace(s[k])
    ensures i < |s| ==> !IsSpace(s[i])
  {
    i := 0;
    if s != [] && IsSpace(s[0]) {
      var n := TrimLeftExact(s[1..]);
      i := n + 1;
      assert s[1..][n..] == s[i..];
      assert forall k :: 1 <= k < i ==> s[k] == s[1..][k - 1];
    }
  }

  lemma {:induction false} TrimRightExact(s: string) returns (j: nat)
    ensures j <= |s| && TrimRight(s) == s[..j]
    ensures forall k :: j <= k < |s| ==> IsSpace(s[k])
    ensures j > 0 ==> !IsSpace(s[j - 1])
  {
    j := |s|;
    if s != [] && IsSpace(s[|s| - 1]) {
      j := TrimRightExact(s[..|s| - 1]);
      assert s[..|s| - 1][..j] == s[..j];
    }
  }

  /** UTF-8 width of one scalar value. */
  function Width(c: char): nat
  {
    var n := c as int;
    if n < 0x80 then 1 else if n < 0x800 then 2 else if n < 0x1_0000 then 3 else 4
  }

  /** Go's `len` of a string. */
  function ByteLen(s: string): nat
  {
    if s == [] then 0 else ByteLen(s[..|s| - 1]) + Width(s[|s| - 1])
  }

  lemma {:induction false} ByteLenTail(s: string)
    requires s != []
    ensures ByteLen(s) == Width(s[0]) + ByteLen(s[1..])
  {
    if |s| == 1 {
      assert s[..0] == [] && s[1..] == [];
    } else {
      var t := s[..|s| - 1];
      ByteLenTail(t);
      assert t[1..] == s[1..][..|s[1..]| - 1];
    }
  }

  /** UTF-8, section 3 of RFC 3629. */
  function Encoded(c: char): seq<int>
  {
    var n := c as int;
    var n1, n2, n3 := n / 0x40, n / 0x40 / 0x40, n / 0x40 / 0x40 / 0x40;
    if n < 0x80 then [n]
    else if n < 0x800 then [0xC0 + n1, 0x80 + n % 0x40]
    else if n < 0x1_0000 then [0xE0 + n2, 0x80 + n1 % 0x40, 0x80 + n % 0x40]
    else [0xF0 + n3, 0x80 + n2 % 0x40, 0x80 + n1 % 0x40, 0x80 + n % 0x40]
  }

  function Utf8(s: string): seq<int> { if s == [] then [] else Encoded(s[0]) + Utf8(s[1..]) }

  /** How many bytes a scalar value takes that begins with this one. */
  function Taken(first: int): nat
  {
    if first < 0x80 then 1 else if first < 0xE0 then 2 else if first < 0xF0 then 3 else 4
  }

  /** The number these bytes encode. */
  function Decoded(bs: seq<int>): int
    requires bs != [] && |bs| == Taken(bs[0])
  {
    if |bs| == 1 then bs[0]
    else if |bs| == 2 then (bs[0] - 0xC0) * 0x40 + (bs[1] - 0x80)
    else if |bs| == 3 then ((bs[0] - 0xE0) * 0x40 + (bs[1] - 0x80)) * 0x40 + (bs[2] - 0x80)
    else (((bs[0] - 0xF0) * 0x40 + (bs[1] - 0x80)) * 0x40 + (bs[2] - 0x80)) * 0x40 + (bs[3] - 0x80)
  }

  /** The numbers a byte sequence encodes, one after another. */
  function DecodedAll(bs: seq<int>): seq<int>
  {
    if bs == [] || |bs| < Taken(bs[0]) then []
    else [Decoded(bs[..Taken(bs[0])])] + DecodedAll(bs[Taken(bs[0])..])
  }

  lemma CharBack(c: char)
    ensures |Encoded(c)| == Taken(Encoded(c)[0]) && Decoded(Encoded(c)) == c as int
    ensures forall i :: 0 <= i < |Encoded(c)| ==> 0 <= Encoded(c)[i] < 0x100
  {
    var n := c as int;
    assert n / 0x40 * 0x40 + n % 0x40 == n;
    assert n < 0x11_0000;
  }

  /** `ByteLen` is the number of bytes of an encoding from which the string can be read back. */
  lemma {:induction false} ByteLenExact(s: string)
    ensures ByteLen(s) == |Utf8(s)|
    ensures DecodedAll(Utf8(s)) == seq(|s|, i requires 0 <= i < |s| => s[i] as int)
    ensures forall i :: 0 <= i < |Utf8(s)| ==> 0 <= Utf8(s)[i] < 0x100
  {
    hide Encoded, Decoded;
    if s != [] {
      var head, tail := Encoded(s[0]), Utf8(s[1..]);
      ByteLenTail(s);
      ByteLenExact(s[1..]);
      CharBack(s[0]);
      WidthExact(s[0]);
      assert (head + tail)[..|head|] == head && (head + tail)[|head|..] == tail;
    }
  }

  lemma WidthExact(c: char)
    ensures |Encoded(c)| == Width(c)
  {
  }

  /** Trimming never makes a string longer in bytes, so a bound checked before trimming still holds after. */
  lemma {:induction false} TrimSpaceShrinks(s: string)
    ensures ByteLen(TrimSpace(s)) <= ByteLen(s)
  {
    TrimLeftShrinks(s);
    TrimRightShrinks(TrimLeft(s));
  }

  lemma {:induction false} TrimLeftShrinks(s: string)
    ensures ByteLen(TrimLeft(s)) <= ByteLen(s)
  {
    if s != [] && IsSpace(s[0]) {
      ByteLenTail(s);
      TrimLeftShrinks(s[1..]);
    }
  }

  lemma {:induction false} TrimRightShrinks(s: string)
    ensures ByteLen(TrimRight(s)) <= ByteLen(s)
  {
    if s != [] && IsSpace(s[|s| - 1]) {
      TrimRightShrinks(s[..|s| - 1]);
    }
  }

  lemma OneLetter()
    ensures TrimSpace("x") == "x" && ByteLen("x") == 1
  {
    assert TrimLeft("x") == "x";
    assert "x"[..0] == "";
  }
}
