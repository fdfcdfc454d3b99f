/** The few string primitives the kernel takes from the Rust standard library:
    splitting on a character, numerals in base 8 and 10, and hexadecimal bytes. */
module Text {
  import opened Wrappers

  // ---- splitting and joining ----

  predicate Has(s: string, c: char) { exists i :: 0 <= i < |s| && s[i] == c }

  lemma HasAppend(a: string, b: string, c: char)
    ensures Has(a + b, c) <==> Has(a, c) || Has(b, c)
  {
    if i :| 0 <= i < |a| && a[i] == c { assert (a + b)[i] == c; }
    if i :| 0 <= i < |b| && b[i] == c { assert (a + b)[|a| + i] == c; }
  }

  /** The pieces of `s` between occurrences of `c`; always at least one. */
  function Split(s: string, c: char): (parts: seq<string>)
    ensures |parts| >= 1
    ensures forall i :: 0 <= i < |parts| ==> !Has(parts[i], c)
  {
    if s == [] then [[]]
    else
      var rest := Split(s[1..], c);
      if s[0] == c then [[]] + rest else [[s[0]] + rest[0]] + rest[1..]
  }

  function Join(parts: seq<string>, sep: string): string
    requires |parts| >= 1
  {
    if |parts| == 1 then parts[0] else parts[0] + sep + Join(parts[1..], sep)
  }

  /** `Split` undoes `Join` on pieces free of the separator. */
  lemma {:induction false} SplitJoin(parts: seq<string>, c: char)
    requires |parts| >= 1
    requires forall i :: 0 <= i < |parts| ==> !Has(parts[i], c)
    ensures Split(Join(parts, [c]), c) == parts
  {
    if |parts| == 1 {
      SplitWhole(parts[0], c);
    } else {
      SplitHead(parts[0], Join(parts[1..], [c]), c);
      SplitJoin(parts[1..], c);
      assert parts[0] + [c] + Join(parts[1..], [c]) == parts[0] + ([c] + Join(parts[1..], [c]));
    }
  }

  lemma {:induction false} SplitWhole(s: string, c: char)
    requires !Has(s, c)
    ensures Split(s, c) == [s]
  {
    if s != [] {
      assert s[0] != c;
      assert forall i :: 0 <= i < |s[1..]| ==> s[1..][i] == s[i + 1];
      SplitWhole(s[1..], c);
      assert [s[0]] + s[1..] == s;
    }
  }

  lemma {:induction false} SplitHead(head: string, tail: string, c: char)
    requires !Has(head, c)
    ensures Split(head + ([c] + tail), c) == [head] + Split(tail, c)
  {
    var s := head + ([c] + tail);
    if head == [] {
      assert s == [c] + tail;
      assert s[1..] == tail;
    } else {
      assert head[0] != c;
      assert forall i :: 0 <= i < |head[1..]| ==> head[1..][i] == head[i + 1];
      SplitHead(head[1..], tail, c);
      assert s[1..] == head[1..] + ([c] + tail);
      assert [head[0]] + head[1..] == head;
    }
  }

  // ---- numerals ----

  predicate IsDigit(c: char) { '0' <= c <= '9' }

  predicate AllDigits(s: string) { forall i :: 0 <= i < |s| ==> IsDigit(s[i]) }

  predicate AllBelow(s: string, base: nat)
  {
    forall i :: 0 <= i < |s| ==> '0' <= s[i] && s[i] as int - '0' as int < base
  }

  /** A base the kernel prints numbers in. */
  type Base = b: nat | b == 8 || b == 10 witness 10

  function DigitChar(d: nat): (c: char)
    requires d < 10
    ensures IsDigit(c) && c as int - '0' as int == d
  {
    ('0' as int + d) as char
  }

  /** The shortest numeral of `n`. */
  function Numeral(n: nat, base: Base): (s: string)
    ensures |s| >= 1 && AllBelow(s, base)
    ensures AllDigits(s)
    decreases n
  {
    if n < base then [DigitChar(n)]
    else if base == 8 then Numeral(n / 8, base) + [DigitChar(n % 8)]
    else Numeral(n / 10, base) + [DigitChar(n % 10)]
  }

  /** What a digit string denotes; leading zeros are allowed. */
  function NumeralValue(s: string, base: Base): nat
    requires AllBelow(s, base)
  {
    if s == [] then 0
    else
      base * NumeralValue(s[..|s| - 1], base) + (s[|s| - 1] as int - '0' as int)
  }

  lemma {:induction false} NumeralRoundTrip(n: nat, base: Base)
    ensures NumeralValue(Numeral(n, base), base) == n
    decreases n
  {
    var s := Numeral(n, base);
    if n < base {
      assert s[..0] == [];
    } else {
      var k := if base == 8 then n / 8 else n / 10;
      assert s[..|s| - 1] == Numeral(k, base);
      NumeralRoundTrip(k, base);
    }
  }

  function Zeros(n: nat): (s: string)
    ensures |s| == n && forall i :: 0 <= i < n ==> s[i] == '0'
  {
    seq(n, _ => '0')
  }

  lemma {:induction false} LeadingZeros(k: nat, s: string, base: Base)
    requires AllBelow(s, base)
    ensures AllBelow(Zeros(k) + s, base)
    ensures NumeralValue(Zeros(k) + s, base) == NumeralValue(s, base)
    decreases k + |s|
  {
    var t := Zeros(k) + s;
    if s != [] {
      assert t[..|t| - 1] == Zeros(k) + s[..|s| - 1];
      LeadingZeros(k, s[..|s| - 1], base);
    } else if k > 0 {
      assert t[..|t| - 1] == Zeros(k - 1) + s;
      LeadingZeros(k - 1, s, base);
    }
  }

  /** Decimal text of a signed integer. */
  function IntText(i: int): string
  {
    if i < 0 then "-" + Numeral(-i, 10) else Numeral(i, 10)
  }

  predicate StartsWith(s: string, prefix: string) { prefix <= s }

  const USIZE_MAX: nat := 0xFFFF_FFFF_FFFF_FFFF

  /** `str::parse::<usize>`: an optional plus sign, then digits that fit. */
  function ParseUsize(s: string): Option<nat>
  {
    var digits := if StartsWith(s, "+") then s[1..] else s;
    if digits == "" || !AllDigits(digits) then None
    else if NumeralValue(digits, 10) > USIZE_MAX then None
    else Some(NumeralValue(digits, 10))
  }

  lemma NumeralRead(n: nat)
    requires n <= USIZE_MAX
    ensures ParseUsize(Numeral(n, 10)) == Some(n)
  {
    NumeralRoundTrip(n, 10);
    assert IsDigit(Numeral(n, 10)[0]);
  }

  /** Unicode White_Space, as `str::trim` strips it. */
  predicate IsWhitespace(c: char)
  {
    var u := c as int;
    || 0x9 <= u <= 0xD || u == 0x20 || u == 0x85 || u == 0xA0 || u == 0x1680
    || 0x2000 <= u <= 0x200A || u == 0x2028 || u == 0x2029 || u == 0x202F || u == 0x205F || u == 0x3000
  }

  function Trim(s: string): (t: string)
    ensures |t| <= |s|
  {
    if s == "" then s
    else if IsWhitespace(s[0]) then Trim(s[1..])
    else if IsWhitespace(s[|s| - 1]) then Trim(s[..|s| - 1])
    else s
  }
}
