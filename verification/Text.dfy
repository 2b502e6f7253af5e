/** The string functions that group lists and port lists go through: splitting, trimming, decimal numbers. */
module Text {
  import opened Prelude

  /** Go's `int` on a 64-bit platform. */
  type Int64 = n: int | -0x8000_0000_0000_0000 <= n < 0x8000_0000_0000_0000

  /** The code points that Unicode calls white space. */
  predicate IsSpace(c: char) {
    var n := c as int;
    || 9 <= n <= 13 || n == 32 || n == 0x85 || n == 0xA0 || n == 0x1680 || 0x2000 <= n <= 0x200A
    || n == 0x2028 || n == 0x2029 || n == 0x202F || n == 0x205F || n == 0x3000
  }

  function TrimLeft(s: string): string {
    if s != "" && IsSpace(s[0]) then TrimLeft(s[1..]) else s
  }

  function TrimRight(s: string): string {
    if s != "" && IsSpace(s[|s| - 1]) then TrimRight(s[..|s| - 1]) else s
  }

  function TrimSpace(s: string): string {
    TrimRight(TrimLeft(s))
  }

  predicate AllSpace(s: string) {
    forall i :: 0 <= i < |s| ==> IsSpace(s[i])
  }

  lemma {:induction false} TrimLeftCuts(s: string) returns (a: string)
    ensures s == a + TrimLeft(s) && AllSpace(a)
    ensures TrimLeft(s) != "" ==> !IsSpace(TrimLeft(s)[0])
  {
    if s != "" && IsSpace(s[0]) {
      a := TrimLeftCuts(s[1..]);
      a := [s[0]] + a;
      assert s == [s[0]] + s[1..];
    } else {
      a := "";
    }
  }

  lemma {:induction false} TrimRightCuts(s: string) returns (b: string)
    ensures s == TrimRight(s) + b && AllSpace(b)
    ensures TrimRight(s) != "" ==> !IsSpace(TrimRight(s)[|TrimRight(s)| - 1])
  {
    if s != "" && IsSpace(s[|s| - 1]) {
      b := TrimRightCuts(s[..|s| - 1]);
      b := b + [s[|s| - 1]];
      assert s == s[..|s| - 1] + [s[|s| - 1]];
    } else {
      b := "";
    }
  }

  /** Trimming cuts white space from both ends, all of it and nothing else. */
  lemma TrimSpaceCuts(s: string) returns (a: string, b: string)
    ensures s == a + TrimSpace(s) + b && AllSpace(a) && AllSpace(b)
    ensures TrimSpace(s) != "" ==> !IsSpace(TrimSpace(s)[0]) && !IsSpace(TrimSpace(s)[|TrimSpace(s)| - 1])
  {
    a := TrimLeftCuts(s);
    b := TrimRightCuts(TrimLeft(s));
    hide IsSpace, AllSpace, TrimLeft, TrimRight;
  }

  /** `strings.Split(s, ",")`. */
  function Split(s: string): (parts: seq<string>)
    ensures |parts| >= 1
  {
    if s == "" then [""]
    else if s[0] == ',' then [""] + Split(s[1..])
    else
      var rest := Split(s[1..]);
      [[s[0]] + rest[0]] + rest[1..]
  }

  /** `strings.Join(parts, ",")`. */
  function Join(parts: seq<string>): string {
    if |parts| == 0 then ""
    else if |parts| == 1 then parts[0]
    else parts[0] + "," + Join(parts[1..])
  }

  lemma {:induction false} SplitThenJoin(s: string)
    ensures Join(Split(s)) == s
    ensures forall p :: p in Split(s) ==> ',' !in p
  {
    if s != "" {
      SplitThenJoin(s[1..]);
      var rest := Split(s[1..]);
      assert s == [s[0]] + s[1..];
      if s[0] == ',' {
        assert Split(s)[1..] == rest;
        assert Join(Split(s)) == "" + "," + Join(rest);
      } else {
        var parts := Split(s);
        assert parts[0] == [s[0]] + rest[0] && parts[1..] == rest[1..];
        assert Join(parts) == [s[0]] + Join(rest);
        assert rest[0] in rest;
        assert forall p :: p in parts ==> p == parts[0] || p in rest;
      }
    }
  }

  lemma {:induction false} SplitCommaFree(s: string)
    requires ',' !in s
    ensures Split(s) == [s]
  {
    if s != "" {
      assert s[0] in s && s == [s[0]] + s[1..];
      SplitCommaFree(s[1..]);
    }
  }

  lemma {:induction false} SplitAtComma(p: string, rest: string)
    requires ',' !in p
    ensures Split(p + "," + rest) == [p] + Split(rest)
  {
    var s := p + "," + rest;
    if p == "" {
      assert s[1..] == rest;
    } else {
      assert p[0] in p && s[0] == p[0];
      SplitAtComma(p[1..], rest);
      assert s[1..] == p[1..] + "," + rest;
      assert [p[0]] + p[1..] == p;
      assert Split(s) == [p] + Split(rest);
    }
  }

  /** Splitting undoes joining comma-free parts. */
  lemma {:induction false} JoinThenSplit(parts: seq<string>)
    requires |parts| >= 1 && forall p :: p in parts ==> ',' !in p
    ensures Split(Join(parts)) == parts
  {
    if |parts| == 1 {
      SplitCommaFree(parts[0]);
    } else {
      JoinThenSplit(parts[1..]);
      SplitAtComma(parts[0], Join(parts[1..]));
    }
  }

  // ---- decimal numbers ----------------------------------------------------------

  predicate IsDigit(c: char) {
    '0' <= c <= '9'
  }

  function Digit(d: nat): char
    requires d < 10
  {
    '0' + d as char
  }

  function Digits(n: nat): string {
    if n < 10 then [Digit(n)] else Digits(n / 10) + [Digit(n % 10)]
  }

  /** `strconv.Itoa`. */
  function Itoa(n: int): string {
    if n < 0 then "-" + Digits(-n) else Digits(n)
  }

  predicate AllDigits(s: string) {
    forall i :: 0 <= i < |s| ==> IsDigit(s[i])
  }

  function DigitsValue(s: string): nat
    requires AllDigits(s)
  {
    if s == "" then 0
    else 10 * DigitsValue(s[..|s| - 1]) + (s[|s| - 1] as int - '0' as int)
  }

  function InInt64(n: int): Option<Int64> {
    if -0x8000_0000_0000_0000 <= n < 0x8000_0000_0000_0000 then Some(n) else None
  }

  /** Arithmetic on 64 bits wraps around. */
  function Wrapped(n: int): (w: Int64)
    ensures InInt64(n).Some? ==> w == n
  {
    (n + 0x8000_0000_0000_0000) % 0x1_0000_0000_0000_0000 - 0x8000_0000_0000_0000
  }

  /** `strconv.Atoi`: an optional sign and at least one digit, within 64 bits. */
  function Atoi(s: string): Option<Int64> {
    var signed := s != "" && (s[0] == '-' || s[0] == '+');
    var digits := if signed then s[1..] else s;
    if digits == "" || !AllDigits(digits) then None
    else
      var value: int := DigitsValue(digits);
      InInt64(if signed && s[0] == '-' then -value else value)
  }

  lemma {:induction false} DigitsRoundTrip(n: nat)
    ensures |Digits(n)| >= 1 && AllDigits(Digits(n)) && DigitsValue(Digits(n)) == n
  {
    if n >= 10 {
      DigitsRoundTrip(n / 10);
      assert Digits(n)[..|Digits(n)| - 1] == Digits(n / 10);
    }
  }

  /** `Atoi` undoes `Itoa`. */
  lemma ItoaThenAtoi(n: Int64)
    ensures Atoi(Itoa(n)) == Some(n)
  {
    var m: int := n;
    DigitsRoundTrip(if m < 0 then -m else m);
    if m < 0 {
      assert Itoa(m)[1..] == Digits(-m);
    } else {
      assert IsDigit(Digits(m)[0]);
    }
  }

  lemma {:induction false} DigitsLead(n: nat)
    ensures |Digits(n)| >= 1 && IsDigit(Digits(n)[0])
  {
    if n >= 10 {
      DigitsLead(n / 10);
    }
  }

  /** A printed number holds neither commas, colons, brackets nor white space. */
  lemma ItoaIsPlain(n: int)
    ensures Itoa(n) != "" && forall c :: c in Itoa(n) ==> IsDigit(c) || c == '-'
    ensures TrimSpace(Itoa(n)) == Itoa(n)
  {
    DigitsRoundTrip(if n < 0 then -n else n);
    var s := Itoa(n);
    forall c | c in s
      ensures (IsDigit(c) || c == '-') && !IsSpace(c)
    {
    }
    assert !IsSpace(s[0]) && !IsSpace(s[|s| - 1]);
  }

  /** No two numbers are printed alike. */
  lemma ItoaInjective(a: int, b: int)
    requires Itoa(a) == Itoa(b)
    ensures a == b
  {
    DigitsRoundTrip(if a < 0 then -a else a);
    DigitsRoundTrip(if b < 0 then -b else b);
    DigitsLead(if a < 0 then -a else a);
    DigitsLead(if b < 0 then -b else b);
    if a < 0 {
      assert Itoa(a)[1..] == Digits(-a);
    }
    if b < 0 {
      assert Itoa(b)[1..] == Digits(-b);
    }
  }

  // ---- which texts are numbers ---------------------------------------------------------

  function Zeros(z: nat): string {
    seq(z, _ => '0')
  }

  function Size(n: int): nat {
    if n < 0 then -n else n
  }

  predicate Signs(sign: string, n: int) {
    if n < 0 then sign == "-" else if n == 0 then sign == "" || sign == "+" || sign == "-" else sign == "" || sign == "+"
  }

  /** The text is the number: an optional sign, leading zeros, and its plain digits. */
  ghost predicate Writes(s: string, n: int) {
    exists sign: string, z: nat :: Signs(sign, n) && s == sign + (Zeros(z) + Digits(Size(n)))
  }

  lemma {:induction false} DigitsOf(s: string) returns (z: nat)
    requires AllDigits(s) && s != ""
    ensures s == Zeros(z) + Digits(DigitsValue(s))
  {
    if |s| == 1 {
      z := 0;
      assert DigitsValue(s[..0]) == 0;
      assert s == [Digit(DigitsValue(s))];
    } else {
      var init := s[..|s| - 1];
      z := DigitsOf(init);
      if DigitsValue(init) == 0 {
        z := z + 1;
      }
      assert s == init + [s[|s| - 1]];
    }
  }

  lemma {:induction false} LeadingZeros(z: nat, s: string)
    requires AllDigits(s)
    ensures AllDigits(Zeros(z) + s) && DigitsValue(Zeros(z) + s) == DigitsValue(s)
    decreases z + |s|
  {
    var t := Zeros(z) + s;
    if s != "" {
      LeadingZeros(z, s[..|s| - 1]);
      assert t[..|t| - 1] == Zeros(z) + s[..|s| - 1];
    } else if z > 0 {
      LeadingZeros(z - 1, "");
      assert t[..|t| - 1] == Zeros(z - 1) + "";
    } else {
      assert t == "";
    }
  }

  lemma {:induction false} WrittenValue(digits: string, z: nat, m: nat)
    requires digits == Zeros(z) + Digits(m)
    ensures digits != "" && AllDigits(digits) && DigitsValue(digits) == m
  {
    DigitsRoundTrip(m);
    LeadingZeros(z, Digits(m));
  }

  lemma {:induction false} AtoiOf(sign: string, digits: string)
    requires sign == "" || sign == "+" || sign == "-"
    requires digits != "" && AllDigits(digits)
    ensures Atoi(sign + digits) == InInt64(if sign == "-" then -(DigitsValue(digits) as int) else DigitsValue(digits))
  {
    hide DigitsValue;
    assert IsDigit(digits[0]);
    var s := sign + digits;
    if sign == "" {
      assert s == digits;
    } else {
      assert s[1..] == digits;
    }
  }

  lemma AtoiParts(s: string) returns (sign: string, digits: string)
    requires Atoi(s).Some?
    ensures sign == "" || sign == "+" || sign == "-"
    ensures s == sign + digits && digits != "" && AllDigits(digits)
  {
    hide DigitsValue;
    if s[0] == '-' || s[0] == '+' {
      sign, digits := s[..1], s[1..];
    } else {
      sign, digits := "", s;
    }
  }

  /** Exactly which texts are read as a number. */
  lemma AtoiExactly(s: string, n: Int64)
    ensures Atoi(s) == Some(n) <==> Writes(s, n)
  {
    hide Digits, DigitsValue, AllDigits, Atoi, Zeros;
    if Writes(s, n) {
      var sign, z: nat :| Signs(sign, n) && s == sign + (Zeros(z) + Digits(Size(n)));
      WrittenValue(Zeros(z) + Digits(Size(n)), z, Size(n));
      AtoiOf(sign, Zeros(z) + Digits(Size(n)));
    }
    if Atoi(s) == Some(n) {
      var sign, digits := AtoiParts(s);
      AtoiOf(sign, digits);
      var z := DigitsOf(digits);
      assert Size(n) == DigitsValue(digits) && Signs(sign, n);
      assert s == sign + (Zeros(z) + Digits(Size(n)));
    }
  }
}
