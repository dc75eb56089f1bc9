/** Decimal integers as Go's strconv.Itoa and strconv.Atoi print and read them. */
module Strconv {
  import opened Wrappers

  type byte = b: int | 0 <= b < 256
  type bytes = seq<byte>

  const PLUS: byte := 43
  const MINUS: byte := 45

  /** Bounds of the 64-bit integers that strconv.Atoi accepts. */
  const MIN_INT: int := -0x8000_0000_0000_0000
  const MAX_INT: int := 0x7fff_ffff_ffff_ffff

  predicate IsDigit(b: byte) {
    48 <= b <= 57
  }

  predicate AllDigits(s: bytes) {
    forall i :: 0 <= i < |s| ==> IsDigit(s[i])
  }

  function Digits(n: nat): (s: bytes)
    ensures |s| > 0 && AllDigits(s)
  {
    if n < 10 then [48 + n] else Digits(n / 10) + [48 + n % 10]
  }

  function Itoa(n: int): (s: bytes)
    ensures |s| > 0 && forall i :: 0 <= i < |s| ==> IsDigit(s[i]) || s[i] == MINUS
  {
    if n < 0 then [MINUS] + Digits(-n) else Digits(n)
  }

  function DigitsValue(s: bytes): nat
    requires AllDigits(s)
  {
    if s == [] then 0 else 10 * DigitsValue(s[..|s| - 1]) + (s[|s| - 1] - 48)
  }

  /** Base ten with an optional sign; a value outside 64 bits is an error. */
  function Atoi(s: bytes): Option<int> {
    var body := if s != [] && (s[0] == MINUS || s[0] == PLUS) then s[1..] else s;
    if body == [] || !AllDigits(body) then None
    else
      var magnitude: int := DigitsValue(body);
      var n := if s[0] == MINUS then -magnitude else magnitude;
      if MIN_INT <= n <= MAX_INT then Some(n) else None
  }

  lemma {:induction false} DigitsRoundTrip(n: nat)
    ensures DigitsValue(Digits(n)) == n
  {
    if n < 10 {
      assert [48 + n][..0] == [];
    } else {
      DigitsRoundTrip(n / 10);
      assert (Digits(n / 10) + [48 + n % 10])[..|Digits(n)| - 1] == Digits(n / 10);
    }
  }

  lemma {:induction false} AtoiItoa(n: int)
    requires MIN_INT <= n <= MAX_INT
    ensures Atoi(Itoa(n)) == Some(n)
  {
    DigitsRoundTrip(if n < 0 then -n else n);
    assert n >= 0 ==> IsDigit(Itoa(n)[0]);
  }

  /** Positional notation: a digit appended is the last digit of ten times the number plus it. */
  lemma {:induction false} DigitsSnoc(m: nat, d: nat)
    requires d < 10
    ensures Digits(d) == [48 + d]
    ensures m > 0 ==> Digits(10 * m + d) == Digits(m) + [48 + d]
  {
    assert (10 * m + d) / 10 == m && (10 * m + d) % 10 == d;
  }

  function Zeros(k: nat): bytes {
    seq(k, _ => 48)
  }

  lemma {:induction false} ZerosDigits(k: nat, n: nat)
    ensures AllDigits(Zeros(k) + Digits(n)) && DigitsValue(Zeros(k) + Digits(n)) == n
  {
    var s := Zeros(k) + Digits(n);
    if n < 10 {
      assert s[..|s| - 1] == Zeros(k);
      ZerosValue(k);
    } else {
      assert s[..|s| - 1] == Zeros(k) + Digits(n / 10);
      ZerosDigits(k, n / 10);
    }
  }

  lemma {:induction false} ZerosValue(k: nat)
    ensures DigitsValue(Zeros(k)) == 0
  {
    if k > 0 {
      assert Zeros(k)[..k - 1] == Zeros(k - 1);
      ZerosValue(k - 1);
    }
  }

  lemma {:induction false} DigitsOf(s: bytes) returns (k: nat)
    requires s != [] && AllDigits(s)
    ensures s == Zeros(k) + Digits(DigitsValue(s))
  {
    var init, d := s[..|s| - 1], s[|s| - 1] - 48;
    if init == [] {
      k := 0;
    } else {
      k := DigitsOf(init);
      var m := DigitsValue(init);
      DigitsSnoc(m, d);
      if m == 0 {
        assert init == Zeros(k + 1);
        k := k + 1;
      }
      assert s == init + [48 + d];
    }
  }

  /** The text is an optional sign, any number of zeros and the digits of the number, in 64 bits. */
  ghost predicate Numeral(s: bytes, n: int) {
    && -0x8000_0000_0000_0000 <= n <= 0x7fff_ffff_ffff_ffff
    && exists k: nat, sign :: Written(s, n, k, sign)
  }

  ghost predicate Written(s: bytes, n: int, k: nat, sign: bytes) {
    || (n >= 0 && sign in {[], [43]} && s == sign + (Zeros(k) + Digits(n)))
    || (n <= 0 && sign == [45] && s == sign + (Zeros(k) + Digits(-n)))
  }

  lemma {:induction false} DigitsFirst(k: nat, n: nat)
    ensures var s := Zeros(k) + Digits(n); s != [] && 48 <= s[0] <= 57
  {
  }

  lemma {:induction false} AtoiParts(s: bytes) returns (sign: bytes, body: bytes)
    requires Atoi(s).Some?
    ensures s == sign + body && sign in {[], [43], [45]} && body != [] && AllDigits(body)
    ensures var m: int := DigitsValue(body);
            MIN_INT <= Atoi(s).value <= MAX_INT && Atoi(s).value == if sign == [45] then -m else m
  {
    hide DigitsValue;
    if s[0] == MINUS || s[0] == PLUS {
      sign, body := [s[0]], s[1..];
    } else {
      sign, body := [], s;
    }
  }

  lemma {:induction false} AtoiIsNumeral(s: bytes)
    requires Atoi(s).Some?
    ensures Numeral(s, Atoi(s).value)
  {
    var sign, body := AtoiParts(s);
    var k := DigitsOf(body);
    hide Atoi, Digits, Zeros, DigitsValue, AllDigits;
    assert Written(s, Atoi(s).value, k, sign);
  }

  lemma {:induction false} SignedDigits(sign: bytes, body: bytes)
    requires sign in {[], [43], [45]} && body != [] && AllDigits(body) && 48 <= body[0]
    ensures var m: int := DigitsValue(body);
            var n := if sign == [45] then -m else m;
            Atoi(sign + body) == if MIN_INT <= n <= MAX_INT then Some(n) else None
  {
    hide DigitsValue;
    var s := sign + body;
    if sign == [] {
      assert s == body;
    } else {
      assert s[1..] == body && s[0] == sign[0];
    }
  }

  /** Atoi reads exactly the numerals. */
  lemma {:induction false} AtoiReads(s: bytes, n: int)
    ensures Atoi(s) == Some(n) <==> Numeral(s, n)
  {
    if Atoi(s) == Some(n) {
      AtoiIsNumeral(s);
    }
    if Numeral(s, n) {
      var k: nat, sign :| Written(s, n, k, sign);
      WrittenReads(s, n, k, sign);
    }
  }

  lemma {:induction false} WrittenReads(s: bytes, n: int, k: nat, sign: bytes)
    requires MIN_INT <= n <= MAX_INT && Written(s, n, k, sign)
    ensures Atoi(s) == Some(n)
  {
    var m: nat := if n < 0 then -n else n;
    ZerosDigits(k, m);
    DigitsFirst(k, m);
    hide Digits, Zeros, DigitsValue, Atoi, AllDigits;
    var body := Zeros(k) + Digits(m);
    assert s == sign + body && (sign == [45] ==> m + n == 0) && (sign != [45] ==> n == m);
    hide Written;
    SignedDigits(sign, body);
  }

  /** Atoi of a string; a character beyond ASCII is no digit and no sign. */
  function AtoiText(s: string): Option<int> {
    if exists i :: 0 <= i < |s| && s[i] as int >= 128 then None
    else Atoi(seq(|s|, i requires 0 <= i < |s| => (s[i] as int) as byte))
  }

  /** The characters of ASCII bytes. */
  function Text(b: bytes): string
    requires forall i :: 0 <= i < |b| ==> b[i] < 128
  {
    seq(|b|, i requires 0 <= i < |b| => b[i] as char)
  }

  /** Only ASCII text is read, and reads like its bytes. */
  lemma {:induction false} AtoiTextReads(s: string, n: int)
    ensures AtoiText(s) == Some(n) <==>
            exists b: bytes :: (forall i :: 0 <= i < |b| ==> b[i] < 128) && s == Text(b) && Numeral(b, n)
  {
    hide Numeral, Atoi;
    if exists i :: 0 <= i < |s| && s[i] as int >= 128 {
      assert AtoiText(s) == None;
    } else {
      var b: bytes := seq(|s|, i requires 0 <= i < |s| => (s[i] as int) as byte);
      assert s == Text(b);
      AtoiReads(b, n);
      forall c: bytes | (forall i :: 0 <= i < |c| ==> c[i] < 128) && s == Text(c) ensures c == b {
        assert forall i :: 0 <= i < |c| ==> Text(c)[i] as int == c[i];
      }
    }
  }

  predicate TextDigits(s: string) {
    s != "" && forall i :: 0 <= i < |s| ==> '0' <= s[i] <= '9'
  }

  /** The number Atoi returns besides its error: zero for text that is none, the nearest limit beyond 64 bits. */
  function AtoiLenient(s: string): int {
    var n := AtoiText(s);
    if n.Some? then n.value
    else
      var sign := s != "" && (s[0] == '-' || s[0] == '+');
      var body := if sign then s[1..] else s;
      if !TextDigits(body) then 0
      else if s != "" && s[0] == '-' then MIN_INT else MAX_INT
  }

  lemma {:induction false} FirstDigit(s: string)
    ensures TextDigits(s) ==> s != "" && s[0] !in {'+', '-'}
  {
  }

  /** Text that is no number reads as zero, a number beyond 64 bits as the nearest limit. */
  lemma {:induction false} AtoiLenientReads(s: string, d: string)
    ensures AtoiText(s).Some? ==> AtoiLenient(s) == AtoiText(s).value
    ensures !TextDigits(s) && (s == "" || s[0] !in {'+', '-'} || !TextDigits(s[1..])) ==> AtoiLenient(s) == 0
    ensures AtoiText(s).None? && TextDigits(d) && s in {d, ['+'] + d} ==> AtoiLenient(s) == 0x7fff_ffff_ffff_ffff
    ensures AtoiText(s).None? && TextDigits(d) && s == ['-'] + d ==> AtoiLenient(s) == -0x8000_0000_0000_0000
  {
    if AtoiText(s).Some? {
      NumberText(s);
    } else {
      hide AtoiText, TextDigits;
      assert s == ['-'] + d || s == ['+'] + d ==> s[1..] == d;
      assert TextDigits(d) ==> d != "" && d[0] !in {'+', '-'} by {
        FirstDigit(d);
      }
    }
  }

  /** What Atoi reads is digits behind at most a sign. */
  lemma {:induction false} NumberText(s: string)
    requires AtoiText(s).Some?
    ensures TextDigits(s) || (s != "" && s[0] in {'+', '-'} && TextDigits(s[1..]))
  {
    var b: bytes := seq(|s|, i requires 0 <= i < |s| => (s[i] as int) as byte);
    var body := if b[0] == MINUS || b[0] == PLUS then b[1..] else b;
    assert AllDigits(body);
    if b[0] == MINUS || b[0] == PLUS {
      forall i | 0 <= i < |s[1..]| ensures '0' <= s[1..][i] <= '9' {
        assert IsDigit(body[i]);
      }
    } else {
      forall i | 0 <= i < |s| ensures '0' <= s[i] <= '9' {
        assert IsDigit(body[i]);
      }
    }
  }

  function ItoaText(n: int): string {
    var b := Itoa(n);
    seq(|b|, i requires 0 <= i < |b| => b[i] as char)
  }

  lemma {:induction false} AtoiItoaText(n: int)
    requires MIN_INT <= n <= MAX_INT
    ensures AtoiText(ItoaText(n)) == Some(n)
  {
    var b, s := Itoa(n), ItoaText(n);
    assert forall i :: 0 <= i < |s| ==> s[i] as int == b[i] && b[i] < 128;
    assert seq(|s|, i requires 0 <= i < |s| => (s[i] as int) as byte) == b;
    AtoiItoa(n);
  }
}
