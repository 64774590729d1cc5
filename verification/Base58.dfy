/** The bridge's base58 encoder, proved against a reference decoder. */
module Base58 {
  import opened Numbers

  /** The base58 characters, in their six alphabetic runs. */
  const ALPHABET: string := "123456789" + "ABCDEFGH" + "JKLMN" + "PQRSTUVWXYZ" + "abcdefghijk" + "mnopqrstuvwxyz"

  // ---- The reference decoder ----

  /** The first position of `c` in `s`; `|s|` if there is none. */
  function IndexOf(s: string, c: char): nat {
    if s == "" then 0 else if s[0] == c then 0 else 1 + IndexOf(s[1..], c)
  }

  /** The number a base58 string stands for, most significant character first. */
  function Value(s: string): nat {
    if s == "" then 0 else 58 * Value(s[..|s| - 1]) + IndexOf(ALPHABET, s[|s| - 1])
  }

  function LeadingOnes(s: string): nat {
    if s != "" && s[0] == '1' then 1 + LeadingOnes(s[1..]) else 0
  }

  /** The shortest big-endian byte string of a number. */
  function BigEndian(v: nat): Bytes {
    if v == 0 then [] else BigEndian(v / 256) + [v % 256]
  }

  function Zeros(n: nat): (z: Bytes)
    ensures |z| == n
  {
    seq(n, _ => 0)
  }

  /** A zero byte for each leading '1', then the bytes of the number. */
  function Decode(s: string): Bytes {
    Zeros(LeadingOnes(s)) + BigEndian(Value(s))
  }

  // ---- The numbers the encoder works with ----

  function Value256(b: Bytes): nat {
    if b == [] then 0 else 256 * Value256(b[..|b| - 1]) + b[|b| - 1]
  }

  /** Base-58 digits, least significant first. */
  function ValueLE(d: seq<nat>): nat {
    if d == [] then 0 else d[0] + 58 * ValueLE(d[1..])
  }

  function Pow58(n: nat): nat {
    if n == 0 then 1 else 58 * Pow58(n - 1)
  }

  predicate HasNonzero(b: Bytes) {
    exists i :: 0 <= i < |b| && b[i] != 0
  }

  predicate Digits(d: seq<nat>) {
    forall i :: 0 <= i < |d| ==> d[i] < 58
  }

  // ---- The alphabet has no repeats: it rises ----

  predicate Rising(s: string) {
    forall i, j :: 0 <= i < j < |s| ==> s[i] < s[j]
  }

  lemma RisingConcat(a: string, b: string)
    requires a != "" && b != "" && Rising(a) && Rising(b) && a[|a| - 1] < b[0]
    ensures Rising(a + b)
  {
    assert forall i :: 0 <= i < |a| ==> a[i] <= a[|a| - 1];
    assert forall i :: 0 <= i < |b| ==> b[0] <= b[i];
  }

  /** `n` consecutive characters from `c`. */
  function CharRun(c: char, n: nat): (s: string)
    requires c as int + n < 200
    ensures |s| == n && Rising(s)
    ensures n > 0 ==> s[0] == c && s[n - 1] as int == c as int + n - 1
  {
    seq(n, i requires 0 <= i < n => (c as int + i) as char)
  }

  lemma AlphabetRises()
    ensures |ALPHABET| == 58 && Rising(ALPHABET)
  {
    AlphabetRuns();
    var s := CharRun('1', 9);
    RisingConcat(s, CharRun('A', 8));
    s := s + CharRun('A', 8);
    RisingConcat(s, CharRun('J', 5));
    s := s + CharRun('J', 5);
    RisingConcat(s, CharRun('P', 11));
    s := s + CharRun('P', 11);
    RisingConcat(s, CharRun('a', 11));
    s := s + CharRun('a', 11);
    RisingConcat(s, CharRun('m', 14));
  }

  /** The characters: the digits without 0, the capitals without I and O, the small letters without l. */
  lemma AlphabetIs(c: char)
    ensures c in ALPHABET <==>
            || '1' <= c <= '9' || ('A' <= c <= 'Z' && c != 'I' && c != 'O') || ('a' <= c <= 'z' && c != 'l')
  {
    InRun(c, '1', 9);
    InRun(c, 'A', 8);
    InRun(c, 'J', 5);
    InRun(c, 'P', 11);
    InRun(c, 'a', 11);
    InRun(c, 'm', 14);
    AlphabetRuns();
  }

  lemma InRun(c: char, first: char, n: nat)
    requires first as int + n < 200
    ensures c in CharRun(first, n) <==> first as int <= c as int < first as int + n
  {
    if first as int <= c as int < first as int + n {
      assert CharRun(first, n)[c as int - first as int] == c;
    }
  }

  lemma AlphabetRuns()
    ensures ALPHABET == CharRun('1', 9) + CharRun('A', 8) + CharRun('J', 5) + CharRun('P', 11) + CharRun('a', 11)
                        + CharRun('m', 14)
  {
    assert "123456789" == CharRun('1', 9);
    assert "ABCDEFGH" == CharRun('A', 8);
    assert "JKLMN" == CharRun('J', 5);
    assert "PQRSTUVWXYZ" == CharRun('P', 11);
    assert "abcdefghijk" == CharRun('a', 11);
    assert "mnopqrstuvwxyz" == CharRun('m', 14);
  }

  lemma {:induction false} IndexInto(s: string, d: nat)
    requires d < |s| && Rising(s)
    ensures IndexOf(s, s[d]) == d
  {
    if d != 0 {
      assert s[1..][d - 1] == s[d];
      IndexInto(s[1..], d - 1);
    }
  }

  lemma AlphabetIndex(d: nat)
    requires d < 58
    ensures |ALPHABET| == 58 && IndexOf(ALPHABET, ALPHABET[d]) == d
    ensures ALPHABET[d] == '1' <==> d == 0
  {
    AlphabetRises();
    IndexInto(ALPHABET, d);
    assert ALPHABET[0] == '1';
  }

  lemma ValueSnoc(s: string, d: nat)
    requires d < 58
    ensures |ALPHABET| == 58 && Value(s + [ALPHABET[d]]) == 58 * Value(s) + d
  {
    AlphabetIndex(d);
    assert (s + [ALPHABET[d]])[..|s|] == s;
  }

  lemma {:induction false} ValueLESnoc(a: seq<nat>, d: nat)
    ensures ValueLE(a + [d]) == ValueLE(a) + Pow58(|a|) * d
  {
    if a == [] {
      assert [d][1..] == [];
    } else {
      assert (a + [d])[1..] == a[1..] + [d];
      ValueLESnoc(a[1..], d);
      assert 58 * (Pow58(|a| - 1) * d) == Pow58(|a|) * d;
    }
  }

  /** What the carry loops preserve: digits done, plus the carry and the digits still to be
      shifted, both weighted by the next place. */
  ghost function Total(done: seq<nat>, carry: nat, tail: seq<nat>): nat {
    ValueLE(done) + Pow58(|done|) * (carry + 256 * ValueLE(tail))
  }

  lemma CarryStep(p: nat, c: nat, rest: nat)
    ensures p * (c + 58 * rest) == p * (c % 58) + 58 * p * (c / 58 + rest)
  {
    var x := c / 58 + rest;
    assert c + 58 * rest == c % 58 + 58 * x;
    assert p * (c % 58 + 58 * x) == p * (c % 58) + p * (58 * x);
    assert p * (58 * x) == 58 * p * x;
  }

  lemma TotalShift(done: seq<nat>, carry: nat, tail: seq<nat>)
    requires tail != []
    ensures var c := carry + 256 * tail[0];
            Total(done, carry, tail) == Total(done + [c % 58], c / 58, tail[1..])
  {
    var c := carry + 256 * tail[0];
    CarryStep(Pow58(|done|), c, 256 * ValueLE(tail[1..]));
    ValueLESnoc(done, c % 58);
  }

  lemma TotalPush(done: seq<nat>, carry: nat)
    ensures Total(done, carry, []) == Total(done + [carry % 58], carry / 58, [])
  {
    CarryStep(Pow58(|done|), carry, 0);
    ValueLESnoc(done, carry % 58);
  }

  lemma {:induction false} BigEndianOfValue(b: Bytes)
    requires b == [] || b[0] != 0
    ensures BigEndian(Value256(b)) == b
    ensures b != [] ==> Value256(b) > 0
  {
    if b != [] {
      var n := |b| - 1;
      BigEndianOfValue(b[..n]);
      var v := Value256(b[..n]);
      assert Value256(b) == 256 * v + b[n];
      assert Value256(b) % 256 == b[n] && Value256(b) / 256 == v;
      assert b == b[..n] + [b[n]];
    }
  }

  lemma {:induction false} LeadingZerosAddNothing(b: Bytes, z: nat)
    requires z <= |b| && forall i :: 0 <= i < z ==> b[i] == 0
    ensures Value256(b) == Value256(b[z..])
    ensures z == |b| ==> Value256(b) == 0
  {
    if b != [] {
      var n := |b| - 1;
      if z <= n {
        LeadingZerosAddNothing(b[..n], z);
        assert b[z..][..n - z] == b[..n][z..];
      } else {
        LeadingZerosAddNothing(b[..n], n);
        assert b[z..] == [];
      }
    }
  }

  lemma {:induction false} LeadingOnesCount(s: string, k: nat)
    requires k <= |s| && (forall i :: 0 <= i < k ==> s[i] == '1') && (k < |s| ==> s[k] != '1')
    ensures LeadingOnes(s) == k
  {
    if k != 0 {
      LeadingOnesCount(s[1..], k - 1);
    }
  }

  lemma {:induction false} ValueOfOnes(s: string)
    requires forall i :: 0 <= i < |s| ==> s[i] == '1'
    ensures Value(s) == 0
  {
    if s != "" {
      AlphabetIndex(0);
      ValueOfOnes(s[..|s| - 1]);
    }
  }

  /** Published pairs: a lone byte, five bytes, and leading zeros. */
  lemma KnownDecodings()
    ensures Decode("2g") == [0x61]
    ensures Decode("ABnLTmg") == [0x51, 0x6b, 0x6f, 0xcd, 0x0f]
    ensures Decode("1112") == [0, 0, 0, 1]
  {
    KnownValues();
    hide Value;
    assert BigEndian(0x51_6b6f) == [0x51, 0x6b, 0x6f];
  }

  lemma KnownValues()
    ensures Value("2g") == 0x61 && Value("ABnLTmg") == 0x51_6b6f_cd0f && Value("1112") == 1
  {
    Positions();
    Read("", '2', "2", 0, 1);
    Read("2", 'g', "2g", 1, 39);
    Read("", 'A', "A", 0, 9);
    Read("A", 'B', "AB", 9, 10);
    Read("AB", 'n', "ABn", 532, 45);
    Read("ABn", 'L', "ABnL", 30901, 19);
    Read("ABnL", 'T', "ABnLT", 1792277, 26);
    Read("ABnLT", 'm', "ABnLTm", 103952092, 44);
    Read("ABnLTm", 'g', "ABnLTmg", 6029221380, 39);
    Read("", '1', "1", 0, 0);
    Read("1", '1', "11", 0, 0);
    Read("11", '1', "111", 0, 0);
    Read("111", '2', "1112", 0, 1);
    hide Value, IndexOf;
  }

  lemma Read(s: string, c: char, s': string, v: nat, d: nat)
    requires Value(s) == v && IndexOf(ALPHABET, c) == d && s' == s + [c]
    ensures Value(s') == 58 * v + d
  {
    assert s'[..|s|] == s;
  }

  lemma Positions()
    ensures forall i :: 0 <= i < |ALPHABET| ==> IndexOf(ALPHABET, ALPHABET[i]) == i
    ensures |ALPHABET| == 58 && ALPHABET[0] == '1' && ALPHABET[1] == '2' && ALPHABET[9] == 'A' && ALPHABET[10] == 'B'
    ensures ALPHABET[19] == 'L' && ALPHABET[26] == 'T' && ALPHABET[39] == 'g'
    ensures ALPHABET[44] == 'm' && ALPHABET[45] == 'n'
  {
    AlphabetRises();
    forall i | 0 <= i < |ALPHABET| ensures IndexOf(ALPHABET, ALPHABET[i]) == i {
      IndexInto(ALPHABET, i);
    }
  }

  // ---- The encoder ----

  /** The digits' top is nonzero, or will be once the pending carry is written. */
  predicate TopPending(digits: seq<nat>, carry: nat) {
    digits != [] && (carry > 0 || digits[|digits| - 1] != 0)
  }

  /** The inner `for`: multiply the digits by 256 in place and add the byte, leaving a carry. */
  method ShiftDigits(digits0: seq<nat>, b: byte) returns (digits: seq<nat>, carry: nat)
    requires digits0 != [] && Digits(digits0)
    ensures Digits(digits) && |digits| == |digits0| && carry <= 255
    ensures Total(digits, carry, []) == b + 256 * ValueLE(digits0)
    ensures digits0[|digits0| - 1] != 0 || (digits0 == [0] && b != 0) ==> TopPending(digits, carry)
  {
    digits := digits0;
    carry := b;
    var j := 0;
    assert digits0[0..] == digits0 && digits[..0] == [];
    while j < |digits|
      invariant 0 <= j <= |digits| == |digits0| && carry <= 255
      invariant Digits(digits)
      invariant digits[j..] == digits0[j..]
      invariant Total(digits[..j], carry, digits0[j..]) == b + 256 * ValueLE(digits0)
      invariant j == 0 ==> carry == b
      invariant j > 0 && digits0[j - 1] != 0 ==> carry > 0
      invariant j == 1 && digits0[0] == 0 && b != 0 ==> carry > 0 || digits[0] != 0
    {
      ghost var done, tail := digits[..j], digits0[j..];
      assert digits[j] == tail[0] == digits0[j] && tail[1..] == digits0[j + 1..];
      TotalShift(done, carry, tail);
      carry := carry + digits[j] * 256;
      digits := digits[j := carry % 58];
      carry := carry / 58;
      assert digits[..j + 1] == done + [digits[j]];
      assert digits[j + 1..] == digits0[j + 1..];
      j := j + 1;
    }
    assert digits0[j..] == [] && digits[..j] == digits;
  }

  /** One byte into the digits, by the two carry loops: the number becomes `256 * number + b`. */
  method AddByte(digits0: seq<nat>, b: byte) returns (digits: seq<nat>)
    requires digits0 != [] && Digits(digits0)
    ensures Digits(digits) && digits != []
    ensures ValueLE(digits) == b + 256 * ValueLE(digits0)
    ensures digits0[|digits0| - 1] != 0 || (digits0 == [0] && b != 0) ==> digits[|digits| - 1] != 0
  {
    var carry;
    digits, carry := ShiftDigits(digits0, b);
    while carry > 0
      invariant Digits(digits) && digits != []
      invariant Total(digits, carry, []) == b + 256 * ValueLE(digits0)
      invariant digits0[|digits0| - 1] != 0 || (digits0 == [0] && b != 0) ==> TopPending(digits, carry)
    {
      TotalPush(digits, carry);
      digits := digits + [carry % 58];
      carry := carry / 58;
    }
  }

  /** The output loops: a '1' per leading zero byte, then the digits from the top down. */
  method WriteOut(zeros: nat, digits: seq<nat>) returns (out: string)
    requires digits != [] && Digits(digits)
    ensures Value(out) == ValueLE(digits)
    ensures |ALPHABET| == 58 && |out| == zeros + |digits|
    ensures forall i :: 0 <= i < |out| ==> out[i] in ALPHABET
    ensures forall i :: 0 <= i < zeros ==> out[i] == '1'
    ensures out[zeros] == '1' <==> digits[|digits| - 1] == 0
  {
    AlphabetIndex(0);
    out := "";
    for i := 0 to zeros
      invariant |out| == i && forall k :: 0 <= k < i ==> out[k] == '1'
    {
      out := out + "1";
    }
    ValueOfOnes(out);
    var i := |digits| - 1;
    while i >= 0
      invariant -1 <= i < |digits| && |out| == zeros + (|digits| - 1 - i)
      invariant Value(out) == ValueLE(digits[i + 1..])
      invariant forall k :: 0 <= k < |out| ==> out[k] in ALPHABET
      invariant forall k :: 0 <= k < zeros ==> out[k] == '1'
      invariant i < |digits| - 1 ==> (out[zeros] == '1' <==> digits[|digits| - 1] == 0)
    {
      ValueSnoc(out, digits[i]);
      AlphabetIndex(digits[i]);
      assert digits[i..][1..] == digits[i + 1..];
      out := out + [ALPHABET[digits[i]]];
      i := i - 1;
    }
    assert digits[0..] == digits;
  }

  /** A string with a '1' per leading zero byte and then the number of the bytes decodes to the bytes. */
  lemma DecodesBack(bytes: Bytes, zeros: nat, out: string)
    requires zeros < |bytes| && bytes[zeros] != 0 && forall i :: 0 <= i < zeros ==> bytes[i] == 0
    requires Value(out) == Value256(bytes) && zeros < |out| && out[zeros] != '1'
    requires forall i :: 0 <= i < zeros ==> out[i] == '1'
    ensures Decode(out) == bytes
  {
    hide Value, Value256, BigEndian, LeadingOnes;
    LeadingZerosAddNothing(bytes, zeros);
    LeadingOnesCount(out, zeros);
    BigEndianOfValue(bytes[zeros..]);
    assert Zeros(zeros) == bytes[..zeros];
    assert Decode(out) == bytes[..zeros] + bytes[zeros..];
  }

  lemma OneTooMany(n: nat, out: string)
    requires |out| == n + 1 && forall i :: 0 <= i < n ==> out[i] == '1'
    requires out[n] == '1'
    ensures out == seq(n + 1, _ => '1')
    ensures |Decode(out)| > n
  {
    LeadingOnesCount(out, n + 1);
  }

  /** The number of the digits is the number of the bytes; the top digit is zero only for zero input. */
  method ToDigits(bytes: Bytes, zeros: nat) returns (digits: seq<nat>)
    requires zeros <= |bytes| && (zeros < |bytes| ==> bytes[zeros] != 0)
    requires forall i :: 0 <= i < zeros ==> bytes[i] == 0
    ensures digits != [] && Digits(digits) && ValueLE(digits) == Value256(bytes)
    ensures if zeros == |bytes| then digits == [0] else digits[|digits| - 1] != 0
  {
    digits := [0];
    var i := zeros;
    LeadingZerosAddNothing(bytes[..zeros], zeros);
    while i < |bytes|
      invariant zeros <= i <= |bytes|
      invariant digits != [] && Digits(digits)
      invariant ValueLE(digits) == Value256(bytes[..i])
      invariant if i == zeros then digits == [0] else digits[|digits| - 1] != 0
    {
      assert bytes[..i + 1][..i] == bytes[..i];
      digits := AddByte(digits, bytes[i]);
      i := i + 1;
    }
    assert bytes[..i] == bytes;
  }

  /** `bytesToBase58`.  The result decodes to the input exactly when the input has a nonzero
      byte; a string of `n` zero bytes comes out as `n + 1` ones, one too many. */
  method BytesToBase58(bytes: Bytes) returns (out: string)
    ensures forall i :: 0 <= i < |out| ==> out[i] in ALPHABET
    ensures Decode(out) == bytes <==> HasNonzero(bytes)
    ensures !HasNonzero(bytes) ==> out == seq(|bytes| + 1, _ => '1')
  {
    var zeros := 0;
    while zeros < |bytes| && bytes[zeros] == 0
      invariant 0 <= zeros <= |bytes|
      invariant forall i :: 0 <= i < zeros ==> bytes[i] == 0
    {
      zeros := zeros + 1;
    }
    var digits := ToDigits(bytes, zeros);
    out := WriteOut(zeros, digits);
    if zeros < |bytes| {
      DecodesBack(bytes, zeros, out);
      assert HasNonzero(bytes);
    } else {
      OneTooMany(|bytes|, out);
    }
  }
}
