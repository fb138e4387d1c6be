/** The hex key decoder of src/app.c and the two-digit print of the decoded key. */
module HexKey {

  type Byte = x: int | 0 <= x < 256

  const EINVAL: int := 22

  predicate IsHex(c: char) { '0' <= c <= '9' || 'a' <= c <= 'f' || 'A' <= c <= 'F' }

  predicate IsSpace(c: char) { c == ' ' || 9 as char <= c <= 13 as char }

  function DigitValue(c: char): nat
    requires IsHex(c)
  {
    if c <= '9' then c as int - '0' as int
    else if c <= 'F' then c as int - 'A' as int + 10
    else c as int - 'a' as int + 10
  }

  /** The value of the hex digits at the start of `s`, after the digits worth `acc`. */
  function LeadingDigits(s: string, acc: nat): nat {
    if s == [] || !IsHex(s[0]) then acc else LeadingDigits(s[1..], 16 * acc + DigitValue(s[0]))
  }

  /** strtol in base 16 on a string too short for an effective `0x` prefix: white space, a sign, and
      as many digits as there are; 0 if there are none. */
  function Strtol16(s: string): int {
    if s == [] then 0
    else if IsSpace(s[0]) then Strtol16(s[1..])
    else if s[0] == '-' then var v: int := LeadingDigits(s[1..], 0); -v
    else if s[0] == '+' then LeadingDigits(s[1..], 0)
    else LeadingDigits(s, 0)
  }

  /** Two characters as one byte; the assignment to `uint8_t` keeps the value modulo 256. */
  function PairValue(c: char, d: char): Byte { Strtol16([c, d]) % 256 }

  function Decode(s: string): seq<Byte>
    requires |s| % 2 == 0
  {
    seq(|s| / 2, i requires 0 <= i < |s| / 2 => PairValue(s[2 * i], s[2 * i + 1]))
  }

  method BytesFromStr(str: string, bytes: array<Byte>) returns (ret: int)
    modifies bytes
    ensures ret == 0 <==> |str| == 2 * bytes.Length
    ensures ret == 0 ==> bytes[..] == Decode(str)
    ensures ret != 0 ==> ret == -22 && bytes[..] == old(bytes[..])
  {
    if |str| != bytes.Length * 2 {
      return -EINVAL;
    }
    for i := 0 to bytes.Length
      invariant forall k :: 0 <= k < i ==> bytes[k] == Decode(str)[k]
    {
      var byteStr := str[2 * i..2 * i + 2];
      assert byteStr == [str[2 * i], str[2 * i + 1]];
      bytes[i] := Strtol16(byteStr) % 256;
    }
    return 0;
  }

  // ----- the print --------------------------------------------------------------------------------

  function HexDigit(v: int): (c: char)
    requires 0 <= v < 16
    ensures IsHex(c) && DigitValue(c) == v && ToLower(c) == c
  {
    if v < 10 then ('0' as int + v) as char else ('a' as int + v - 10) as char
  }

  function PrintByte(b: Byte): string { [HexDigit(b / 16), HexDigit(b % 16)] }

  function Print(bytes: seq<Byte>): string {
    seq(2 * |bytes|, i requires 0 <= i < 2 * |bytes| => PrintByte(bytes[i / 2])[i % 2])
  }

  method LogKey(key: array<Byte>) returns (text: string)
    ensures text == Print(key[..])
  {
    text := "";
    for i := 0 to key.Length
      invariant |text| == 2 * i
      invariant forall k :: 0 <= k < 2 * i ==> text[k] == PrintByte(key[k / 2])[k % 2]
    {
      text := text + PrintByte(key[i]);
    }
  }

  function ToLower(c: char): char { if 'A' <= c <= 'Z' then (c as int + 32) as char else c }

  function Lower(s: string): string { seq(|s|, i requires 0 <= i < |s| => ToLower(s[i])) }

  predicate AllHex(s: string) { forall i :: 0 <= i < |s| ==> IsHex(s[i]) }

  // ----- round trips -------------------------------------------------------------------------------

  lemma PairOfDigits(c: char, d: char)
    requires IsHex(c) && IsHex(d)
    ensures PairValue(c, d) == 16 * DigitValue(c) + DigitValue(d)
  {
    var s := [c, d];
    assert s[1..] == [d] && [d][1..] == [];
    assert LeadingDigits(s, 0) == LeadingDigits([d], DigitValue(c));
    assert LeadingDigits([d], DigitValue(c)) == LeadingDigits([], 16 * DigitValue(c) + DigitValue(d));
  }

  lemma DecodePrint(bytes: seq<Byte>)
    ensures |Print(bytes)| == 2 * |bytes| && Decode(Print(bytes)) == bytes
  {
    var s := Print(bytes);
    forall i | 0 <= i < |bytes| ensures Decode(s)[i] == bytes[i] {
      assert s[2 * i] == PrintByte(bytes[i])[0] && s[2 * i + 1] == PrintByte(bytes[i])[1];
      PrintedPair(bytes[i]);
    }
  }

  lemma PrintedPair(b: Byte)
    ensures PairValue(PrintByte(b)[0], PrintByte(b)[1]) == b
  {
    PairOfDigits(HexDigit(b / 16), HexDigit(b % 16));
  }

  lemma HexDigitOf(c: char)
    requires IsHex(c)
    ensures HexDigit(DigitValue(c)) == ToLower(c)
  {
  }

  lemma PrintOf(v: Byte, a: nat, b: nat)
    requires v == 16 * a + b && a < 16 && b < 16
    ensures PrintByte(v) == [HexDigit(a), HexDigit(b)]
  {
    assert v / 16 == a && v % 16 == b;
  }

  lemma PrintPair(c: char, d: char)
    requires IsHex(c) && IsHex(d)
    ensures PrintByte(PairValue(c, d)) == [ToLower(c), ToLower(d)]
  {
    PairOfDigits(c, d);
    PrintOf(PairValue(c, d), DigitValue(c), DigitValue(d));
    HexDigitOf(c);
    HexDigitOf(d);
  }

  /** Printing the decoded key gives the key string in lower case if and only if the string consists
      of hex digits. Other strings of the right length decode too, to bytes that print otherwise. */
  lemma PrintDecodeExactly(s: string)
    requires |s| % 2 == 0
    ensures Print(Decode(s)) == Lower(s) <==> AllHex(s)
  {
    var p := Print(Decode(s));
    assert |p| == |s|;
    if AllHex(s) {
      forall i | 0 <= i < |s| ensures p[i] == Lower(s)[i] {
        var k := i / 2;
        PrintPair(s[2 * k], s[2 * k + 1]);
      }
    }
    if p == Lower(s) {
      forall i | 0 <= i < |s| ensures IsHex(s[i]) {
        assert p[i] == PrintByte(Decode(s)[i / 2])[i % 2];
        assert IsHex(p[i]) && p[i] == ToLower(s[i]);
      }
    }
  }

  // ----- strings that are not keys -----------------------------------------------------------------

  const DIGITS: string := "0123456789abcdef"
  const CAPITALS: string := "0123456789ABCDEF"

  /** The digits by their place in the usual row, in print and in either case when read. */
  lemma DigitTable(v: nat)
    requires v < 16
    ensures HexDigit(v) == DIGITS[v] && IsHex(DIGITS[v]) && IsHex(CAPITALS[v])
    ensures DigitValue(DIGITS[v]) == v && DigitValue(CAPITALS[v]) == v
  {
  }

  /** And nothing else is one. */
  lemma DigitsOnly(c: char)
    ensures IsHex(c) <==> c in DIGITS || c in CAPITALS
  {
    if IsHex(c) {
      DigitTable(DigitValue(c));
    } else {
      forall v | 0 <= v < 16 ensures c != DIGITS[v] && c != CAPITALS[v] { DigitTable(v); }
    }
  }

  lemma {:induction false} OneDigit(d: char)
    ensures LeadingDigits([d], 0) == if IsHex(d) then DigitValue(d) else 0
  {
    if IsHex(d) { assert [d][1..] == [] && LeadingDigits([], DigitValue(d)) == DigitValue(d); }
  }

  lemma OneCharacter(d: char)
    ensures Strtol16([d]) == if IsHex(d) then DigitValue(d) else 0
  {
    assert [d][1..] == [] && Strtol16([]) == 0 && LeadingDigits([], 0) == 0;
    OneDigit(d);
  }

  /** What any two characters decode to, without the scan: two digits count in full, a first digit alone
      counts as itself, white space or a plus sign passes the second on, a minus sign turns it round, and
      everything else is 0. */
  lemma PairValueExactly(c: char, d: char)
    ensures PairValue(c, d) ==
            if IsHex(c) then (if IsHex(d) then 16 * DigitValue(c) + DigitValue(d) else DigitValue(c))
            else if !IsHex(d) then 0
            else if c == '-' then (if d == '0' then 0 else 256 - DigitValue(d))
            else if c == '+' || c in [' ', '\t', '\n', '\U{0B}', '\U{0C}', '\r'] then DigitValue(d)
            else 0
  {
    var s := [c, d];
    assert s[1..] == [d];
    OneDigit(d);
    OneCharacter(d);
    if IsHex(c) && IsHex(d) {
      PairOfDigits(c, d);
    } else if IsHex(c) {
      assert LeadingDigits(s, 0) == LeadingDigits([d], DigitValue(c)) == DigitValue(c);
    }
  }

  lemma SignedPairs()
    ensures PairValue('-', '1') == 255 && PairValue('+', '5') == 5
  {
    assert ['-', '1'][1..] == ['1'] && ['+', '5'][1..] == ['5'] && ['1'][1..] == [] && ['5'][1..] == [];
    assert LeadingDigits(['1'], 0) == LeadingDigits([], 1);
    assert LeadingDigits(['5'], 0) == LeadingDigits([], 5);
  }

  /** A string of the right length that is not a key is accepted all the same. */
  method NotAKeyIsAccepted() returns (ret: int, key: seq<Byte>)
    ensures !AllHex("-1+5") && ret == 0 && key == [255, 5]
  {
    var bytes := new Byte[2];
    ret := BytesFromStr("-1+5", bytes);
    assert "-1+5"[0] == '-';
    SignedPairs();
    key := bytes[..];
  }
}
