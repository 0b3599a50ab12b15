/** The standard base64 encoding with padding (section 4 of RFC 4648), which carries a command and its
    input through a terminal. */
module Base64 {
  import opened Options

  type Byte = c: char | (c as int) < 256 witness '\0'

  /** The character of one six-bit group. */
  function Symbol(v: nat): char
    requires v < 64
  {
    if v < 26 then ('A' as int + v) as char
    else if v < 52 then ('a' as int + (v - 26)) as char
    else if v < 62 then ('0' as int + (v - 52)) as char
    else if v == 62 then '+' else '/'
  }

  function Group(c: char): (g: Option<nat>)
    ensures g.Some? ==> g.value < 64
  {
    if 'A' <= c <= 'Z' then Some(c as int - 'A' as int)
    else if 'a' <= c <= 'z' then Some(c as int - 'a' as int + 26)
    else if '0' <= c <= '9' then Some(c as int - '0' as int + 52)
    else if c == '+' then Some(62) else if c == '/' then Some(63) else None
  }

  predicate InAlphabet(c: char) {
    'A' <= c <= 'Z' || 'a' <= c <= 'z' || '0' <= c <= '9' || c == '+' || c == '/' || c == '='
  }

  function Encode(data: seq<Byte>): string {
    if |data| == 0 then ""
    else if |data| == 1 then
      var a := data[0] as int;
      [Symbol(a / 4), Symbol(a % 4 * 16), '=', '=']
    else if |data| == 2 then
      var a, b := data[0] as int, data[1] as int;
      [Symbol(a / 4), Symbol(a % 4 * 16 + b / 16), Symbol(b % 16 * 4), '=']
    else
      var a, b, c := data[0] as int, data[1] as int, data[2] as int;
      [Symbol(a / 4), Symbol(a % 4 * 16 + b / 16), Symbol(b % 16 * 4 + c / 64), Symbol(c % 64)]
      + Encode(data[3..])
  }

  function ByteOf(v: nat): Byte
    requires v < 256
  {
    v as char
  }

  /** What a decoder makes of a text; `None` for one that is no encoding. */
  function Decode(text: string): Option<seq<Byte>> {
    if text == "" then Some([])
    else if |text| < 4 then None
    else
      var p, q := Group(text[0]), Group(text[1]);
      if p.None? || q.None? then None
      else if text[2] == '=' then
        if text[3] == '=' && |text| == 4 && q.value % 16 == 0
        then Some([ByteOf(p.value * 4 + q.value / 16)]) else None
      else
        var r := Group(text[2]);
        if r.None? then None
        else
          var first := ByteOf(p.value * 4 + q.value / 16);
          var second := ByteOf(q.value % 16 * 16 + r.value / 4);
          if text[3] == '=' then
            if |text| == 4 && r.value % 4 == 0 then Some([first, second]) else None
          else
            var s := Group(text[3]);
            if s.None? then None
            else
              var rest := Decode(text[4..]);
              if rest.None? then None
              else Some([first, second, ByteOf(r.value % 4 * 64 + s.value)] + rest.value)
  }

  lemma {:induction false} SymbolGroup(v: nat)
    requires v < 64
    ensures Group(Symbol(v)) == Some(v) && InAlphabet(Symbol(v)) && Symbol(v) != '='
  {
  }

  /** The eight bits of a byte lie in two neighbouring groups. */
  lemma {:induction false} Bits(a: nat, b: nat, c: nat)
    requires a < 256 && b < 256 && c < 256
    ensures a / 4 * 4 + (a % 4 * 16 + b / 16) / 16 == a
    ensures (a % 4 * 16 + b / 16) % 16 * 16 + (b % 16 * 4 + c / 64) / 4 == b
    ensures (b % 16 * 4 + c / 64) % 4 * 64 + c % 64 == c
  {
    var q := a % 4 * 16 + b / 16;
    var r := b % 16 * 4 + c / 64;
    assert q / 16 == a % 4 && q % 16 == b / 16;
    assert r / 4 == b % 16 && r % 4 == c / 64;
  }

  lemma {:induction false} DecodeFour(p: nat, q: nat, r: nat, s: nat, rest: string)
    requires p < 64 && q < 64 && r < 64 && s < 64
    ensures var text := [Symbol(p), Symbol(q), Symbol(r), Symbol(s)] + rest;
            Decode(text) == if Decode(rest).None? then None
                            else Some([ByteOf(p * 4 + q / 16), ByteOf(q % 16 * 16 + r / 4), ByteOf(r % 4 * 64 + s)]
                                      + Decode(rest).value)
  {
    hide Symbol, Group, InAlphabet;
    SymbolGroup(p);
    SymbolGroup(q);
    SymbolGroup(r);
    SymbolGroup(s);
    var text := [Symbol(p), Symbol(q), Symbol(r), Symbol(s)] + rest;
    assert text[4..] == rest;
  }

  lemma {:induction false} DecodePadded(p: nat, q: nat, r: nat)
    requires p < 64 && q < 64 && r < 64
    ensures q % 16 == 0 ==> Decode([Symbol(p), Symbol(q), '=', '=']) == Some([ByteOf(p * 4 + q / 16)])
    ensures r % 4 == 0 ==> Decode([Symbol(p), Symbol(q), Symbol(r), '='])
                           == Some([ByteOf(p * 4 + q / 16), ByteOf(q % 16 * 16 + r / 4)])
  {
    hide Symbol, Group, InAlphabet;
    SymbolGroup(p);
    SymbolGroup(q);
    SymbolGroup(r);
  }

  /** Decoding gives back every byte string. */
  lemma {:induction false} RoundTrip(data: seq<Byte>)
    ensures Decode(Encode(data)) == Some(data)
  {
    hide Symbol, Decode;
    if data == [] {
      DecodeNothing();
    } else {
      var a := data[0] as int;
      var b := if |data| > 1 then data[1] as int else 0;
      var c := if |data| > 2 then data[2] as int else 0;
      Bits(a, b, c);
      var rest := if |data| > 2 then data[3..] else [];
      DecodePadded(a / 4, a % 4 * 16 + b / 16, b % 16 * 4 + c / 64);
      DecodeFour(a / 4, a % 4 * 16 + b / 16, b % 16 * 4 + c / 64, c % 64, Encode(rest));
      if |data| == 1 {
        assert data == [data[0]];
      } else if |data| == 2 {
        assert data == [data[0], data[1]];
      } else {
        RoundTrip(rest);
        assert data == [data[0], data[1], data[2]] + rest;
      }
    }
  }

  lemma {:induction false} DecodeNothing()
    ensures Decode("") == Some([])
  {
  }

  const UPPER := "ABCDEFGHIJKLMNOPQRSTUVWXYZ"
  const LOWER := "abcdefghijklmnopqrstuvwxyz"
  const NUMERALS := "0123456789"

  /** Table 1 of the RFC. */
  const ALPHABET := UPPER + (LOWER + (NUMERALS + "+/"))

  lemma {:induction false} SymbolsAre(v: nat)
    requires v < 64
    ensures |ALPHABET| == 64 && Symbol(v) == ALPHABET[v]
  {
    hide UPPER, LOWER, NUMERALS;
    Sizes();
    if v < 26 { UpperAt(v); } else if v < 52 { LowerAt(v - 26); } else if v < 62 { NumeralAt(v - 52); }
  }

  lemma {:induction false} Sizes()
    ensures |UPPER| == 26 && |LOWER| == 26 && |NUMERALS| == 10
  {
  }

  lemma {:induction false} UpperAt(k: nat)
    requires k < 26
    ensures |UPPER| == 26 && UPPER[k] == 'A' + k as char
  {
  }

  lemma {:induction false} LowerAt(k: nat)
    requires k < 26
    ensures |LOWER| == 26 && LOWER[k] == 'a' + k as char
  {
  }

  lemma {:induction false} NumeralAt(k: nat)
    requires k < 10
    ensures |NUMERALS| == 10 && NUMERALS[k] == '0' + k as char
  {
  }

  /** Three bytes are one number of twenty-four bits, the first byte highest, and four symbols are its digits to the base
      sixty-four, the highest first; one or two bytes at the end are filled up with zeros and padded. */
  lemma {:induction false} EncodesDigits(data: seq<Byte>)
    requires data != []
    ensures var a := data[0] as int;
            var b, c := if |data| > 1 then data[1] as int else 0, if |data| > 2 then data[2] as int else 0;
            var n := a * 0x1_0000 + b * 0x100 + c;
            n < 0x100_0000
            && Encode(data) == [ALPHABET[n / 262144], ALPHABET[n / 4096 % 64],
                                if |data| > 1 then ALPHABET[n / 64 % 64] else '=', if |data| > 2 then ALPHABET[n % 64] else '=']
                               + (if |data| > 3 then Encode(data[3..]) else "")
  {
    hide Symbol, ALPHABET, Encode;
    var a := data[0] as int;
    var b, c := if |data| > 1 then data[1] as int else 0, if |data| > 2 then data[2] as int else 0;
    var n := a * 0x1_0000 + b * 0x100 + c;
    DigitsAre(a, b, c);
    SymbolsAre(n / 262144);
    SymbolsAre(n / 4096 % 64);
    SymbolsAre(n / 64 % 64);
    SymbolsAre(n % 64);
    EncodesFour(data, a, b, c);
  }

  lemma {:induction false} EncodesFour(data: seq<Byte>, a: nat, b: nat, c: nat)
    requires data != [] && a == data[0] as int && a < 256 && b < 256 && c < 256
    requires b == if |data| > 1 then data[1] as int else 0
    requires c == if |data| > 2 then data[2] as int else 0
    ensures Encode(data) == [Symbol(a / 4), Symbol(a % 4 * 16 + b / 16), if |data| > 1 then Symbol(b % 16 * 4 + c / 64) else '=',
                             if |data| > 2 then Symbol(c % 64) else '=']
                            + (if |data| > 3 then Encode(data[3..]) else "")
  {
    hide Symbol;
    EncodeNothing();
    if |data| == 3 { assert data[3..] == []; }
  }

  lemma {:induction false} EncodeNothing()
    ensures Encode([]) == ""
  {
  }

  lemma {:induction false} DigitsAre(a: nat, b: nat, c: nat)
    requires a < 256 && b < 256 && c < 256
    ensures var n := a * 0x1_0000 + b * 0x100 + c;
            n < 0x100_0000 && n / 262144 == a / 4 && n / 4096 % 64 == a % 4 * 16 + b / 16
            && n / 64 % 64 == b % 16 * 4 + c / 64 && n % 64 == c % 64
  {
    var n := a * 0x1_0000 + b * 0x100 + c;
    HighDigits(a, b, c);
    LowDigits(a, b, c);
  }

  lemma {:induction false} Quotient(n: nat, d: nat, q: nat, r: nat)
    requires n == q * d + r && r < d
    ensures n / d == q && n % d == r
  {
    var k := n / d - q;
    assert k * d == r - n % d;
    assert k >= 1 ==> k * d >= d;
    assert k <= -1 ==> k * d + d <= 0;
  }

  lemma {:induction false} LowDigits(a: nat, b: nat, c: nat)
    requires a < 256 && b < 256 && c < 256
    ensures var n := a * 0x1_0000 + b * 0x100 + c; n / 64 % 64 == b % 16 * 4 + c / 64 && n % 64 == c % 64
  {
    var n, q := a * 0x1_0000 + b * 0x100 + c, a * 1024 + b * 4 + c / 64;
    Quotient(n, 64, q, c % 64);
    Quotient(q, 64, a * 16 + b / 16, b % 16 * 4 + c / 64);
  }

  lemma {:induction false} HighDigits(a: nat, b: nat, c: nat)
    requires a < 256 && b < 256 && c < 256
    ensures var n := a * 0x1_0000 + b * 0x100 + c;
            n < 0x100_0000 && n / 262144 == a / 4 && n / 4096 % 64 == a % 4 * 16 + b / 16
  {
    var n, q := a * 0x1_0000 + b * 0x100 + c, a * 16 + b / 16;
    Quotient(n, 4096, q, b % 16 * 256 + c);
    Quotient(q, 64, a / 4, a % 4 * 16 + b / 16);
    Quotient(n, 262144, a / 4, a % 4 * 65536 + b * 256 + c);
  }

  /** Only the sixty-four symbols and the padding are written, four for every three bytes. */
  lemma {:induction false} Shape(data: seq<Byte>)
    ensures |Encode(data)| == (|data| + 2) / 3 * 4
    ensures forall i :: 0 <= i < |Encode(data)| ==> InAlphabet(Encode(data)[i])
  {
    hide Symbol, Group, InAlphabet;
    AlphabetHas();
    if |data| >= 3 { Shape(data[3..]); }
  }

  lemma {:induction false} AlphabetHas()
    ensures InAlphabet('=') && forall v: nat :: v < 64 ==> InAlphabet(Symbol(v))
  {
    forall v: nat | v < 64 ensures InAlphabet(Symbol(v)) { SymbolGroup(v); }
  }
}
