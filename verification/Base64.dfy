/** make_base64_string against section 4 of RFC 4648. */
module Base64 {
  import opened Wrappers

  newtype Byte = b: int | 0 <= b < 256

  const TABLE := "ABCDEFGHIJKLMNOPQRSTUVWXYZ" + "abcdefghijklmnopqrstuvwxyz" + "0123456789+/"

  /** The d-th character of the alphabet. */
  function Digit(d: int): char
    requires 0 <= d < 64
  {
    if d < 26 then 'A' + d as char
    else if d < 52 then 'a' + (d - 26) as char
    else if d < 62 then '0' + (d - 52) as char
    else if d == 62 then '+'
    else '/'
  }

  /** base64_table[d] */
  function Table(d: int): char
    requires 0 <= d < 64
  {
    assert |TABLE| == 64;
    TABLE[d]
  }

  lemma TableHasDigits(d: int)
    requires 0 <= d < 64
    ensures Table(d) == Digit(d)
  {
  }

  /** Table 1 of RFC 4648, line by line. */
  lemma Alphabet(d: int)
    requires 0 <= d < 64
    ensures d < 26 ==> Digit(d) as int == 65 + d
    ensures 26 <= d < 52 ==> Digit(d) as int == 97 + d - 26
    ensures 52 <= d < 62 ==> Digit(d) as int == 48 + d - 52
    ensures d == 62 ==> Digit(d) as int == 43
    ensures d == 63 ==> Digit(d) as int == 47
  {
  }

  // --- the standard's encoding and decoding ---

  /** The four characters of one group of bytes, absent ones taken as zero. */
  function Group(a: int, b: int, c: int): (g: string)
    requires 0 <= a < 256 && 0 <= b < 256 && 0 <= c < 256
    ensures |g| == 4
  {
    [Digit(a / 4), Digit(a % 4 * 16 + b / 16), Digit(b % 16 * 4 + c / 64), Digit(c % 64)]
  }

  /** *(str + k), the terminator repeated */
  function At(s: seq<Byte>, k: nat): (b: int)
    ensures 0 <= b < 256
  {
    if k < |s| then s[k] as int else 0
  }

  /** Groups of three bytes become four characters; a shorter last group is padded. */
  function Encode(s: seq<Byte>): string {
    if s == [] then ""
    else
      var g := Group(At(s, 0), At(s, 1), At(s, 2));
      if |s| == 1 then g[..2] + "=="
      else if |s| == 2 then g[..3] + "="
      else g + Encode(s[3..])
  }

  /** The value of a character of the alphabet. */
  function Value(c: char): (d: Option<int>)
    ensures d.Some? ==> 0 <= d.value < 64 && Digit(d.value) == c
  {
    if 'A' <= c <= 'Z' then Some(c as int - 'A' as int)
    else if 'a' <= c <= 'z' then Some(c as int - 'a' as int + 26)
    else if '0' <= c <= '9' then Some(c as int - '0' as int + 52)
    else if c == '+' then Some(62)
    else if c == '/' then Some(63)
    else None
  }

  /** A strict decoder: canonical padding, no other characters. */
  function Decode(t: string): Option<seq<Byte>> {
    if t == "" then Some([])
    else if |t| < 4 then None
    else
      match (Value(t[0]), Value(t[1]), Value(t[2]), Value(t[3]))
      case (Some(p), Some(q), Some(u), Some(v)) =>
        (match Decode(t[4..])
         case Some(rest) =>
           Some([(p * 4 + q / 16) as Byte, (q % 16 * 16 + u / 4) as Byte, (u % 4 * 64 + v) as Byte] + rest)
         case None => None)
      case (Some(p), Some(q), Some(u), None) =>
        if t[3..] == "=" && u % 4 == 0 then Some([(p * 4 + q / 16) as Byte, (q % 16 * 16 + u / 4) as Byte]) else None
      case (Some(p), Some(q), None, None) =>
        if t[2..] == "==" && q % 16 == 0 then Some([(p * 4 + q / 16) as Byte]) else None
      case _ => None
  }

  lemma DigitHasValue(d: int)
    requires 0 <= d < 64
    ensures Value(Digit(d)) == Some(d)
  {
  }

  lemma PadHasNone()
    ensures Value('=') == None
  {
  }

  lemma GroupHasValues(a: int, b: int, c: int)
    requires 0 <= a < 256 && 0 <= b < 256 && 0 <= c < 256
    ensures
      var p, q, u, v := a / 4, a % 4 * 16 + b / 16, b % 16 * 4 + c / 64, c % 64;
      var g := Group(a, b, c);
      && Value(g[0]) == Some(p) && Value(g[1]) == Some(q) && Value(g[2]) == Some(u) && Value(g[3]) == Some(v)
      && p * 4 + q / 16 == a && q % 16 * 16 + u / 4 == b && u % 4 * 64 + v == c
  {
    DigitHasValue(a / 4);
    DigitHasValue(a % 4 * 16 + b / 16);
    DigitHasValue(b % 16 * 4 + c / 64);
    DigitHasValue(c % 64);
  }

  lemma DecodeGroup(a: Byte, b: Byte, c: Byte, t: string)
    ensures Decode(Group(a as int, b as int, c as int) + t) ==
      if Decode(t).Some? then Some([a, b, c] + Decode(t).value) else None
  {
    GroupHasValues(a as int, b as int, c as int);
    hide Digit, Value;
    assert (Group(a as int, b as int, c as int) + t)[4..] == t;
  }

  lemma DecodeTwo(a: Byte, b: Byte)
    ensures Decode(Group(a as int, b as int, 0)[..3] + "=") == Some([a, b])
  {
    GroupHasValues(a as int, b as int, 0);
    PadHasNone();
    hide Digit, Value;
    assert (Group(a as int, b as int, 0)[..3] + "=")[3..] == "=";
  }

  lemma DecodeOne(a: Byte)
    ensures Decode(Group(a as int, 0, 0)[..2] + "==") == Some([a])
  {
    GroupHasValues(a as int, 0, 0);
    PadHasNone();
    hide Digit, Value;
    assert (Group(a as int, 0, 0)[..2] + "==")[2..] == "==";
  }

  lemma FirstThree(s: seq<Byte>)
    requires |s| >= 3
    ensures [s[0], s[1], s[2]] + s[3..] == s
  {
  }

  lemma EncodeIs(s: seq<Byte>)
    requires s != []
    ensures |s| == 1 ==> Encode(s) == Group(s[0] as int, 0, 0)[..2] + "=="
    ensures |s| == 2 ==> Encode(s) == Group(s[0] as int, s[1] as int, 0)[..3] + "="
    ensures |s| > 2 ==> Encode(s) == Group(s[0] as int, s[1] as int, s[2] as int) + Encode(s[3..])
  {
    hide Group;
  }

  /** A decoder recovers every input. */
  lemma {:induction false} DecodeEncode(s: seq<Byte>)
    ensures Decode(Encode(s)) == Some(s)
  {
    if s != [] {
      EncodeIs(s);
      hide Encode, Decode, Group;
      if |s| == 1 {
        DecodeOne(s[0]);
        assert s == [s[0]];
      } else if |s| == 2 {
        DecodeTwo(s[0], s[1]);
        assert s == [s[0], s[1]];
      } else {
        DecodeGroup(s[0], s[1], s[2], Encode(s[3..]));
        DecodeEncode(s[3..]);
        FirstThree(s);
      }
    }
  }

  // --- the encoder's view of its input ---

  /** The j-th group of six bits of the input. */
  function Sextet(s: seq<Byte>, j: nat): (d: int)
    ensures 0 <= d < 64
  {
    var k := j / 4 * 3;
    match j % 4
    case 0 => At(s, k) / 4
    case 1 => At(s, k) % 4 * 16 + At(s, k + 1) / 16
    case 2 => At(s, k + 1) % 16 * 4 + At(s, k + 2) / 64
    case _ => At(s, k + 2) % 64
  }

  function Length(s: seq<Byte>): nat {
    (|s| + 2) / 3 * 4
  }

  /** The number of padding characters. */
  function Padding(s: seq<Byte>): nat {
    if |s| % 3 == 1 then 2 else if |s| % 3 == 2 then 1 else 0
  }

  lemma {:induction false} EncodeAt(s: seq<Byte>, j: nat)
    requires j < Length(s)
    ensures |Encode(s)| == Length(s)
    ensures Encode(s)[j] == if j < Length(s) - Padding(s) then Digit(Sextet(s, j)) else '='
  {
    hide Digit, Sextet, Group;
    if j < 4 {
      FirstGroup(s, j);
    }
    if |s| > 3 {
      LongerByFour(s);
      hide Length, Padding;
      EncodeAt(s[3..], if j < 4 then 0 else j - 4);
      if j >= 4 {
        Later(s, j);
      }
    } else if |s| == 3 {
      assert Encode(s[3..]) == "";
    }
  }

  lemma LongerByFour(s: seq<Byte>)
    requires |s| > 3
    ensures Length(s) == Length(s[3..]) + 4 > 7 && Padding(s) == Padding(s[3..]) <= 2 && Padding(s) < Length(s) - 4
  {
  }

  lemma FirstGroup(s: seq<Byte>, j: nat)
    requires j < 4
    ensures Group(At(s, 0), At(s, 1), At(s, 2))[j] == Digit(Sextet(s, j))
  {
    hide Digit;
  }

  lemma Later(s: seq<Byte>, j: nat)
    requires |s| >= 3 && j >= 4
    ensures Sextet(s, j) == Sextet(s[3..], j - 4)
  {
  }

  // --- the shift accumulator ---

  const INT_RANGE := 0x1_0000_0000

  /** The number of input bytes, terminators included, read before the i-th character. */
  function Consumed(i: nat): nat {
    i / 4 * 3 + i % 4
  }

  /** The number of bits read and not yet written then. */
  function Pending(i: nat): nat {
    i % 4 * 2
  }

  /** The low `bits` bits of the accumulator are the pending bits of the input. */
  predicate Accumulated(s: seq<Byte>, i: nat, data: int) {
    match i % 4
    case 0 => true
    case 1 => data % 4 == At(s, Consumed(i) - 1) % 4
    case 2 => data % 16 == At(s, Consumed(i) - 1) % 16
    case _ => data % 64 == At(s, Consumed(i) - 1) % 64
  }

  /** (data << 8) | *src, in 32 bits */
  function Shifted(data: int, b: int): int {
    (data * 256 + b) % INT_RANGE
  }

  /** data >> n, for the n that occur */
  function Right(data: int, n: nat): int {
    match n
    case 0 => data
    case 2 => data / 4
    case 4 => data / 16
    case _ => data / 64
  }

  /** One round: the character written is the next six bits, and the pending
      bits stay in the accumulator. */
  lemma OneCharacter(s: seq<Byte>, i: nat, data: int)
    requires 0 <= data < INT_RANGE && Accumulated(s, i, data)
    ensures
      var read := Pending(i) < 6;
      var next := if read then Shifted(data, At(s, Consumed(i))) else data;
      var bits := if read then Pending(i) + 8 else Pending(i);
      && bits - 6 == Pending(i + 1) && Accumulated(s, i + 1, next) && 0 <= next < INT_RANGE
      && Consumed(i + 1) == (if read then Consumed(i) + 1 else Consumed(i))
      && Right(next, bits - 6) % 64 == Sextet(s, i)
  {
    LowBits(data, At(s, Consumed(i)));
  }

  /** Shifting a byte in keeps the low bits, whatever falls off at the top. */
  lemma LowBits(data: int, b: int)
    requires 0 <= b < 256
    ensures
      var next := Shifted(data, b);
      && next % 64 == b % 64 && next % 16 == b % 16 && next % 4 == b % 4
      && next / 4 % 64 == b / 4
      && next / 16 % 64 == data % 4 * 16 + b / 16
      && next / 64 % 64 == data % 16 * 4 + b / 64
  {
    ShiftedIs(data, b);
    var low := data % 0x100_0000;
    var l, m, n := low / 16, low / 4 % 4, low % 4;
    assert low == 16 * l + 4 * m + n;
    var next := 4096 * l + 1024 * m + 256 * n + b;
    assert next / 4 == 64 * (16 * l + 4 * m + n) + b / 4;
    assert next / 16 == 64 * (4 * l + m) + (16 * n + b / 16);
    assert next / 64 == 64 * l + (16 * m + 4 * n + b / 64);
    RemainderIs(64, 16 * l + 4 * m + n, b / 4);
    RemainderIs(64, 4 * l + m, 16 * n + b / 16);
    RemainderIs(64, l, 16 * m + 4 * n + b / 64);
    RemainderIs(4, 4 * l + m, n);
    assert low == 4 * (4 * l + m) + n && low == 16 * l + (4 * m + n);
    RemainderIs(16, l, 4 * m + n);
  }

  lemma ShiftedIs(data: int, b: int)
    requires 0 <= b < 256
    ensures var low := data % 0x100_0000;
      Shifted(data, b) == 256 * low + b && low % 4 == data % 4 && low % 16 == data % 16
  {
    var top, low := data / 0x100_0000, data % 0x100_0000;
    assert data == 0x100_0000 * top + low;
    assert data * 256 + b == INT_RANGE * top + (256 * low + b);
    RemainderIs(INT_RANGE, top, 256 * low + b);
    RemainderIs(16, 0x10_0000 * top + low / 16, low % 16);
    RemainderIs(4, 0x40_0000 * top + low / 4, low % 4);
  }

  lemma RemainderIs(d: int, q: int, r: int)
    requires 0 <= r < d
    ensures (d * q + r) % d == r
  {
    var k := (d * q + r) / d;
    assert d * q + r == d * k + (d * q + r) % d;
    assert d * (q - k) == (d * q + r) % d - r;
    if q > k { Scale(d, q - k); }
    if q < k { Scale(d, k - q); }
  }

  lemma Scale(d: int, k: int)
    requires d > 0 && k >= 1
    ensures d * k >= d
  {
  }

  /** The variables of the loop before the i-th character. */
  predicate InStep(str: seq<Byte>, i: nat, bits: int, data: int, src: int) {
    && bits == Pending(i) && 0 <= data < INT_RANGE && Accumulated(str, i, data)
    && src == if Consumed(i) <= |str| then Consumed(i) else |str|
  }

  /** One round: the next character, and the variables after it. */
  method NextCharacter(str: seq<Byte>, ghost i: nat, bits0: int, data0: int, src0: nat)
      returns (c: char, bits: int, data: int, src: nat)
    requires forall k :: 0 <= k < |str| ==> str[k] != 0
    requires InStep(str, i, bits0, data0, src0)
    ensures c == Digit(Sextet(str, i)) && InStep(str, i + 1, bits, data, src)
  {
    hide Sextet, Accumulated, Digit, Shifted, Right, Table;
    OneCharacter(str, i, data0);
    bits, data, src := bits0, data0, src0;
    if bits < 6 {
      data := Shifted(data, At(str, src));
      bits := bits + 8;
      if At(str, src) != 0 {
        src := src + 1;
      }
    }
    TableHasDigits(Right(data, bits - 6) % 64);
    c := Table(Right(data, bits - 6) % 64);
    bits := bits - 6;
  }

  /** The loop over the characters of the output. */
  method WriteCharacters(str: seq<Byte>, buf: array<char>)
    requires forall k :: 0 <= k < |str| ==> str[k] != 0
    requires buf.Length > Length(str)
    modifies buf
    ensures forall j :: 0 <= j < Length(str) ==> buf[j] == Digit(Sextet(str, j))
  {
    var bits, data, src, dst := 0, 0, 0, 0;
    assert InStep(str, dst, bits, data, src);
    hide InStep, Sextet, Digit, Length;
    while dst < Length(str)
      invariant 0 <= dst <= Length(str) && InStep(str, dst, bits, data, src)
      invariant forall j :: 0 <= j < dst ==> buf[j] == Digit(Sextet(str, j))
    {
      var c: char;
      c, bits, data, src := NextCharacter(str, dst, bits, data, src);
      buf[dst] := c;
      dst := dst + 1;
    }
  }

  /** make_base64_string, for a string of bytes other than the terminator */
  method MakeBase64String(str: seq<Byte>) returns (buf: array<char>)
    requires forall k :: 0 <= k < |str| ==> str[k] != 0
    ensures buf[..] == Encode(str) + ['\0']
  {
    hide Sextet, Digit, Encode;
    var dstLen := (|str| + 2) / 3 * 4;
    buf := new char[dstLen + 1];
    WriteCharacters(str, buf);
    buf[dstLen] := '\0';
    PatchTail(buf, dstLen, |str| % 3);
    EncodedIs(str, buf[..]);
  }

  /** The switch on the length: the last characters give way to padding. */
  method PatchTail(buf: array<char>, end: nat, rest: nat)
    requires end < buf.Length && rest < 3 && (rest > 0 ==> end >= 4)
    modifies buf
    ensures forall j :: 0 <= j < buf.Length ==>
      buf[j] == if rest > 0 && end - (3 - rest) <= j < end then '=' else old(buf[j])
  {
    var dst := end;
    if rest == 1 {
      dst := dst - 1;
      buf[dst] := '=';
    }
    if rest != 0 {
      dst := dst - 1;
      buf[dst] := '=';
    }
  }

  lemma EncodedIs(s: seq<Byte>, t: string)
    requires |t| == Length(s) + 1 && t[|t|-1] == '\0'
    requires forall j :: 0 <= j < Length(s) ==> t[j] == if j < Length(s) - Padding(s) then Digit(Sextet(s, j)) else '='
    ensures t == Encode(s) + ['\0']
  {
    hide Sextet, Digit;
    forall j | 0 <= j < Length(s) ensures |Encode(s)| == Length(s) && Encode(s)[j] == t[j] {
      EncodeAt(s, j);
    }
    if s != [] {
      EncodeAt(s, 0);
    }
  }
}
