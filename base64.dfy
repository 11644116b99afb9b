/** Standard base64 (RFC 4648, section 4: alphabet A-Z a-z 0-9 + /, with '='
    padding), as Python's base64.b64encode produces it and base64.b64decode
    reads it back. */
module Base64 {
  import opened Values

  newtype byte = x: int | 0 <= x < 256

  predicate IsSymbol(c: char) {
    ('A' <= c <= 'Z') || ('a' <= c <= 'z') || ('0' <= c <= '9') || c == '+' || c == '/'
  }

  /** The alphabet symbol with value i. */
  function Symbol(i: int): (c: char)
    requires 0 <= i < 64
    ensures IsSymbol(c)
  {
    if i < 26 then ('A' as int + i) as char
    else if i < 52 then ('a' as int + (i - 26)) as char
    else if i < 62 then ('0' as int + (i - 52)) as char
    else if i == 62 then '+'
    else '/'
  }

  /** The value of an alphabet symbol. */
  function Index(c: char): (i: int)
    requires IsSymbol(c)
    ensures 0 <= i < 64 && Symbol(i) == c
  {
    if 'A' <= c <= 'Z' then c as int - 'A' as int
    else if 'a' <= c <= 'z' then c as int - 'a' as int + 26
    else if '0' <= c <= '9' then c as int - '0' as int + 52
    else if c == '+' then 62
    else 63
  }

  lemma IndexOfSymbol(i: int)
    requires 0 <= i < 64
    ensures Index(Symbol(i)) == i
  {
  }

  /** The characters an encoding is made of. */
  predicate IsEncodingChar(c: char) {
    IsSymbol(c) || c == '='
  }

  /** `base64.b64encode(data).decode("ascii")`. */
  function Encode(b: seq<byte>): (s: string)
    ensures |s| == 4 * ((|b| + 2) / 3)
    ensures forall i :: 0 <= i < |s| ==> IsEncodingChar(s[i])
    decreases |b|
  {
    if |b| == 0 then []
    else if |b| == 1 then PadTwo(b[0])
    else if |b| == 2 then PadOne(b[0], b[1])
    else
      var q, t := Group(b[0], b[1], b[2]), Encode(b[3..]);
      assert (|b| - 3 + 2) / 3 + 1 == (|b| + 2) / 3;
      assert forall i :: 4 <= i < |q + t| ==> (q + t)[i] == t[i - 4];
      q + t
  }

  /** The last group of one byte: two symbols and two pads. */
  function PadTwo(x: byte): (q: string)
    ensures |q| == 4 && forall i :: 0 <= i < 4 ==> IsEncodingChar(q[i])
  {
    var b0 := x as int;
    [Symbol(b0 / 4), Symbol((b0 % 4) * 16), '=', '=']
  }

  /** The last group of two bytes: three symbols and one pad. */
  function PadOne(x: byte, y: byte): (q: string)
    ensures |q| == 4 && forall i :: 0 <= i < 4 ==> IsEncodingChar(q[i])
  {
    var b0, b1 := x as int, y as int;
    [Symbol(b0 / 4), Symbol((b0 % 4) * 16 + b1 / 16), Symbol((b1 % 16) * 4), '=']
  }

  /** The four symbols of three bytes. */
  function Group(x: byte, y: byte, z: byte): (q: string)
    ensures |q| == 4 && forall i :: 0 <= i < 4 ==> IsSymbol(q[i])
  {
    var b0, b1, b2 := x as int, y as int, z as int;
    [Symbol(b0 / 4), Symbol((b0 % 4) * 16 + b1 / 16), Symbol((b1 % 16) * 4 + b2 / 64), Symbol(b2 % 64)]
  }

  predicate IsFullGroup(s: string)
    requires |s| >= 4
  {
    IsSymbol(s[0]) && IsSymbol(s[1]) && IsSymbol(s[2]) && IsSymbol(s[3])
  }

  /** The three bytes of an unpadded group. */
  function DecodeFull(s: string): seq<byte>
    requires |s| >= 4 && IsFullGroup(s)
  {
    var c0, c1, c2, c3 := Index(s[0]), Index(s[1]), Index(s[2]), Index(s[3]);
    [(c0 * 4 + c1 / 16) as byte, ((c1 % 16) * 16 + c2 / 4) as byte, ((c2 % 4) * 64 + c3) as byte]
  }

  /** The last group, which may end in one or two '=' pads. */
  function DecodeLast(s: string): Option<seq<byte>>
    requires |s| == 4
  {
    if IsFullGroup(s) then Some(DecodeFull(s))
    else if IsSymbol(s[0]) && IsSymbol(s[1]) && IsSymbol(s[2]) && s[3] == '=' then
      var c0, c1, c2 := Index(s[0]), Index(s[1]), Index(s[2]);
      Some([(c0 * 4 + c1 / 16) as byte, ((c1 % 16) * 16 + c2 / 4) as byte])
    else if IsSymbol(s[0]) && IsSymbol(s[1]) && s[2] == '=' && s[3] == '=' then
      var c0, c1 := Index(s[0]), Index(s[1]);
      Some([(c0 * 4 + c1 / 16) as byte])
    else None
  }

  /** `base64.b64decode(data)`: None where Python raises binascii.Error.  Only
      the canonical shape is accepted (groups of four, padding in the last one). */
  function Decode(s: string): (r: Option<seq<byte>>)
    decreases |s|
  {
    if |s| == 0 then Some([])
    else if |s| < 4 then None
    else if |s| == 4 then DecodeLast(s)
    else if IsFullGroup(s) then
      match Decode(s[4..])
      case Some(rest) => Some(DecodeFull(s) + rest)
      case None => None
    else None
  }

  lemma DecodeOneByte(b0: int)
    requires 0 <= b0 < 256
    ensures DecodeLast([Symbol(b0 / 4), Symbol((b0 % 4) * 16), '=', '=']) == Some([b0 as byte])
  {
    var s := [Symbol(b0 / 4), Symbol((b0 % 4) * 16), '=', '='];
    IndexOfSymbol(b0 / 4);
    IndexOfSymbol((b0 % 4) * 16);
    assert Index(s[0]) == b0 / 4 && Index(s[1]) == (b0 % 4) * 16;
    assert !IsSymbol(s[2]);
  }

  lemma DecodeTwoBytes(b0: int, b1: int)
    requires 0 <= b0 < 256 && 0 <= b1 < 256
    ensures DecodeLast([Symbol(b0 / 4), Symbol((b0 % 4) * 16 + b1 / 16), Symbol((b1 % 16) * 4), '='])
         == Some([b0 as byte, b1 as byte])
  {
    var s := [Symbol(b0 / 4), Symbol((b0 % 4) * 16 + b1 / 16), Symbol((b1 % 16) * 4), '='];
    IndexOfSymbol(b0 / 4);
    IndexOfSymbol((b0 % 4) * 16 + b1 / 16);
    IndexOfSymbol((b1 % 16) * 4);
    assert Index(s[0]) == b0 / 4 && Index(s[1]) == (b0 % 4) * 16 + b1 / 16 && Index(s[2]) == (b1 % 16) * 4;
    assert !IsSymbol(s[3]);
    GroupArithmetic(b0, b1, 0);
  }

  lemma GroupArithmetic(b0: int, b1: int, b2: int)
    requires 0 <= b0 < 256 && 0 <= b1 < 256 && 0 <= b2 < 256
    ensures (b0 / 4) * 4 + ((b0 % 4) * 16 + b1 / 16) / 16 == b0
    ensures (((b0 % 4) * 16 + b1 / 16) % 16) * 16 + ((b1 % 16) * 4 + b2 / 64) / 4 == b1
    ensures (((b1 % 16) * 4 + b2 / 64) % 4) * 64 + b2 % 64 == b2
  {
  }

  lemma DecodeGroup(x: byte, y: byte, z: byte)
    ensures IsFullGroup(Group(x, y, z)) && DecodeFull(Group(x, y, z)) == [x, y, z]
  {
    var b0, b1, b2 := x as int, y as int, z as int;
    var q := Group(x, y, z);
    var i0, i1, i2, i3 := b0 / 4, (b0 % 4) * 16 + b1 / 16, (b1 % 16) * 4 + b2 / 64, b2 % 64;
    assert q == [Symbol(i0), Symbol(i1), Symbol(i2), Symbol(i3)];
    IndexOfSymbol(i0);
    IndexOfSymbol(i1);
    IndexOfSymbol(i2);
    IndexOfSymbol(i3);
    assert Index(q[0]) == i0 && Index(q[1]) == i1 && Index(q[2]) == i2 && Index(q[3]) == i3;
    GroupArithmetic(b0, b1, b2);
    assert i0 * 4 + i1 / 16 == b0;
    assert (i1 % 16) * 16 + i2 / 4 == b1;
    assert (i2 % 4) * 64 + i3 == b2;
  }

  /** DecodeFull reads only the first four characters. */
  lemma DecodeFullPrefix(q: string, t: string)
    requires |q| == 4 && IsFullGroup(q)
    ensures IsFullGroup(q + t) && DecodeFull(q + t) == DecodeFull(q)
  {
    assert (q + t)[..4] == q;
  }

  /** Decoding an encoding gives the bytes back. */
  lemma {:induction false} DecodeEncode(b: seq<byte>)
    ensures Decode(Encode(b)) == Some(b)
    decreases |b|, 1
  {
    if |b| == 1 {
      var b0 := b[0] as int;
      assert Encode(b) == [Symbol(b0 / 4), Symbol((b0 % 4) * 16), '=', '='] == PadTwo(b[0]);
      DecodeOneByte(b0);
      assert b == [b[0]];
    } else if |b| == 2 {
      var b0, b1 := b[0] as int, b[1] as int;
      assert Encode(b) == [Symbol(b0 / 4), Symbol((b0 % 4) * 16 + b1 / 16), Symbol((b1 % 16) * 4), '='] == PadOne(b[0], b[1]);
      DecodeTwoBytes(b0, b1);
      assert b == [b[0], b[1]];
    } else if |b| >= 3 {
      assert b == [b[0], b[1], b[2]] + b[3..];
      DecodeGroups(b[0], b[1], b[2], b[3..]);
    }
  }

  /** A full group followed by more text decodes to its three bytes followed
      by the decoding of the rest. */
  lemma DecodeFullThen(q: string, t: string)
    requires |q| == 4 && IsFullGroup(q) && |t| > 0
    ensures Decode(q + t) == match Decode(t) case Some(r) => Some(DecodeFull(q) + r) case None => None
  {
    DecodeFullPrefix(q, t);
    assert (q + t)[4..] == t;
  }

  /** A full group of three bytes, then the rest. */
  lemma {:induction false} DecodeGroups(x: byte, y: byte, z: byte, rest: seq<byte>)
    ensures Decode(Encode([x, y, z] + rest)) == Some([x, y, z] + rest)
    decreases |rest| + 3, 0
  {
    var b := [x, y, z] + rest;
    var q, t := Group(x, y, z), Encode(rest);
    assert b[0] == x && b[1] == y && b[2] == z && b[3..] == rest;
    assert Encode(b) == q + t;
    DecodeGroup(x, y, z);
    if rest == [] {
      assert q + t == q;
      assert b == [x, y, z];
    } else {
      DecodeFullThen(q, t);
      DecodeEncode(rest);
    }
  }
}
