/** UTF-8 as section 4 of RFC 3629 defines it: the conversion behind host names in a framing header. */
module Utf8 {
  import opened Prelude

  type Byte = x: int | 0 <= x < 256

  /** The trailing byte for the lowest six bits. */
  function Low(v: nat): Byte
  {
    0x80 + v % 64
  }

  /** `v` followed by the six bits of a trailing byte. */
  function Push(v: int, b: int): int
  {
    64 * v + b - 0x80
  }

  function EncodeChar(c: char): (r: seq<Byte>)
    ensures 1 <= |r| <= 4
  {
    var v := c as int;
    if v < 0x80 then [v]
    else if v < 0x800 then [0xC0 + v / 64, Low(v)]
    else if v < 0x1_0000 then [0xE0 + v / 64 / 64, Low(v / 64), Low(v)]
    else [0xF0 + v / 64 / 64 / 64, Low(v / 64 / 64), Low(v / 64), Low(v)]
  }

  function Encode(s: string): seq<Byte>
  {
    if s == [] then [] else EncodeChar(s[0]) + Encode(s[1..])
  }

  predicate Trail(b: Byte)
  {
    0x80 <= b < 0xC0
  }

  /** The second byte is bounded so that no value has two encodings and none is a surrogate or too large. */
  predicate SecondOk(b0: Byte, b1: Byte)
  {
    && Trail(b1)
    && (b0 == 0xE0 ==> b1 >= 0xA0)
    && (b0 == 0xED ==> b1 < 0xA0)
    && (b0 == 0xF0 ==> b1 >= 0x90)
    && (b0 == 0xF4 ==> b1 < 0x90)
  }

  /** How many bytes the sequence starting here takes, and 0 if it is ill-formed. */
  function Width(b: seq<Byte>): (n: nat)
    ensures n <= 4 && n <= |b|
  {
    if b == [] then 0
    else if b[0] < 0x80 then 1
    else if |b| < 2 || !SecondOk(b[0], b[1]) then 0
    else if 0xC2 <= b[0] < 0xE0 then 2
    else if |b| < 3 || !Trail(b[2]) then 0
    else if 0xE0 <= b[0] < 0xF0 then 3
    else if |b| < 4 || !Trail(b[3]) then 0
    else if 0xF0 <= b[0] <= 0xF4 then 4 else 0
  }

  function Value(b: seq<Byte>): (v: int)
    requires Width(b) > 0
    ensures 0 <= v < 0xD800 || 0xE000 <= v < 0x11_0000
  {
    if Width(b) == 1 then b[0]
    else if Width(b) == 2 then Push(b[0] as int - 0xC0, b[1])
    else if Width(b) == 3 then Push(Push(b[0] as int - 0xE0, b[1]), b[2])
    else Push(Push(Push(b[0] as int - 0xF0, b[1]), b[2]), b[3])
  }

  function Decode(b: seq<Byte>): Option<string>
    decreases |b|
  {
    if b == [] then Some([])
    else if Width(b) == 0 then None
    else
      var rest := Decode(b[Width(b)..]);
      if rest.None? then None else Some([Value(b) as char] + rest.value)
  }

  lemma PushLow(v: nat)
    ensures Push(v / 64, Low(v)) == v
  {}

  lemma LowPush(v: nat, b: Byte)
    requires Trail(b)
    ensures Push(v, b) / 64 == v && Low(Push(v, b)) == b
  {}

  /** One character comes back from its bytes, whatever follows them. */
  lemma CharRoundTrip(c: char, rest: seq<Byte>)
    ensures var b := EncodeChar(c) + rest;
            Width(b) == |EncodeChar(c)| && Value(b) == c as int
  {
    var v := c as int;
    PushLow(v);
    PushLow(v / 64);
    PushLow(v / 64 / 64);
  }

  /** The bytes a character was read from are the ones it is written as. */
  lemma CharReencodes(b: seq<Byte>)
    requires Width(b) > 0
    ensures EncodeChar(Value(b) as char) == b[..Width(b)]
  {
    if Width(b) == 2 {
      LowPush(b[0] - 0xC0, b[1]);
    } else if Width(b) == 3 {
      var x := Push(b[0] - 0xE0, b[1]);
      LowPush(b[0] - 0xE0, b[1]);
      LowPush(x, b[2]);
    } else if Width(b) == 4 {
      var x := Push(b[0] - 0xF0, b[1]);
      LowPush(b[0] - 0xF0, b[1]);
      LowPush(x, b[2]);
      LowPush(Push(x, b[2]), b[3]);
    }
  }

  /** Every text is read back from its encoding. */
  lemma {:induction false} RoundTrip(s: string)
    ensures Decode(Encode(s)) == Some(s)
  {
    if s != [] {
      var b := Encode(s);
      CharRoundTrip(s[0], Encode(s[1..]));
      assert b[Width(b)..] == Encode(s[1..]);
      RoundTrip(s[1..]);
      assert s == [s[0]] + s[1..];
    }
  }

  lemma EncodeCons(c: char, t: string, head: seq<Byte>, tail: seq<Byte>)
    requires EncodeChar(c) == head && Encode(t) == tail
    ensures Encode([c] + t) == head + tail
  {
    assert ([c] + t)[1..] == t;
  }

  lemma FirstChar(b: seq<Byte>) returns (c: char, n: nat)
    requires b != [] && Decode(b).Some?
    ensures 0 < n <= |b| && EncodeChar(c) == b[..n]
    ensures Decode(b[n..]).Some? && Decode(b).value == [c] + Decode(b[n..]).value
  {
    c, n := Value(b) as char, Width(b);
    CharReencodes(b);
  }

  /** Whatever bytes are accepted are the encoding of the text they are read as. */
  lemma {:induction false} Reencodes(b: seq<Byte>)
    requires Decode(b).Some?
    ensures Encode(Decode(b).value) == b
    decreases |b|
  {
    if b != [] {
      var c, n := FirstChar(b);
      Reencodes(b[n..]);
      EncodeCons(c, Decode(b[n..]).value, b[..n], b[n..]);
      assert b == b[..n] + b[n..];
    }
  }
}
