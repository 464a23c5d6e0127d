/**
 The destination header between client and egress: version, host length, host
 and port, ahead of a raw byte pipe (crates/common/src/framing.rs).
 */
module Framing {
  import opened Prelude
  import Utf8

  type Byte = Utf8.Byte
  type Port = x: int | 0 <= x < 0x1_0000

  const VERSION: Byte := 1
  const MAX_HOST_LEN := 255

  datatype FramingError = UnsupportedVersion(version: Byte) | HostTooLong(length: nat) | InvalidUtf8

  datatype Header = Header(host: string, port: Port, length: nat)

  function BigEndian(v: Port): seq<Byte>
  {
    [v / 256, v % 256]
  }

  function FromBigEndian(high: Byte, low: Byte): Port
  {
    256 * (high as int) + low
  }

  /** The limit is on the encoded host, not on its characters. */
  function EncodeDestination(host: string, port: Port): Result<seq<Byte>, FramingError>
  {
    var bytes := Utf8.Encode(host);
    if |bytes| > MAX_HOST_LEN then Err(HostTooLong(|bytes|))
    else Ok([VERSION] + BigEndian(|bytes|) + bytes + BigEndian(port))
  }

  /** `Ok(None)` asks for more bytes. */
  function DecodeDestination(buf: seq<Byte>): Result<Option<Header>, FramingError>
  {
    if buf == [] then Ok(None)
    else if buf[0] != VERSION then Err(UnsupportedVersion(buf[0]))
    else if |buf| < 3 then Ok(None)
    else
      var hostLen := FromBigEndian(buf[1], buf[2]);
      if hostLen > MAX_HOST_LEN then Err(HostTooLong(hostLen))
      else if |buf| < 3 + hostLen + 2 then Ok(None)
      else
        var host := Utf8.Decode(buf[3..3 + hostLen]);
        if host.None? then Err(InvalidUtf8)
        else Ok(Some(Header(host.value, FromBigEndian(buf[3 + hostLen], buf[4 + hostLen]), 5 + hostLen)))
  }

  lemma BytesOfPort(v: Port)
    ensures FromBigEndian(BigEndian(v)[0], BigEndian(v)[1]) == v
  {}

  lemma PortOfBytes(high: Byte, low: Byte)
    ensures BigEndian(FromBigEndian(high, low)) == [high, low]
  {}

  /** The parts of an encoded header, by position. */
  lemma Layout(host: string, port: Port, rest: seq<Byte>)
    requires EncodeDestination(host, port).Ok?
    ensures var b, h := EncodeDestination(host, port).value, Utf8.Encode(host);
            var buf := b + rest;
            && |b| == 5 + |h| && |h| <= MAX_HOST_LEN
            && buf[0] == VERSION && buf[1] == 0 && buf[2] == |h| && buf[3..3 + |h|] == h
            && [buf[3 + |h|], buf[4 + |h|]] == BigEndian(port)
  {}

  /** An encoded header followed by anything decodes to what was encoded, and its length is exact. */
  lemma RoundTrip(host: string, port: Port, rest: seq<Byte>)
    requires EncodeDestination(host, port).Ok?
    ensures var b := EncodeDestination(host, port).value;
            DecodeDestination(b + rest) == Ok(Some(Header(host, port, |b|)))
  {
    Layout(host, port, rest);
    BytesOfPort(port);
    Utf8.RoundTrip(host);
  }

  /** Every strict prefix of a header asks for more, and is never an error. */
  lemma PrefixNeedsMore(host: string, port: Port, k: nat)
    requires EncodeDestination(host, port).Ok? && k < |EncodeDestination(host, port).value|
    ensures DecodeDestination(EncodeDestination(host, port).value[..k]) == Ok(None)
  {
    Layout(host, port, []);
    assert EncodeDestination(host, port).value + [] == EncodeDestination(host, port).value;
  }

  /** An accepted header is the encoding of what it decodes to: no destination has two headers. */
  lemma AcceptedReencodes(buf: seq<Byte>)
    requires DecodeDestination(buf).Ok? && DecodeDestination(buf).value.Some?
    ensures var h := DecodeDestination(buf).value.value;
            h.length <= |buf| && EncodeDestination(h.host, h.port) == Ok(buf[..h.length])
  {
    var n: nat := FromBigEndian(buf[1], buf[2]);
    Utf8.Reencodes(buf[3..3 + n]);
    PortOfBytes(buf[1], buf[2]);
    PortOfBytes(buf[3 + n], buf[4 + n]);
    Pieces(buf, n);
  }

  lemma Pieces(buf: seq<Byte>, n: nat)
    requires |buf| >= 5 + n
    ensures buf[..5 + n] == [buf[0]] + [buf[1], buf[2]] + buf[3..3 + n] + [buf[3 + n], buf[4 + n]]
  {}

  /** A verdict, once reached, does not change with the bytes that follow. */
  lemma VerdictIsFinal(buf: seq<Byte>, more: seq<Byte>)
    requires DecodeDestination(buf) != Ok(None)
    ensures DecodeDestination(buf + more) == DecodeDestination(buf)
  {
    if |buf| >= 3 {
      var n: nat := FromBigEndian(buf[1], buf[2]);
      if |buf| >= 3 + n { assert (buf + more)[3..3 + n] == buf[3..3 + n]; }
    }
  }

  /** Bytes that no text encodes to. */
  ghost predicate NoText(bytes: seq<Byte>)
  {
    forall host: string :: Utf8.Encode(host) != bytes
  }

  lemma NoTextIff(bytes: seq<Byte>)
    ensures Utf8.Decode(bytes).None? <==> NoText(bytes)
  {
    if Utf8.Decode(bytes).Some? {
      Utf8.Reencodes(bytes);
    } else {
      forall host: string ensures Utf8.Encode(host) != bytes { Utf8.RoundTrip(host); }
    }
  }

  /**
   What is refused, and as soon as what has arrived: another version with the
   first byte, a host over 255 bytes with its length, and one that is no text
   once the header is complete. Everything else short of a header asks for more.
   */
  lemma RefusedIff(buf: seq<Byte>)
    ensures forall v :: DecodeDestination(buf) == Err(UnsupportedVersion(v)) <==> buf != [] && buf[0] == v && v != 1
    ensures forall n :: DecodeDestination(buf) == Err(HostTooLong(n)) <==>
              |buf| >= 3 && buf[0] == 1 && n == 256 * (buf[1] as int) + buf[2] as int && n > 255
    ensures DecodeDestination(buf) == Err(InvalidUtf8) <==>
              && |buf| >= 3 && buf[0] == 1 && buf[1] == 0 && |buf| >= 5 + buf[2] as int
              && NoText(buf[3..3 + buf[2] as int])
    ensures DecodeDestination(buf) == Ok(None) <==>
              buf == [] || (buf[0] == 1 && (|buf| < 3 || (buf[1] == 0 && |buf| < 5 + buf[2] as int)))
  {
    if |buf| >= 3 && buf[1] == 0 && |buf| >= 5 + buf[2] as int { NoTextIff(buf[3..3 + buf[2] as int]); }
  }

  /** Only a host whose encoding is over 255 bytes has no header. */
  lemma EncodesIff(host: string, port: Port)
    ensures EncodeDestination(host, port).Ok? <==> |Utf8.Encode(host)| <= 255
  {}

  // -------------------------------------------------------------- stream

  datatype ReadError = UnexpectedEof | InvalidData(error: FramingError)

  /** The host has arrived whole and is not UTF-8, so the reader refuses it without waiting for the port. */
  predicate BadHostArrived(buf: seq<Byte>)
  {
    && |buf| >= 3 && buf[0] == VERSION
    && var n := FromBigEndian(buf[1], buf[2]);
       n <= MAX_HOST_LEN && |buf| >= 3 + n && Utf8.Decode(buf[3..3 + n]).None?
  }

  /** A stream that will deliver these bytes and then end. */
  class ByteStream {
    var pending: seq<Byte>

    constructor (bytes: seq<Byte>)
      ensures pending == bytes
    {
      pending := bytes;
    }

    /** Exactly `n` bytes, or everything is drained and the read fails. */
    method ReadExact(n: nat) returns (r: Option<seq<Byte>>)
      modifies this
      ensures n <= |old(pending)| ==> r == Some(old(pending)[..n]) && pending == old(pending)[n..]
      ensures n > |old(pending)| ==> r == None && pending == []
    {
      if n <= |pending| {
        r, pending := Some(pending[..n]), pending[n..];
      } else {
        r, pending := None, [];
      }
    }

    /**
     The reader that takes the header piece by piece agrees with the decoder
     over the whole buffer; they differ only where the decoder would still
     wait for the port of a host that is already known to be bad.
     */
    method ReadDestination() returns (r: Result<(string, Port), ReadError>)
      modifies this
      ensures match DecodeDestination(old(pending))
              case Ok(Some(h)) => r == Ok((h.host, h.port)) && pending == old(pending)[h.length..]
              case Ok(None) =>
                r == Err(if BadHostArrived(old(pending)) then InvalidData(InvalidUtf8) else UnexpectedEof)
              case Err(e) => r == Err(InvalidData(e))
    {
      var version := ReadExact(1);
      if version.None? { return Err(UnexpectedEof); }
      if version.value[0] != VERSION { return Err(InvalidData(UnsupportedVersion(version.value[0]))); }
      var length := ReadExact(2);
      if length.None? { return Err(UnexpectedEof); }
      var hostLen := FromBigEndian(length.value[0], length.value[1]);
      if hostLen > MAX_HOST_LEN { return Err(InvalidData(HostTooLong(hostLen))); }
      var bytes := ReadExact(hostLen);
      if bytes.None? { return Err(UnexpectedEof); }
      assert bytes.value == old(pending)[3..3 + hostLen];
      var host := Utf8.Decode(bytes.value);
      if host.None? { return Err(InvalidData(InvalidUtf8)); }
      var port := ReadExact(2);
      if port.None? { return Err(UnexpectedEof); }
      r := Ok((host.value, FromBigEndian(port.value[0], port.value[1])));
    }
  }
}
