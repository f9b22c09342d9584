/** `urlencoding` of the callback redirect: percent-encoding byte by byte. */
module PercentEncoding {
  import opened Wrappers
  import opened Sequences

  type Byte = b: int | 0 <= b < 256

  const HEX := "0123456789ABCDEF"

  /** The unreserved characters of section 2.3 of RFC 3986. */
  predicate Unreserved(b: Byte)
  {
    '0' as int <= b <= '9' as int || 'A' as int <= b <= 'Z' as int || 'a' as int <= b <= 'z' as int
    || b == '-' as int || b == '_' as int || b == '.' as int || b == '~' as int
  }

  function EncodedByte(b: Byte): string
  {
    if Unreserved(b) then [b as char] else ['%', HEX[b / 16], HEX[b % 16]]
  }

  function Encoded(bytes: seq<Byte>): string
  {
    if bytes == [] then "" else EncodedByte(bytes[0]) + Encoded(bytes[1..])
  }

  lemma {:induction false} EncodedSnoc(bytes: seq<Byte>, b: Byte)
    ensures Encoded(bytes + [b]) == Encoded(bytes) + EncodedByte(b)
  {
    if bytes == [] {
      assert Encoded([b]) == EncodedByte(b) + Encoded([]);
    } else {
      assert (bytes + [b])[1..] == bytes[1..] + [b];
      EncodedSnoc(bytes[1..], b);
      Assoc(EncodedByte(bytes[0]), Encoded(bytes[1..]), EncodedByte(b));
    }
  }

  method UrlEncoding(bytes: seq<Byte>) returns (out: string)
    ensures out == Encoded(bytes)
  {
    out := "";
    for i := 0 to |bytes|
      invariant out == Encoded(bytes[..i])
    {
      assert bytes[..i + 1] == bytes[..i] + [bytes[i]];
      EncodedSnoc(bytes[..i], bytes[i]);
      var b := bytes[i];
      if Unreserved(b) {
        out := out + [b as char];
      } else {
        out := out + ['%', HEX[b / 16], HEX[b % 16]];
      }
    }
    assert bytes[..|bytes|] == bytes;
  }

  // ----- decoding, section 2.1 of RFC 3986 -----

  /** Either case of a hexadecimal digit. */
  function HexValue(c: char): Option<Byte>
  {
    if '0' <= c <= '9' then Some(c as int - '0' as int)
    else if 'A' <= c <= 'F' then Some(c as int - 'A' as int + 10)
    else if 'a' <= c <= 'f' then Some(c as int - 'a' as int + 10)
    else None
  }

  /** The first octet of a percent-encoded text and the number of characters that spell it. */
  function Octet(t: string): (r: Option<(Byte, nat)>)
    requires t != ""
    ensures r.Some? ==> 0 < r.value.1 <= |t|
  {
    if t[0] != '%' then
      if t[0] as int < 256 then Some((t[0] as int, 1)) else None
    else if |t| < 3 || HexValue(t[1]) == None || HexValue(t[2]) == None then None
    else if HexValue(t[1]).value * 16 + HexValue(t[2]).value < 256
    then Some((HexValue(t[1]).value * 16 + HexValue(t[2]).value, 3)) else None
  }

  function Decoded(t: string): Option<seq<Byte>>
    decreases |t|
  {
    if t == "" then Some([])
    else match Octet(t)
      case None => None
      case Some((b, n)) =>
        match Decoded(t[n..])
        case None => None
        case Some(rest) => Some([b] + rest)
  }

  /** Only unreserved characters and %XX triplets in upper case, and no triplet for an octet that
      may stand for itself (the normal form of section 6.2.2 of RFC 3986). */
  predicate Normal(t: string)
    decreases |t|
  {
    t == "" ||
    (if t[0] != '%' then t[0] as int < 256 && Unreserved(t[0] as int) && Normal(t[1..])
     else |t| >= 3 && t[1] in HEX && t[2] in HEX && Octet(t).Some? && !Unreserved(Octet(t).value.0) && Normal(t[3..]))
  }

  lemma OctetOfEncoded(b: Byte, rest: string)
    ensures Octet(EncodedByte(b) + rest) == Some((b, |EncodedByte(b)|))
  {
    HexBack(b / 16);
    HexBack(b % 16);
  }

  lemma HexBack(d: int)
    requires 0 <= d < 16
    ensures HexValue(HEX[d]) == Some(d)
  {
  }

  /** Decoding gives back the bytes, and the output is in normal form. */
  lemma {:induction false} RoundTrip(bytes: seq<Byte>)
    ensures Decoded(Encoded(bytes)) == Some(bytes)
    ensures Normal(Encoded(bytes))
  {
    if bytes == [] {
    } else {
      var head, tail := EncodedByte(bytes[0]), Encoded(bytes[1..]);
      RoundTrip(bytes[1..]);
      OctetOfEncoded(bytes[0], tail);
      assert (head + tail)[|head|..] == tail;
      assert bytes == [bytes[0]] + bytes[1..];
    }
  }

  lemma TripletIsEncoded(c: char, d: char)
    requires c in HEX && d in HEX
    ensures HexValue(c).Some? && HexValue(d).Some?
    ensures var v := HexValue(c).value * 16 + HexValue(d).value; v < 256 && HEX[v / 16] == c && HEX[v % 16] == d
  {
    UpperHex(c);
    UpperHex(d);
    var x, y := HexValue(c).value, HexValue(d).value;
    assert (x * 16 + y) / 16 == x && (x * 16 + y) % 16 == y;
  }

  lemma NormalHead(t: string)
    requires t != "" && Normal(t)
    ensures Octet(t).Some?
    ensures var (b, n) := Octet(t).value; t[..n] == EncodedByte(b) && Normal(t[n..])
  {
    if t[0] == '%' { TripletIsEncoded(t[1], t[2]); }
  }

  /** Nothing else decodes to these bytes in normal form. */
  lemma {:induction false} NormalFormIsUnique(t: string, bytes: seq<Byte>)
    ensures Normal(t) && Decoded(t) == Some(bytes) <==> t == Encoded(bytes)
    decreases |t|
  {
    RoundTrip(bytes);
    if t != "" && Normal(t) && Decoded(t) == Some(bytes) {
      NormalHead(t);
      var (b, n) := Octet(t).value;
      var rest := Decoded(t[n..]).value;
      NormalFormIsUnique(t[n..], rest);
      assert bytes == [b] + rest;
      assert t == t[..n] + t[n..];
    }
  }

  lemma UpperHex(c: char)
    requires c in HEX
    ensures HexValue(c).Some? && HexValue(c).value < 16 && HEX[HexValue(c).value] == c
  {
  }
}
