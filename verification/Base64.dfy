/** Base64 for URLs: section 5 of RFC 4648, without padding. */
module Base64 {
  import opened Text

  newtype byte = x: int | 0 <= x < 256

  type sextet = x: int | 0 <= x < 64

  /** The URL-safe alphabet. */
  function Digit(x: sextet): (c: char)
    ensures IsTokenChar(c) && Value(c) == x
  {
    if x < 26 then (('A' as int) + x) as char
    else if x < 52 then (('a' as int) + x - 26) as char
    else if x < 62 then (('0' as int) + x - 52) as char
    else if x == 62 then '-'
    else '_'
  }

  /** The characters of opaque tokens and digests. */
  predicate IsTokenChar(c: char) {
    'A' <= c <= 'Z' || 'a' <= c <= 'z' || '0' <= c <= '9' || c == '_' || c == '-'
  }

  function Value(c: char): sextet
    requires IsTokenChar(c)
  {
    if 'A' <= c <= 'Z' then c as int - 'A' as int
    else if 'a' <= c <= 'z' then c as int - 'a' as int + 26
    else if '0' <= c <= '9' then c as int - '0' as int + 52
    else if c == '-' then 62
    else 63
  }

  predicate IsToken(s: string) {
    forall c | c in s :: IsTokenChar(c)
  }

  /** The six-bit digits of up to three bytes. */
  function Sextets(group: seq<byte>): (xs: seq<sextet>)
    requires 0 < |group| <= 3
    ensures |xs| == |group| + 1
  {
    var a := group[0] as int;
    if |group| == 1 then [a / 4, a % 4 * 16]
    else
      var b := group[1] as int;
      if |group| == 2 then [a / 4, a % 4 * 16 + b / 16, b % 16 * 4]
      else
        var c := group[2] as int;
        [a / 4, a % 4 * 16 + b / 16, b % 16 * 4 + c / 64, c % 64]
  }

  /** The bytes of two to four six-bit digits. */
  function Bytes(xs: seq<sextet>): (group: seq<byte>)
    requires 2 <= |xs| <= 4
    ensures |group| == |xs| - 1
  {
    var x: int, y: int := xs[0], xs[1];
    var a := (x * 4 + y / 16) as byte;
    if |xs| == 2 then [a]
    else
      var z: int := xs[2];
      var b := (y % 16 * 16 + z / 4) as byte;
      if |xs| == 3 then [a, b] else [a, b, (z % 4 * 64 + xs[3]) as byte]
  }

  lemma BytesSextets(group: seq<byte>)
    requires 0 < |group| <= 3
    ensures Bytes(Sextets(group)) == group
  {
    if |group| == 1 {
      OneByte(group[0]);
    } else if |group| == 2 {
      TwoBytes(group[0], group[1]);
    } else {
      ThreeBytes(group[0], group[1], group[2]);
    }
  }

  lemma OneByte(a: byte)
    ensures Bytes(Sextets([a])) == [a]
  {
  }

  lemma TwoBytes(a: byte, b: byte)
    ensures Bytes(Sextets([a, b])) == [a, b]
  {
  }

  lemma ThreeBytes(a: byte, b: byte, c: byte)
    ensures Bytes(Sextets([a, b, c])) == [a, b, c]
  {
  }

  function Digits(xs: seq<sextet>): (s: string)
    ensures |s| == |xs| && IsToken(s)
    ensures forall i | 0 <= i < |xs| :: s[i] == Digit(xs[i])
  {
    if xs == [] then "" else [Digit(xs[0])] + Digits(xs[1..])
  }

  function Values(s: string): (xs: seq<sextet>)
    requires IsToken(s)
    ensures |xs| == |s|
  {
    if s == "" then [] else [Value(s[0])] + Values(s[1..])
  }

  lemma {:induction false} ValuesDigits(xs: seq<sextet>)
    ensures Values(Digits(xs)) == xs
  {
    if xs != [] {
      ValuesDigits(xs[1..]);
      assert Digits(xs)[1..] == Digits(xs[1..]);
    }
  }

  function Chunk(n: nat, bytes: seq<byte>): (size: nat)
    ensures size <= n && size <= |bytes|
  {
    if |bytes| < n then |bytes| else n
  }

  /** Three bytes become four digits; one or two left over become two or three. */
  function Encode(bytes: seq<byte>): (s: string)
    ensures IsToken(s)
    ensures |s| == (4 * |bytes| + 2) / 3
  {
    if bytes == [] then ""
    else
      var n := Chunk(3, bytes);
      Digits(Sextets(bytes[..n])) + Encode(bytes[n..])
  }

  function Decode(s: string): seq<byte>
    requires IsToken(s)
  {
    if |s| < 2 then []
    else
      var n := if |s| < 4 then |s| else 4;
      Bytes(Values(s[..n])) + Decode(s[n..])
  }

  lemma {:induction false} DecodeStep(head: string, rest: string)
    requires IsToken(head) && IsToken(rest) && 2 <= |head| <= 4 && (|head| < 4 ==> rest == "")
    ensures Decode(head + rest) == Bytes(Values(head)) + Decode(rest)
  {
    assert (head + rest)[..|head|] == head && (head + rest)[|head|..] == rest;
  }

  lemma {:induction false} DecodeGroup(group: seq<byte>, rest: string)
    requires 0 < |group| <= 3 && IsToken(rest) && (|group| < 3 ==> rest == "")
    ensures IsToken(Digits(Sextets(group)) + rest)
    ensures Decode(Digits(Sextets(group)) + rest) == group + Decode(rest)
  {
    var xs := Sextets(group);
    ValuesDigits(xs);
    BytesSextets(group);
    DecodeStep(Digits(xs), rest);
  }

  /** Decoding undoes encoding, so no two byte strings share an encoding. */
  lemma {:induction false} DecodeEncode(bytes: seq<byte>)
    ensures Decode(Encode(bytes)) == bytes
  {
    if bytes != [] {
      var n := Chunk(3, bytes);
      DecodeEncode(bytes[n..]);
      DecodeGroup(bytes[..n], Encode(bytes[n..]));
      assert bytes == bytes[..n] + bytes[n..];
    }
  }

  // ----- The platform's encoder and the source's clean-up of its output -----

  /** The standard alphabet of `btoa`: `+` and `/` where the URL-safe one has `-` and `_`. */
  function StandardDigit(x: sextet): char {
    if x == 62 then '+' else if x == 63 then '/' else Digit(x)
  }

  function StandardDigits(xs: seq<sextet>): (s: string)
    ensures |s| == |xs|
    ensures forall i | 0 <= i < |xs| :: s[i] == StandardDigit(xs[i])
  {
    if xs == [] then "" else [StandardDigit(xs[0])] + StandardDigits(xs[1..])
  }

  function Padding(n: nat): string
    requires n <= 3
  {
    match n
    case 1 => "=="
    case 2 => "="
    case _ => ""
  }

  function Btoa(bytes: seq<byte>): string {
    if bytes == [] then ""
    else
      var n := Chunk(3, bytes);
      StandardDigits(Sextets(bytes[..n])) + Padding(n) + Btoa(bytes[n..])
  }

  function ReplaceAll(s: string, from: char, to: char): (r: string)
    ensures |r| == |s|
    ensures forall i | 0 <= i < |s| :: r[i] == if s[i] == from then to else s[i]
  {
    if s == "" then "" else [if s[0] == from then to else s[0]] + ReplaceAll(s[1..], from, to)
  }

  function DropPadding(s: string): string {
    if s != "" && s[|s| - 1] == '=' then DropPadding(s[..|s| - 1]) else s
  }

  function EncodeBase64URL(bytes: seq<byte>): string {
    DropPadding(UrlSafe(Btoa(bytes)))
  }

  function UrlSafe(s: string): string {
    ReplaceAll(ReplaceAll(s, '+', '-'), '/', '_')
  }

  lemma UrlSafeAppend(left: string, right: string)
    ensures UrlSafe(left + right) == UrlSafe(left) + UrlSafe(right)
  {
  }

  lemma {:induction false} UrlSafeDigits(xs: seq<sextet>)
    ensures UrlSafe(StandardDigits(xs)) == Digits(xs)
  {
    forall i | 0 <= i < |xs| ensures UrlSafe(StandardDigits(xs))[i] == Digits(xs)[i] {
      assert IsTokenChar(Digit(xs[i])) && Value(Digit(xs[i])) == xs[i];
    }
  }

  function PaddingOf(bytes: seq<byte>): string {
    Padding(|bytes| % 3)
  }

  /** Characters exchanged, the platform's output is the URL-safe encoding and its padding. */
  lemma {:induction false} BtoaReplaced(bytes: seq<byte>)
    ensures UrlSafe(Btoa(bytes)) == Encode(bytes) + PaddingOf(bytes)
  {
    if bytes != [] {
      var n := Chunk(3, bytes);
      var rest := bytes[n..];
      var digits := Digits(Sextets(bytes[..n]));
      BtoaReplaced(rest);
      UrlSafeDigits(Sextets(bytes[..n]));
      UrlSafeAppend(StandardDigits(Sextets(bytes[..n])) + Padding(n), Btoa(rest));
      UrlSafeAppend(StandardDigits(Sextets(bytes[..n])), Padding(n));
      PaddingIsSafe(n);
      Associative(digits, Padding(n), Encode(rest) + PaddingOf(rest));
      PaddingCarries(bytes, n);
      Associative(digits, Encode(rest), PaddingOf(bytes));
    }
  }

  lemma PaddingIsSafe(n: nat)
    requires n <= 3
    ensures UrlSafe(Padding(n)) == Padding(n)
  {
  }

  lemma PaddingCarries(bytes: seq<byte>, n: nat)
    requires bytes != [] && n == Chunk(3, bytes)
    ensures Padding(n) + (Encode(bytes[n..]) + PaddingOf(bytes[n..])) == Encode(bytes[n..]) + PaddingOf(bytes)
  {
    if n < 3 {
      assert bytes[n..] == [];
      assert Padding(n) + ("" + "") == "" + Padding(n);
    } else {
      assert Padding(n) == "" && |bytes[n..]| % 3 == |bytes| % 3;
    }
  }

  lemma {:induction false} PaddingDropped(s: string, padding: string)
    requires IsToken(s) && padding in ["", "=", "=="]
    ensures DropPadding(s + padding) == s
  {
    NothingToDrop(s);
    if padding == "" {
      assert s + padding == s;
    } else if padding == "=" {
      DropOne(s);
    } else {
      assert s + padding == s + "=" + "=";
      DropOne(s + "=");
      DropOne(s);
    }
  }

  lemma {:induction false} NothingToDrop(s: string)
    requires IsToken(s)
    ensures DropPadding(s) == s
  {
    assert s != "" ==> IsTokenChar(s[|s| - 1]);
  }

  lemma {:induction false} DropOne(s: string)
    ensures DropPadding(s + "=") == DropPadding(s)
  {
    assert (s + "=")[..|s|] == s;
  }

  /** The hand-written encoder is the URL-safe base64 of its bytes. */
  lemma {:induction false} EncodeBase64URLExact(bytes: seq<byte>)
    ensures EncodeBase64URL(bytes) == Encode(bytes)
  {
    BtoaReplaced(bytes);
    PaddingDropped(Encode(bytes), PaddingOf(bytes));
  }
}
