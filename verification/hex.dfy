/** Hexadecimal strings: encoding/hex as node-implementation/blockchain.go uses it on hashes. */
module Hex {

  type byte = n: nat | n < 256

  type Bytes = seq<byte>

  function Digit(n: nat): char
    requires n < 16
  {
    "0123456789abcdef"[n]
  }

  predicate IsDigit(c: char) {
    '0' <= c <= '9' || 'a' <= c <= 'f' || 'A' <= c <= 'F'
  }

  function Nibble(c: char): (n: nat)
    requires IsDigit(c)
    ensures n < 16
  {
    if c <= '9' then c as int - '0' as int
    else if c <= 'F' then c as int - 'A' as int + 10
    else c as int - 'a' as int + 10
  }

  /** hex.DecodeString succeeds. */
  predicate Decodes(s: string) {
    |s| % 2 == 0 && forall i :: 0 <= i < |s| ==> IsDigit(s[i])
  }

  function Decode(s: string): (r: Bytes)
    requires Decodes(s)
    ensures |r| == |s| / 2
  {
    if s == "" then [] else [16 * Nibble(s[0]) + Nibble(s[1])] + Decode(s[2..])
  }

  /** hex.EncodeToString. */
  function Encode(bytes: Bytes): (s: string)
    ensures |s| == 2 * |bytes|
  {
    if bytes == [] then "" else [Digit(bytes[0] / 16), Digit(bytes[0] % 16)] + Encode(bytes[1..])
  }

  /** What becomes of a string that is decoded and encoded again. */
  function Reencoded(s: string): string {
    if Decodes(s) then Encode(Decode(s)) else s
  }

  predicate Canonical(s: string) {
    Decodes(s) && Reencoded(s) == s
  }

  predicate IsUpper(c: char) {
    'A' <= c <= 'F'
  }

  lemma DigitNibble(c: char)
    requires IsDigit(c)
    ensures Digit(Nibble(c)) == c <==> !IsUpper(c)
  {
  }

  lemma NibbleDigit(n: nat)
    requires n < 16
    ensures IsDigit(Digit(n)) && !IsUpper(Digit(n)) && Nibble(Digit(n)) == n
  {
  }

  lemma SplitByte(hi: nat, lo: nat)
    requires hi < 16 && lo < 16
    ensures (16 * hi + lo) / 16 == hi && (16 * hi + lo) % 16 == lo
  {
  }

  /** The value of a digit is its place in the alphabet, whatever its case. */
  lemma NibbleIsValue(c: char)
    requires IsDigit(c)
    ensures "0123456789abcdef"[Nibble(c)] == c || "0123456789ABCDEF"[Nibble(c)] == c
  {
  }

  /** Byte i is written with digits 2 i and 2 i + 1, the upper half first. */
  lemma {:induction false} DecodeAt(s: string, i: nat)
    requires Decodes(s) && 2 * i + 1 < |s|
    ensures Decode(s)[i] / 16 == Nibble(s[2 * i]) && Decode(s)[i] % 16 == Nibble(s[2 * i + 1])
  {
    hide Nibble, IsDigit;
    SplitByte(Nibble(s[0]), Nibble(s[1]));
    if i > 0 {
      DecodeAt(s[2..], i - 1);
    }
  }

  /** Encoding gives back the digits of the string, in lower case. */
  lemma {:induction false} ReencodedAt(s: string, i: nat)
    requires Decodes(s) && i < |s|
    ensures |Reencoded(s)| == |s| && Reencoded(s)[i] == Digit(Nibble(s[i]))
  {
    hide Nibble, Digit, IsDigit;
    SplitByte(Nibble(s[0]), Nibble(s[1]));
    if i >= 2 {
      ReencodedAt(s[2..], i - 2);
    }
  }

  /** A decodable string survives the round trip exactly when it has no upper-case digit. */
  lemma CanonicalIff(s: string)
    requires Decodes(s)
    ensures Canonical(s) <==> forall i :: 0 <= i < |s| ==> !IsUpper(s[i])
  {
    forall i | 0 <= i < |s| ensures |Reencoded(s)| == |s| && (Reencoded(s)[i] == s[i] <==> !IsUpper(s[i])) {
      ReencodedAt(s, i);
      DigitNibble(s[i]);
    }
    hide Reencoded, IsUpper, IsDigit;
    if |s| > 0 {
      assert |Reencoded(s)| == |s|;
    }
  }

  lemma {:induction false} EncodeDecodes(bytes: Bytes)
    ensures Decodes(Encode(bytes))
  {
    hide IsDigit, Digit;
    if bytes != [] {
      EncodeDecodes(bytes[1..]);
      NibbleDigit(bytes[0] / 16);
      NibbleDigit(bytes[0] % 16);
      var s, rest := Encode(bytes), Encode(bytes[1..]);
      forall i | 0 <= i < |s| ensures IsDigit(s[i]) {
        if i >= 2 {
          assert s[i] == rest[i - 2];
        }
      }
    }
  }

  /** Round trip: decoding undoes encoding, and what encoding yields is canonical. */
  lemma {:induction false} DecodeEncode(bytes: Bytes)
    ensures Canonical(Encode(bytes)) && Decode(Encode(bytes)) == bytes
  {
    hide IsDigit, Digit, Nibble;
    EncodeDecodes(bytes);
    if bytes != [] {
      var s := Encode(bytes);
      NibbleDigit(bytes[0] / 16);
      NibbleDigit(bytes[0] % 16);
      DecodeEncode(bytes[1..]);
      assert s[2..] == Encode(bytes[1..]);
      assert s[0] == Digit(bytes[0] / 16) && s[1] == Digit(bytes[0] % 16);
      JoinByte(bytes[0]);
    }
  }

  lemma JoinByte(n: nat)
    ensures 16 * (n / 16) + n % 16 == n
  {
  }
}
