/** The message signature of `Subscription.create_message_signature` (b2listen/subscription.py):
    the text "v1=" followed by the lowercased hexadecimal digest of an HMAC-SHA256 of the body,
    keyed with the signing secret. The HMAC itself is a parameter; only the shape of the text is
    modelled, with a decoder that recovers the digest from it. */
module Signer {
  import opened Wrappers

  newtype byte = x: int | 0 <= x < 256

  /** A keyed message-authentication function: (secret, body) to digest bytes. Both arguments are
      taken as text; their UTF-8 encoding happens inside it. */
  type Mac = (string, string) -> seq<byte>

  const SignaturePrefix := "v1="

  predicate IsHexDigit(c: char) {
    '0' <= c <= '9' || 'a' <= c <= 'f'
  }

  /** The lowercase hexadecimal digit for `n`. */
  function HexDigit(n: nat): (c: char)
    requires n < 16
    ensures IsHexDigit(c) && HexValue(c) == Some(n)
  {
    if n < 10 then ('0' as int + n) as char else ('a' as int + n - 10) as char
  }

  /** The value of a lowercase hexadecimal digit. */
  function HexValue(c: char): (r: Option<nat>)
    ensures r.Some? <==> IsHexDigit(c)
    ensures r.Some? ==> r.value < 16
  {
    if '0' <= c <= '9' then Some(c as nat - '0' as nat)
    else if 'a' <= c <= 'f' then Some(10 + c as nat - 'a' as nat)
    else None
  }

  /** `hexdigest()`: two lowercase digits per byte, high half first. */
  function HexOf(d: seq<byte>): (r: string)
    ensures |r| == 2 * |d|
    ensures forall i :: 0 <= i < |r| ==> IsHexDigit(r[i])
  {
    if d == [] then ""
    else [HexDigit(d[0] as nat / 16), HexDigit(d[0] as nat % 16)] + HexOf(d[1..])
  }

  /** Reads back a text of lowercase hexadecimal digit pairs; `None` for an odd length or a
      character that is not such a digit. */
  function UnHex(s: string): Option<seq<byte>> {
    if s == [] then Some([])
    else if |s| == 1 then None
    else match (HexValue(s[0]), HexValue(s[1]), UnHex(s[2..]))
      case (Some(hi), Some(lo), Some(rest)) => Some([(16 * hi + lo) as byte] + rest)
      case _ => None
  }

  /** Reading back the digits of a digest gives the digest, so different digests give different
      texts. */
  lemma {:induction false} UnHexOfHex(d: seq<byte>)
    ensures UnHex(HexOf(d)) == Some(d)
  {
    if d != [] {
      var s := HexOf(d);
      assert s[2..] == HexOf(d[1..]);
      UnHexOfHex(d[1..]);
      var x := d[0] as nat;
      assert HexValue(s[0]) == Some(x / 16) && HexValue(s[1]) == Some(x % 16);
      assert 16 * (x / 16) + x % 16 == x;
      assert UnHex(s) == Some([(16 * (x / 16) + x % 16) as byte] + d[1..]);
      assert [d[0]] + d[1..] == d;
    }
  }

  /** `str.lower()` on ASCII letters; other characters are kept. */
  function Lower(s: string): (r: string)
    ensures |r| == |s|
    ensures forall i :: 0 <= i < |s| ==> !('A' <= r[i] <= 'Z')
    ensures forall i :: 0 <= i < |s| ==> !('A' <= s[i] <= 'Z') ==> r[i] == s[i]
  {
    seq(|s|, i requires 0 <= i < |s| => if 'A' <= s[i] <= 'Z' then (s[i] as int + 32) as char else s[i])
  }

  /** The `.lower()` applied to the digest changes nothing: it is lowercase already. */
  lemma LowerOfHex(d: seq<byte>)
    ensures Lower(HexOf(d)) == HexOf(d)
  {
    var s := HexOf(d);
    forall i | 0 <= i < |s| ensures !('A' <= s[i] <= 'Z') {
      assert IsHexDigit(s[i]);
    }
  }

  /** `create_message_signature(body)`. It depends only on the secret and the body, the body may
      be empty, and the digest can be read back from the text after the prefix. */
  function Signature(secret: string, body: string, mac: Mac): (r: string)
    ensures |r| == |SignaturePrefix| + 2 * |mac(secret, body)|
    ensures r[..|SignaturePrefix|] == SignaturePrefix
    ensures UnHex(r[|SignaturePrefix|..]) == Some(mac(secret, body))
  {
    var digest := mac(secret, body);
    LowerOfHex(digest);
    UnHexOfHex(digest);
    assert (SignaturePrefix + Lower(HexOf(digest)))[|SignaturePrefix|..] == HexOf(digest);
    SignaturePrefix + Lower(HexOf(digest))
  }
}
