/**
 The stored form of a secret: v1, the initialisation vector, the tag and the ciphertext in hexadecimal,
 joined by colons. The cipher itself (AES-256-GCM under the service's key) is a parameter.
 */
module Encryption {
  import opened Options
  import opened Text

  newtype byte = b: int | 0 <= b < 256

  type Bytes = seq<byte>

  // ---------- hexadecimal ----------

  function HexDigit(n: int): (c: char)
    requires 0 <= n < 16
    ensures HexValue(c) == n
  {
    if n < 10 then ('0' as int + n) as char else ('a' as int + n - 10) as char
  }

  /** -1 for a character that is no hexadecimal digit. */
  function HexValue(c: char): (n: int)
    ensures -1 <= n < 16
  {
    if '0' <= c <= '9' then c as int - '0' as int
    else if 'a' <= c <= 'f' then c as int - 'a' as int + 10
    else if 'A' <= c <= 'F' then c as int - 'A' as int + 10
    else -1
  }

  function ToHex(bs: Bytes): (s: string)
    ensures |s| == 2 * |bs| && Free(':', s)
  {
    if bs == [] then ""
    else [HexDigit(bs[0] as int / 16), HexDigit(bs[0] as int % 16)] + ToHex(bs[1..])
  }

  /** Buffer.from(s, 'hex'): stops at the first pair that is not two digits. */
  function FromHex(s: string): Bytes {
    if |s| < 2 || HexValue(s[0]) < 0 || HexValue(s[1]) < 0 then []
    else [(16 * HexValue(s[0]) + HexValue(s[1])) as byte] + FromHex(s[2..])
  }

  lemma {:induction false} HexRoundTrip(bs: Bytes)
    ensures FromHex(ToHex(bs)) == bs
  {
    if bs != [] {
      HexRoundTrip(bs[1..]);
      var s := ToHex(bs);
      assert s[2..] == ToHex(bs[1..]);
    }
  }

  predicate IsLowerHex(c: char) { HexValue(c) >= 0 && !('A' <= c <= 'F') }

  /** Pairs of lower-case digits. */
  predicate Canonical(s: string) { |s| % 2 == 0 && forall i :: 0 <= i < |s| ==> IsLowerHex(s[i]) }

  lemma {:induction false} HexIsCanonical(bs: Bytes)
    ensures Canonical(ToHex(bs))
  {
    if bs != [] { HexIsCanonical(bs[1..]); }
  }

  /** Decoding loses nothing exactly on the strings that encoding produces. */
  lemma {:induction false} HexBack(s: string)
    ensures ToHex(FromHex(s)) == s <==> Canonical(s)
  {
    HexIsCanonical(FromHex(s));
    if Canonical(s) && s != "" {
      assert IsLowerHex(s[0]) && IsLowerHex(s[1]);
      var a, b := HexValue(s[0]), HexValue(s[1]);
      assert (16 * a + b) / 16 == a && (16 * a + b) % 16 == b;
      assert Canonical(s[2..]);
      HexBack(s[2..]);
      assert s == [s[0], s[1]] + s[2..];
    }
  }

  // ---------- encrypt and decrypt ----------

  datatype Sealed = Sealed(tag: Bytes, ciphertext: Bytes)

  /** seal takes the vector and the plaintext; open takes the vector and what was sealed, None if it does not check. */
  datatype Cipher = Cipher(seal: (Bytes, Bytes) -> Sealed, open: (Bytes, Sealed) -> Option<Bytes>)

  ghost predicate Opens(c: Cipher) { forall iv, p :: c.open(iv, c.seal(iv, p)) == Some(p) }

  ghost predicate OpensOnlySealed(c: Cipher) { forall iv, x :: c.open(iv, x).Some? ==> c.seal(iv, c.open(iv, x).value) == x }

  datatype DecryptError = BadFormat | BadVersion | AuthFailed

  function Frame(iv: Bytes, x: Sealed): string {
    "v1" + ":" + ToHex(iv) + ":" + ToHex(x.tag) + ":" + ToHex(x.ciphertext)
  }

  function Encrypt(c: Cipher, iv: Bytes, plaintext: Bytes): string { Frame(iv, c.seal(iv, plaintext)) }

  function Decrypt(c: Cipher, encrypted: string): Result<Bytes, DecryptError> {
    var parts := Split(':', encrypted);
    if |parts| != 4 then Err(BadFormat)
    else if parts[0] != "v1" then Err(BadVersion)
    else match c.open(FromHex(parts[1]), Sealed(FromHex(parts[2]), FromHex(parts[3])))
      case Some(p) => Ok(p)
      case None => Err(AuthFailed)
  }

  lemma FrameParts(iv: Bytes, x: Sealed)
    ensures Split(':', Frame(iv, x)) == ["v1", ToHex(iv), ToHex(x.tag), ToHex(x.ciphertext)]
  {
    var parts := ["v1", ToHex(iv), ToHex(x.tag), ToHex(x.ciphertext)];
    assert Join(':', parts[3..]) == parts[3];
    assert Join(':', parts[2..]) == parts[2] + ":" + Join(':', parts[2..][1..]) && parts[2..][1..] == parts[3..];
    assert Join(':', parts[1..]) == parts[1] + ":" + Join(':', parts[1..][1..]) && parts[1..][1..] == parts[2..];
    assert Join(':', parts) == Frame(iv, x);
    SplitJoin(':', parts);
  }

  function Count(c: char, s: string): nat {
    if s == "" then 0 else (if s[0] == c then 1 else 0) + Count(c, s[1..])
  }

  /** A string has one field more than separators, and the first ends at the first separator. */
  lemma {:induction false} FieldsOf(c: char, s: string)
    ensures |Split(c, s)| == Count(c, s) + 1 && Free(c, Split(c, s)[0])
    ensures Count(c, s) > 0 ==> Split(c, s)[0] + [c] <= s
  {
    if s != "" { FieldsOf(c, s[1..]); }
  }

  /** Which strings are refused for their form: other than four fields, or a first field other than v1. */
  lemma DecryptRefuses(c: Cipher, s: string)
    ensures Decrypt(c, s) == Err(BadFormat) <==> Count(':', s) != 3
    ensures Decrypt(c, s) == Err(BadVersion) <==> Count(':', s) == 3 && !("v1:" <= s)
  {
    FieldsOf(':', s);
    var first := Split(':', s)[0];
    if Count(':', s) == 3 && "v1:" <= s {
      assert first + [':'] + s[|first| + 1..] == s == "v1" + [':'] + s[3..];
      SplitFirst(':', first, s[|first| + 1..], "v1", s[3..]);
    }
  }

  /** Each byte is written as its two hexadecimal digits, the high one first. */
  lemma HexIsWritten(bs: Bytes, i: nat)
    requires i < |bs|
    ensures ToHex(bs)[2 * i] == "0123456789abcdef"[bs[i] as int / 16] && ToHex(bs)[2 * i + 1] == "0123456789abcdef"[bs[i] as int % 16]
    decreases i
  {
    DigitTable(bs[i] as int / 16);
    DigitTable(bs[i] as int % 16);
    if i > 0 {
      HexIsWritten(bs[1..], i - 1);
      assert ToHex(bs)[2 * i] == ToHex(bs[1..])[2 * (i - 1)];
    }
  }

  /** Digits are read in either case, and nothing else is one. */
  lemma DigitsRead(c: char, n: int)
    requires 0 <= n < 16
    ensures HexValue("0123456789abcdef"[n]) == HexValue("0123456789ABCDEF"[n]) == n
    ensures HexValue(c) >= 0 ==> c == "0123456789abcdef"[HexValue(c)] || c == "0123456789ABCDEF"[HexValue(c)]
  {
  }

  lemma DigitTable(n: int)
    requires 0 <= n < 16
    ensures HexDigit(n) == "0123456789abcdef"[n]
  {
  }

  /** Decryption undoes encryption, whatever the vector, for a cipher that opens what it sealed. */
  lemma DecryptEncrypt(c: Cipher, iv: Bytes, plaintext: Bytes)
    requires Opens(c)
    ensures Decrypt(c, Encrypt(c, iv, plaintext)) == Ok(plaintext)
    ensures Encrypt(c, iv, plaintext) != ""
  {
    var x := c.seal(iv, plaintext);
    FrameParts(iv, x);
    HexRoundTrip(iv);
    HexRoundTrip(x.tag);
    HexRoundTrip(x.ciphertext);
  }

  /**
   Conversely, for a cipher that opens nothing else, a stored string that decrypts is the encryption of
   its plaintext exactly when its three fields are lower-case hexadecimal.
   */
  lemma EncryptDecrypt(c: Cipher, s: string)
    requires OpensOnlySealed(c) && Decrypt(c, s).Ok?
    ensures var parts := Split(':', s);
            |parts| == 4 &&
            (Encrypt(c, FromHex(parts[1]), Decrypt(c, s).value) == s <==>
             Canonical(parts[1]) && Canonical(parts[2]) && Canonical(parts[3]))
  {
    var parts := Split(':', s);
    var iv, x := FromHex(parts[1]), Sealed(FromHex(parts[2]), FromHex(parts[3]));
    assert c.seal(iv, Decrypt(c, s).value) == x;
    HexBack(parts[1]);
    HexBack(parts[2]);
    HexBack(parts[3]);
    FrameParts(iv, x);
    JoinSplit(':', s);
    var again := ["v1", ToHex(iv), ToHex(x.tag), ToHex(x.ciphertext)];
    JoinSplit(':', Frame(iv, x));
    if again == parts { assert Frame(iv, x) == s; }
    assert parts == [parts[0], parts[1], parts[2], parts[3]];
  }
}
