/** `Passback`: the encryption of passbacks in exchange connectors.

    A passback is encrypted (AES-128 in CFB mode, section 6.3 of NIST SP
    800-38A), a CRC-32 digest of the ciphertext is appended, and the whole is
    Base16-encoded (section 8 of RFC 4648). Decryption undoes the framing and
    refuses anything whose digest does not match. The cipher and CRC-32 are
    oracles; strings are byte sequences. */
module Passback {
  import opened Wrappers

  newtype Byte = b: int | 0 <= b < 256

  /** `CRC32::DIGESTSIZE`, `AES::DEFAULT_KEYLENGTH`, `AES::BLOCKSIZE`. */
  const DigestSize: nat := 4
  const KeyLength: nat := 16
  const BlockSize: nat := 16

  type Digest = d: seq<Byte> | |d| == DigestSize witness [0, 0, 0, 0]

  /** CRC-32 and the two directions of AES-128/CFB, keyed by the key and IV bytes. */
  datatype Crypto = Crypto(crc32: seq<Byte> -> Digest,
                           encrypt: (seq<Byte>, seq<Byte>, seq<Byte>) -> seq<Byte>,
                           decrypt: (seq<Byte>, seq<Byte>, seq<Byte>) -> seq<Byte>)

  // ---------------------------------------------------------------- Base16

  /** The upper-case digits the encoder emits, as ASCII codes. */
  const HexDigits: seq<Byte> := [48, 49, 50, 51, 52, 53, 54, 55, 56, 57, 65, 66, 67, 68, 69, 70]

  /** The value of a hexadecimal digit, either case. */
  function HexValue(c: Byte): (r: Option<nat>)
    ensures r.Some? ==> r.value < 16
    ensures forall d :: 0 <= d < 16 ==> (HexDigits[d] == c ==> r == Some(d))
  {
    if 48 <= c <= 57 then Some((c - 48) as nat)
    else if 65 <= c <= 70 then Some((c - 55) as nat)
    else if 97 <= c <= 102 then Some((c - 87) as nat)
    else None
  }

  function HexPair(b: Byte): seq<Byte> {
    [HexDigits[b as int / 16], HexDigits[b as int % 16]]
  }

  /** `hexEncode`: two digits per byte, high nibble first. */
  function HexEncode(bytes: seq<Byte>): (text: seq<Byte>)
    ensures |text| == 2 * |bytes|
  {
    if |bytes| == 0 then [] else HexPair(bytes[0]) + HexEncode(bytes[1..])
  }

  /** The digit values of `text` in order. CryptoPP's decoder skips every
      character that is not a hexadecimal digit. */
  function Nibbles(text: seq<Byte>): (ns: seq<nat>)
    ensures |ns| <= |text|
    ensures forall i :: 0 <= i < |ns| ==> ns[i] < 16
  {
    if |text| == 0 then [] else DigitOf(text[0]) + Nibbles(text[1..])
  }

  /** The value of one character as a digit, or nothing for a non-digit. */
  function DigitOf(c: Byte): (ns: seq<nat>)
    ensures |ns| <= 1 && forall i :: 0 <= i < |ns| ==> ns[i] < 16
  {
    match HexValue(c)
    case Some(v) => [v]
    case None => []
  }

  predicate AreNibbles(ns: seq<nat>) {
    forall i :: 0 <= i < |ns| ==> ns[i] < 16
  }

  /** Bytes from nibbles, high nibble first; an odd last nibble is left out. */
  function Pack(ns: seq<nat>): (bytes: seq<Byte>)
    requires AreNibbles(ns)
    ensures |bytes| == |ns| / 2
  {
    if |ns| < 2 then [] else [(ns[0] * 16 + ns[1]) as Byte] + Pack(ns[2..])
  }

  /** The decoder object's state: a digit waiting for its partner, and the
      decoded bytes not yet taken out of it. */
  datatype Decoder = Decoder(pending: seq<nat>, queued: seq<Byte>)

  predicate ValidDecoder(d: Decoder) {
    |d.pending| <= 1 && AreNibbles(d.pending)
  }

  /** A decoder that has never been fed, or was fed exactly what it returned. */
  const Fresh: Decoder := Decoder([], [])

  /** `hexDecoder.Put`: every digit fed in joins the pending one; each
      complete pair becomes a queued byte, and an odd last digit waits. */
  function Put(d: Decoder, text: seq<Byte>): (r: Decoder)
    requires ValidDecoder(d)
    ensures ValidDecoder(r)
    ensures r.queued == d.queued + Pack(d.pending + Nibbles(text))
    ensures |r.pending| <= |d.pending| + |Nibbles(text)|
  {
    var all := d.pending + Nibbles(text);
    Decoder(if |all| % 2 == 1 then [all[|all| - 1]] else [], d.queued + Pack(all))
  }

  /** The `count` bytes of an uninitialised buffer. */
  function Uninitialised(unset: nat -> Byte, count: nat): (bytes: seq<Byte>)
    ensures |bytes| == count
  {
    seq(count, i requires 0 <= i => unset(i))
  }

  /** `hexDecode`: feeds the text to the object's decoder, then takes out half
      as many bytes as the text has characters. Bytes the decoder does not
      hold are the uninitialised buffer, read from `unset`; bytes it holds
      beyond the count stay queued for the next call, as does an odd digit. */
  function HexDecode(d: Decoder, text: seq<Byte>, unset: nat -> Byte): (r: (seq<Byte>, Decoder))
    requires ValidDecoder(d)
    ensures ValidDecoder(r.1)
    ensures |r.0| == |text| / 2
    ensures r.1.pending == Put(d, text).pending
    ensures var avail := Put(d, text).queued;
            (|text| / 2 <= |avail| ==> r.0 == avail[..|text| / 2] && r.1.queued == avail[|text| / 2..])
            && (|avail| < |text| / 2 ==> r.0[..|avail|] == avail && r.1.queued == [])
  {
    var fed := Put(d, text);
    var n := |text| / 2;
    if n <= |fed.queued| then (fed.queued[..n], fed.(queued := fed.queued[n..]))
    else (fed.queued + Uninitialised(unset, n - |fed.queued|), fed.(queued := []))
  }

  /** Intended decoding, independent of earlier calls: every pair of digits
      of this text, and nothing else. */
  function DecodeText(text: seq<Byte>): (bytes: seq<Byte>)
    ensures |bytes| <= |text| / 2
  {
    Pack(Nibbles(text))
  }

  lemma HexPairDecodes(b: Byte)
    ensures HexValue(HexPair(b)[0]) == Some(b as int / 16)
    ensures HexValue(HexPair(b)[1]) == Some(b as int % 16)
  {
  }

  lemma {:induction false} NibblesAppend(a: seq<Byte>, b: seq<Byte>)
    ensures Nibbles(a + b) == Nibbles(a) + Nibbles(b)
  {
    if |a| == 0 {
      assert a + b == b;
    } else {
      assert (a + b)[0] == a[0];
      assert (a + b)[1..] == a[1..] + b;
      NibblesAppend(a[1..], b);
      assert Nibbles(a + b) == DigitOf(a[0]) + (Nibbles(a[1..]) + Nibbles(b));
    }
  }

  /** The digits of an encoding are the bytes' nibbles, high first. */
  function NibblesOf(bytes: seq<Byte>): (ns: seq<nat>)
    ensures AreNibbles(ns) && |ns| == 2 * |bytes|
  {
    if |bytes| == 0 then [] else [bytes[0] as int / 16, bytes[0] as int % 16] + NibblesOf(bytes[1..])
  }

  lemma {:induction false} NibblesOfEncode(bytes: seq<Byte>)
    ensures Nibbles(HexEncode(bytes)) == NibblesOf(bytes)
  {
    if |bytes| > 0 {
      var p := HexPair(bytes[0]);
      NibblesAppend(p, HexEncode(bytes[1..]));
      HexPairDecodes(bytes[0]);
      assert p[1..][1..] == [];
      assert Nibbles(p[1..]) == [bytes[0] as int % 16] + Nibbles(p[1..][1..]);
      assert Nibbles(p) == [bytes[0] as int / 16] + Nibbles(p[1..]);
      NibblesOfEncode(bytes[1..]);
    }
  }

  lemma {:induction false} PackNibblesOf(bytes: seq<Byte>)
    ensures Pack(NibblesOf(bytes)) == bytes
  {
    if |bytes| > 0 {
      var ns := NibblesOf(bytes);
      assert ns[2..] == NibblesOf(bytes[1..]);
      PackNibblesOf(bytes[1..]);
      assert ((bytes[0] as int / 16) * 16 + bytes[0] as int % 16) as Byte == bytes[0];
      assert [bytes[0]] + bytes[1..] == bytes;
    }
  }

  /** Pairs packed from a prefix of even length come first. */
  lemma {:induction false} PackAppend(a: seq<nat>, b: seq<nat>)
    requires AreNibbles(a) && AreNibbles(b) && |a| % 2 == 0
    ensures AreNibbles(a + b)
    ensures Pack(a + b) == Pack(a) + Pack(b)
  {
    if |a| == 0 {
      assert a + b == b;
    } else {
      var ab := a + b;
      assert ab[0] == a[0] && ab[1] == a[1];
      assert ab[2..] == a[2..] + b;
      PackAppend(a[2..], b);
      assert Pack(ab) == [(a[0] * 16 + a[1]) as Byte] + Pack(ab[2..]);
    }
  }

  /** Decoding what was encoded gives the bytes back. */
  lemma HexDecodeEncode(bytes: seq<Byte>)
    ensures DecodeText(HexEncode(bytes)) == bytes
  {
    NibblesOfEncode(bytes);
    PackNibblesOf(bytes);
  }

  /** The object's decoder, fresh, returns the encoded bytes and is fresh again. */
  lemma HexDecodeFreshEncode(bytes: seq<Byte>, unset: nat -> Byte)
    ensures HexDecode(Fresh, HexEncode(bytes), unset) == (bytes, Fresh)
  {
    var text := HexEncode(bytes);
    EncodingAllDigits(bytes);
    HexDecodeEncode(bytes);
    var all := Fresh.pending + Nibbles(text);
    assert all == Nibbles(text) && |all| == 2 * |bytes|;
    var fed := Put(Fresh, text);
    assert fed.queued == DecodeText(text) == bytes;
    assert fed.pending == [];
    DecodeExact(Fresh, text, unset);
  }

  /** Text of digits only, given to a fresh decoder, decodes as the intended
      decoding does, whatever its length. */
  lemma HexDecodeFreshDigits(text: seq<Byte>, unset: nat -> Byte)
    requires |Nibbles(text)| == |text|
    ensures HexDecode(Fresh, text, unset).0 == DecodeText(text)
  {
    assert Fresh.pending + Nibbles(text) == Nibbles(text);
    var fed := Put(Fresh, text);
    assert fed.queued == Pack(Nibbles(text));
    assert fed.queued[..|text| / 2] == fed.queued;
  }

  /** When the decoder holds exactly the bytes asked for, all of them come
      out and only the pending digit stays. */
  lemma DecodeExact(d: Decoder, text: seq<Byte>, unset: nat -> Byte)
    requires ValidDecoder(d)
    requires |Put(d, text).queued| == |text| / 2
    ensures HexDecode(d, text, unset) == (Put(d, text).queued, Put(d, text).(queued := []))
  {
    var fed := Put(d, text);
    assert fed.queued[..|text| / 2] == fed.queued;
    assert fed.queued[|text| / 2..] == [];
  }

  /** An odd trailing digit does not stop decoding: the pairs before it are
      returned and the digit stays in the decoder. */
  lemma OddTrailingDigitKept(text: seq<Byte>, digit: nat, unset: nat -> Byte)
    requires digit < 16 && |text| % 2 == 0 && |Nibbles(text)| == |text|
    ensures HexDecode(Fresh, text + [HexDigits[digit]], unset) == (DecodeText(text), Decoder([digit], []))
  {
    var last: seq<Byte> := [HexDigits[digit]];
    NibblesAppend(text, last);
    assert last[1..] == [];
    assert Nibbles(last) == [digit];
    var all := Fresh.pending + Nibbles(text + last);
    assert all == Nibbles(text) + [digit];
    PackAppend(Nibbles(text), [digit]);
    assert Pack([digit]) == [];
    assert Pack(all) == DecodeText(text);
    var fed := Put(Fresh, text + last);
    assert fed.pending == [digit];
    assert fed.queued == DecodeText(text);
    assert |DecodeText(text)| == |text| / 2 == |text + last| / 2;
    DecodeExact(Fresh, text + last, unset);
    assert fed.(queued := []) == Decoder([digit], []);
  }

  lemma PackHead(ns: seq<nat>)
    requires AreNibbles(ns) && |ns| >= 2
    ensures Pack(ns)[0] as int == ns[0] * 16 + ns[1]
  {
  }

  /** A digit left over by one call is paired with the first digit of the
      next text: the first byte returned mixes the two passbacks. */
  lemma StaleDigitShiftsNextDecode(digit: nat, text: seq<Byte>, unset: nat -> Byte)
    requires digit < 16 && |text| >= 2 && |Nibbles(text)| == |text|
    ensures HexDecode(Decoder([digit], []), text, unset).0[0] as int == digit * 16 + Nibbles(text)[0]
  {
    PackHead([digit] + Nibbles(text));
  }

  /** Encodings consist of digits only. */
  lemma EncodingAllDigits(bytes: seq<Byte>)
    ensures |Nibbles(HexEncode(bytes))| == |HexEncode(bytes)|
  {
    NibblesOfEncode(bytes);
  }

  /** Encoding distributes over concatenation. */
  lemma {:induction false} HexEncodeAppend(a: seq<Byte>, b: seq<Byte>)
    ensures HexEncode(a + b) == HexEncode(a) + HexEncode(b)
  {
    if |a| == 0 {
      assert a + b == b;
    } else {
      assert (a + b)[1..] == a[1..] + b;
      HexEncodeAppend(a[1..], b);
    }
  }

  // ---------------------------------------------------------------- Digest

  /** `addDigest`: the ciphertext, then its CRC-32, both hex-encoded. */
  function AddDigest(c: Crypto, encrypted: seq<Byte>): (text: seq<Byte>)
    ensures |text| == 2 * (|encrypted| + DigestSize)
    ensures DecodeText(text) == encrypted + c.crc32(encrypted)
  {
    HexEncodeAppend(encrypted, c.crc32(encrypted));
    HexDecodeEncode(encrypted + c.crc32(encrypted));
    HexEncode(encrypted) + HexEncode(c.crc32(encrypted))
  }

  /** `removeDigest`: splits off the last four bytes and keeps the rest when
      they are its CRC-32; otherwise, and for anything of four bytes or fewer,
      the empty string. */
  function RemoveDigest(c: Crypto, digested: seq<Byte>): (r: seq<Byte>)
    ensures |digested| <= DigestSize ==> r == []
    ensures r == [] || (|r| > 0 && digested == r + c.crc32(r))
  {
    if |digested| <= DigestSize then []
    else
      var encrypted := digested[..|digested| - DigestSize];
      var digestStr := digested[|digested| - DigestSize..];
      if digestStr == c.crc32(encrypted) then
        assert digested == encrypted + digestStr;
        encrypted
      else []
  }

  /** A non-empty ciphertext followed by its digest passes the check. */
  lemma RemoveDigestAddDigest(c: Crypto, encrypted: seq<Byte>)
    requires |encrypted| > 0
    ensures RemoveDigest(c, encrypted + c.crc32(encrypted)) == encrypted
  {
    var d := encrypted + c.crc32(encrypted);
    assert d[..|d| - DigestSize] == encrypted;
    assert d[|d| - DigestSize..] == c.crc32(encrypted);
  }

  /** A trailer that is not the CRC-32 of what precedes it is refused. */
  lemma RemoveDigestRejects(c: Crypto, encrypted: seq<Byte>, trailer: Digest)
    requires trailer != c.crc32(encrypted)
    ensures RemoveDigest(c, encrypted + trailer) == []
  {
    var d := encrypted + trailer;
    if |d| > DigestSize {
      assert d[..|d| - DigestSize] == encrypted;
      assert d[|d| - DigestSize..] == trailer;
    }
  }

  // ---------------------------------------------------------------- Cipher

  /** What the cipher reads of a key or IV string: its first sixteen bytes
      through `c_str()`, where a fifteen-byte string contributes its
      terminating NUL. */
  function KeyMaterial(s: seq<Byte>): (k: seq<Byte>)
    requires |s| >= KeyLength - 1
    ensures |k| == KeyLength
    ensures |s| >= KeyLength ==> k == s[..KeyLength]
  {
    if |s| >= KeyLength then s[..KeyLength] else s + [0]
  }

  /** `encrypt`: the CFB ciphertext of the passback, framed by `addDigest`. */
  function Encrypt(c: Crypto, passback: seq<Byte>, key: seq<Byte>, iv: seq<Byte>): (text: seq<Byte>)
    requires |key| >= KeyLength - 1 && |iv| >= BlockSize - 1
    ensures DecodeText(text) == c.encrypt(KeyMaterial(key), KeyMaterial(iv), passback)
                                + c.crc32(c.encrypt(KeyMaterial(key), KeyMaterial(iv), passback))
    ensures exists ct :: text == HexEncode(ct)
  {
    var ct := c.encrypt(KeyMaterial(key), KeyMaterial(iv), passback);
    HexEncodeAppend(ct, c.crc32(ct));
    AddDigest(c, ct)
  }

  /** `decrypt` as written: undoes the framing with the object's decoder,
      which keeps what `hexDecode` leaves in it, and deciphers; when the
      framing check fails the cipher is never applied and the result is
      empty. */
  function Decrypt(c: Crypto, d: Decoder, unset: nat -> Byte, passback: seq<Byte>, key: seq<Byte>, iv: seq<Byte>)
    : (r: (seq<Byte>, Decoder))
    requires ValidDecoder(d) && |key| >= KeyLength - 1 && |iv| >= BlockSize - 1
    ensures r.1 == HexDecode(d, passback, unset).1
    ensures var noDigest := RemoveDigest(c, HexDecode(d, passback, unset).0);
            (noDigest == [] ==> r.0 == [])
            && (noDigest != [] ==> r.0 == c.decrypt(KeyMaterial(key), KeyMaterial(iv), noDigest))
  {
    var (decoded, d') := HexDecode(d, passback, unset);
    var noDigest := RemoveDigest(c, decoded);
    (if noDigest == [] then [] else c.decrypt(KeyMaterial(key), KeyMaterial(iv), noDigest), d')
  }

  /** `decrypt` as intended: the framing is read from this passback's own
      digits only. */
  function DecryptText(c: Crypto, passback: seq<Byte>, key: seq<Byte>, iv: seq<Byte>): (r: seq<Byte>)
    requires |key| >= KeyLength - 1 && |iv| >= BlockSize - 1
    ensures RemoveDigest(c, DecodeText(passback)) == [] ==> r == []
    ensures RemoveDigest(c, DecodeText(passback)) != [] ==>
              r == c.decrypt(KeyMaterial(key), KeyMaterial(iv), RemoveDigest(c, DecodeText(passback)))
  {
    var noDigest := RemoveDigest(c, DecodeText(passback));
    if noDigest == [] then [] else c.decrypt(KeyMaterial(key), KeyMaterial(iv), noDigest)
  }

  /** The cipher assumptions of the round trip: length-preserving, and
      decryption inverts encryption under the same key and IV. */
  predicate Inverts(c: Crypto, passback: seq<Byte>, key: seq<Byte>, iv: seq<Byte>)
    requires |key| >= KeyLength - 1 && |iv| >= BlockSize - 1
  {
    var ct := c.encrypt(KeyMaterial(key), KeyMaterial(iv), passback);
    |ct| == |passback| && c.decrypt(KeyMaterial(key), KeyMaterial(iv), ct) == passback
  }

  /** Every passback is recovered, the empty one included: by the intended
      decryption always, and by the object's decoder when it is fresh, which
      it then stays. */
  lemma DecryptEncrypt(c: Crypto, passback: seq<Byte>, key: seq<Byte>, iv: seq<Byte>, unset: nat -> Byte)
    requires |key| >= KeyLength - 1 && |iv| >= BlockSize - 1
    requires Inverts(c, passback, key, iv)
    ensures DecryptText(c, Encrypt(c, passback, key, iv), key, iv) == passback
    ensures Decrypt(c, Fresh, unset, Encrypt(c, passback, key, iv), key, iv) == (passback, Fresh)
  {
    var ct := c.encrypt(KeyMaterial(key), KeyMaterial(iv), passback);
    if |ct| > 0 {
      RemoveDigestAddDigest(c, ct);
    }
    HexEncodeAppend(ct, c.crc32(ct));
    HexDecodeFreshEncode(ct + c.crc32(ct), unset);
    HexDecodeEncode(ct + c.crc32(ct));
  }

  /** A passback with one digit too many still decrypts as written, but
      leaves the digit in the object's decoder. */
  lemma OddPassbackDecrypts(c: Crypto, passback: seq<Byte>, key: seq<Byte>, iv: seq<Byte>, digit: nat,
                            unset: nat -> Byte)
    requires |key| >= KeyLength - 1 && |iv| >= BlockSize - 1 && digit < 16
    requires Inverts(c, passback, key, iv)
    ensures Decrypt(c, Fresh, unset, Encrypt(c, passback, key, iv) + [HexDigits[digit]], key, iv)
            == (passback, Decoder([digit], []))
  {
    var ct := c.encrypt(KeyMaterial(key), KeyMaterial(iv), passback);
    if |ct| > 0 {
      RemoveDigestAddDigest(c, ct);
    }
    var text := Encrypt(c, passback, key, iv);
    var bytes :| text == HexEncode(bytes);
    EncodingAllDigits(bytes);
    OddTrailingDigitKept(text, digit, unset);
  }

  /** For example, after a passback with a trailing "0", the next passback
      whose framing starts with byte 0x12 is read as starting with 0x01,
      while its own digits say 0x12. */
  lemma LeftoverDigitExample(rest: seq<Byte>, unset: nat -> Byte)
    ensures HexDecode(Decoder([0], []), HexEncode([0x12] + rest), unset).0[0] == 0x01
    ensures DecodeText(HexEncode([0x12] + rest)) == [0x12] + rest
  {
    var bytes: seq<Byte> := [0x12] + rest;
    NibblesOfEncode(bytes);
    assert NibblesOf(bytes)[0] == 1;
    StaleDigitShiftsNextDecode(0, HexEncode(bytes), unset);
    HexDecodeEncode(bytes);
  }

  /** Passbacks made of digits only decrypt alike both ways with a fresh decoder. */
  lemma DecryptAgreesWhenFresh(c: Crypto, passback: seq<Byte>, key: seq<Byte>, iv: seq<Byte>, unset: nat -> Byte)
    requires |key| >= KeyLength - 1 && |iv| >= BlockSize - 1
    requires |Nibbles(passback)| == |passback|
    ensures Decrypt(c, Fresh, unset, passback, key, iv).0 == DecryptText(c, passback, key, iv)
  {
    HexDecodeFreshDigits(passback, unset);
  }

  /** Changing the digest part of a framed passback makes it decrypt to nothing. */
  lemma TamperedDigestRejected(c: Crypto, encrypted: seq<Byte>, trailer: Digest, key: seq<Byte>, iv: seq<Byte>,
                               unset: nat -> Byte)
    requires |key| >= KeyLength - 1 && |iv| >= BlockSize - 1
    requires trailer != c.crc32(encrypted)
    ensures DecryptText(c, HexEncode(encrypted + trailer), key, iv) == []
    ensures Decrypt(c, Fresh, unset, HexEncode(encrypted + trailer), key, iv).0 == []
  {
    HexDecodeEncode(encrypted + trailer);
    HexDecodeFreshEncode(encrypted + trailer, unset);
    RemoveDigestRejects(c, encrypted, trailer);
  }

  // ---------------------------------------------------------------- Keys

  /** `generateKey` / `generateIV`: sixteen random bytes are drawn, the last
      is dropped, and the remaining fifteen are hex-encoded. */
  function GenerateKey(random: seq<Byte>): (key: seq<Byte>)
    requires |random| == KeyLength
    ensures |key| == 2 * (KeyLength - 1)
    ensures DecodeText(key) == random[..KeyLength - 1]
  {
    HexDecodeEncode(random[..KeyLength - 1]);
    HexEncode(random[..KeyLength - 1])
  }

  function GenerateIV(random: seq<Byte>): (iv: seq<Byte>)
    requires |random| == BlockSize
    ensures |iv| == 2 * (BlockSize - 1)
    ensures DecodeText(iv) == random[..BlockSize - 1]
  {
    HexDecodeEncode(random[..BlockSize - 1]);
    HexEncode(random[..BlockSize - 1])
  }

  lemma {:induction false} HexEncodePrefix(bytes: seq<Byte>, n: nat)
    requires n <= |bytes|
    ensures HexEncode(bytes)[..2 * n] == HexEncode(bytes[..n])
  {
    assert bytes == bytes[..n] + bytes[n..];
    HexEncodeAppend(bytes[..n], bytes[n..]);
  }

  /** The generated key text is passed to the cipher as is, which reads its
      first sixteen characters: the hex digits of only the first eight random
      bytes. Two draws that agree there give the same AES key. */
  lemma GeneratedKeyUsesEightBytes(r1: seq<Byte>, r2: seq<Byte>)
    requires |r1| == KeyLength && |r2| == KeyLength
    requires r1[..8] == r2[..8]
    ensures KeyMaterial(GenerateKey(r1)) == KeyMaterial(GenerateKey(r2))
  {
    HexEncodePrefix(r1[..KeyLength - 1], 8);
    HexEncodePrefix(r2[..KeyLength - 1], 8);
    assert r1[..KeyLength - 1][..8] == r1[..8];
    assert r2[..KeyLength - 1][..8] == r2[..8];
  }

  /** For example, keys drawn from 0x00 x 16 and 0x00 x 8 . 0xFF x 8 encrypt alike. */
  lemma DifferentDrawsSameKey()
    ensures var r1: seq<Byte> := seq(16, _ => 0);
            var r2: seq<Byte> := seq(8, _ => 0) + seq(8, _ => 255);
            r1 != r2 && KeyMaterial(GenerateKey(r1)) == KeyMaterial(GenerateKey(r2))
  {
    var r1: seq<Byte> := seq(16, _ => 0);
    var r2: seq<Byte> := seq(8, _ => 0) + seq(8, _ => 255);
    assert r1[15] != r2[15];
    assert r1[..8] == r2[..8];
    GeneratedKeyUsesEightBytes(r1, r2);
  }

  /** The intended key: all sixteen random bytes, hex-encoded, read back by
      decoding the text rather than by taking its first characters. */
  function GenerateFullKey(random: seq<Byte>): (key: seq<Byte>)
    requires |random| == KeyLength
    ensures |key| == 2 * KeyLength
  {
    HexEncode(random)
  }

  /** Every random byte reaches the cipher: distinct draws give distinct keys. */
  lemma DecodeGenerateFullKey(r1: seq<Byte>, r2: seq<Byte>)
    requires |r1| == KeyLength && |r2| == KeyLength
    ensures DecodeText(GenerateFullKey(r1)) == r1
    ensures DecodeText(GenerateFullKey(r1)) == DecodeText(GenerateFullKey(r2)) ==> r1 == r2
  {
    HexDecodeEncode(r1);
    HexDecodeEncode(r2);
  }
}
