/** The 128-byte recovery kit: magic, version, padding, account id, key id, secret and a MAC tag.
    The MAC is any fixed function with 32-byte results; nothing is claimed about forging it. */
module RecoveryKit {
  import opened Wrappers

  type Byte = x: int | 0 <= x < 256

  type Bytes = seq<Byte>

  const SECRET_SIZE: nat := 32
  const KEY_ID_SIZE: nat := 16
  const ACCOUNT_ID_SIZE: nat := 36
  const HEADER_SIZE: nat := 8 + 1 + 3 + ACCOUNT_ID_SIZE + KEY_ID_SIZE + SECRET_SIZE
  const TAG_SIZE: nat := 32
  const FILE_SIZE: nat := HEADER_SIZE + TAG_SIZE
  const ACCOUNT_AT: nat := 12
  const KEY_ID_AT: nat := ACCOUNT_AT + ACCOUNT_ID_SIZE
  const SECRET_AT: nat := KEY_ID_AT + KEY_ID_SIZE
  const VERSION: Byte := 1

  /** "FLASHPAG" */
  const MAGIC: Bytes := [0x46, 0x4C, 0x41, 0x53, 0x48, 0x50, 0x41, 0x47]

  type Tag = t: Bytes | |t| == 32 witness seq(32, _ => 0)

  type Secret = s: Bytes | |s| == 32 witness seq(32, _ => 0)

  type Mac = (Bytes, Bytes) -> Tag

  /** The account id and the key id are Go strings, that is, bytes. */
  datatype Kit = Kit(accountId: Bytes, keyId: Bytes, secret: Secret)

  datatype KitError = InvalidKit | UnsupportedVersion

  // --- hexadecimal --------------------------------------------------------------------

  predicate IsDigit(c: Byte) { 0x30 <= c <= 0x39 }

  predicate IsLowerHex(c: Byte) { 0x61 <= c <= 0x66 }

  predicate IsUpperHex(c: Byte) { 0x41 <= c <= 0x46 }

  predicate IsHex(c: Byte) { IsDigit(c) || IsLowerHex(c) || IsUpperHex(c) }

  function HexDigit(n: int): Byte
    requires 0 <= n < 16
  {
    if n < 10 then 0x30 + n else 0x61 + n - 10
  }

  function HexValue(c: Byte): (v: int)
    requires IsHex(c)
    ensures 0 <= v < 16
  {
    if IsDigit(c) then c - 0x30 else if IsLowerHex(c) then c - 0x61 + 10 else c - 0x41 + 10
  }

  function EncodeHex(b: Bytes): Bytes {
    if b == [] then [] else [HexDigit(b[0] / 16), HexDigit(b[0] % 16)] + EncodeHex(b[1..])
  }

  /** hex.DecodeString: pairs of digits in either case, an even number of them. */
  function DecodeHex(h: Bytes): Option<Bytes> {
    if h == [] then Some([])
    else if |h| == 1 || !IsHex(h[0]) || !IsHex(h[1]) then None
    else
      var rest := DecodeHex(h[2..]);
      if rest.None? then None else Some([HexValue(h[0]) * 16 + HexValue(h[1])] + rest.value)
  }

  function LowerByte(c: Byte): Byte {
    if 0x41 <= c <= 0x5A then c + 32 else c
  }

  function Lower(s: Bytes): Bytes {
    seq(|s|, i requires 0 <= i < |s| => LowerByte(s[i]))
  }

  // --- the account id ---------------------------------------------------------------------

  predicate AccountByteOk(i: nat, c: Byte) {
    if i == 8 || i == 13 || i == 18 || i == 23 then c == 0x2D else IsHex(c)
  }

  predicate ValidAccountId(s: Bytes) {
    |s| == ACCOUNT_ID_SIZE && forall i :: 0 <= i < |s| ==> AccountByteOk(i, s[i])
  }

  /** validAccountID. A rune that is not ASCII is refused at its first byte, so going byte by byte
      decides the same. */
  method CheckAccountId(value: Bytes) returns (valid: bool)
    ensures valid <==> ValidAccountId(value)
  {
    if |value| != ACCOUNT_ID_SIZE { return false; }
    for i := 0 to |value|
      invariant forall k :: 0 <= k < i ==> AccountByteOk(k, value[k])
    {
      var c := value[i];
      if i == 8 || i == 13 || i == 18 || i == 23 {
        if c != 0x2D { return false; }
        continue;
      }
      if !(0x30 <= c <= 0x39) && !(0x61 <= c <= 0x66) && !(0x41 <= c <= 0x46) { return false; }
    }
    return true;
  }

  // --- encoding and parsing ------------------------------------------------------------------

  function Header(accountId: Bytes, rawKeyId: Bytes, secret: Secret): Bytes {
    MAGIC + [VERSION, 0, 0, 0] + accountId + rawKeyId + secret
  }

  function Encoded(mac: Mac, k: Kit, serverKey: Bytes): Result<Bytes, KitError> {
    if |serverKey| < 32 || !ValidAccountId(k.accountId) || |k.keyId| != 2 * KEY_ID_SIZE then Err(InvalidKit)
    else
      var raw := DecodeHex(k.keyId);
      if raw.None? || |raw.value| != KEY_ID_SIZE then Err(InvalidKit)
      else
        var header := Header(k.accountId, raw.value, k.secret);
        Ok(header + mac(serverKey, header))
  }

  /** Encode fills a zeroed buffer by copying each field to its offset. */
  method Encode(mac: Mac, k: Kit, serverKey: Bytes) returns (r: Result<Bytes, KitError>)
    ensures r == Encoded(mac, k, serverKey)
  {
    var valid := CheckAccountId(k.accountId);
    if |serverKey| < 32 || !valid || |k.keyId| != 2 * KEY_ID_SIZE { return Err(InvalidKit); }
    var raw := DecodeHex(k.keyId);
    if raw.None? || |raw.value| != KEY_ID_SIZE { return Err(InvalidKit); }
    var buf := new Byte[FILE_SIZE](_ => 0);
    Copy(buf, 0, MAGIC);
    buf[8] := VERSION;
    Copy(buf, ACCOUNT_AT, k.accountId);
    Copy(buf, KEY_ID_AT, raw.value);
    Copy(buf, SECRET_AT, k.secret);
    ghost var header := Header(k.accountId, raw.value, k.secret);
    assert buf[..HEADER_SIZE] == header;
    var tag := mac(serverKey, buf[..HEADER_SIZE]);
    Copy(buf, HEADER_SIZE, tag);
    assert buf[..] == header + tag;
    return Ok(buf[..]);
  }

  /** Go's copy(buf[at:], data) when the data fits. */
  method Copy(buf: array<Byte>, at: nat, data: Bytes)
    requires at + |data| <= buf.Length
    modifies buf
    ensures forall i :: 0 <= i < buf.Length ==> buf[i] == if at <= i < at + |data| then data[i - at] else old(buf[i])
  {
    for i := 0 to |data|
      invariant forall k :: 0 <= k < buf.Length ==> buf[k] == if at <= k < at + i then data[k - at] else old(buf[k])
    {
      buf[at + i] := data[i];
    }
  }

  function Parse(mac: Mac, data: Bytes, serverKey: Bytes): Result<Kit, KitError> {
    if |serverKey| < 32 || |data| != FILE_SIZE then Err(InvalidKit)
    else if data[..8] != MAGIC then Err(InvalidKit)
    else if data[8] != VERSION then Err(UnsupportedVersion)
    else if data[9] != 0 || data[10] != 0 || data[11] != 0 then Err(InvalidKit)
    else
      var accountId := data[ACCOUNT_AT..KEY_ID_AT];
      if !ValidAccountId(accountId) then Err(InvalidKit)
      else
        var keyId := EncodeHex(data[KEY_ID_AT..SECRET_AT]);
        var secret: Secret := data[SECRET_AT..HEADER_SIZE];
        if mac(serverKey, data[..HEADER_SIZE]) != data[HEADER_SIZE..] then Err(InvalidKit)
        else Ok(Kit(accountId, keyId, secret))
  }

  // --- round trips ----------------------------------------------------------------------------

  lemma {:induction false} DecodeOfEncode(b: Bytes)
    ensures |EncodeHex(b)| == 2 * |b| && DecodeHex(EncodeHex(b)) == Some(b)
  {
    if b != [] {
      DecodeOfEncode(b[1..]);
      assert EncodeHex(b)[2..] == EncodeHex(b[1..]);
      assert [b[0]] + b[1..] == b;
    }
  }

  lemma {:induction false} EncodeOfDecode(h: Bytes)
    requires DecodeHex(h).Some?
    ensures |h| == 2 * |DecodeHex(h).value| && EncodeHex(DecodeHex(h).value) == Lower(h)
  {
    if h != [] {
      var rest := DecodeHex(h[2..]).value;
      EncodeOfDecode(h[2..]);
      var b: Byte := HexValue(h[0]) * 16 + HexValue(h[1]);
      assert b / 16 == HexValue(h[0]) && b % 16 == HexValue(h[1]);
      assert DecodeHex(h).value[1..] == rest;
      assert Lower(h) == [LowerByte(h[0]), LowerByte(h[1])] + Lower(h[2..]);
    }
  }

  lemma HeaderFields(accountId: Bytes, rawKeyId: Bytes, secret: Secret, tag: Tag)
    requires |accountId| == ACCOUNT_ID_SIZE && |rawKeyId| == KEY_ID_SIZE
    ensures var file := Header(accountId, rawKeyId, secret) + tag;
            && |file| == FILE_SIZE && file[..8] == MAGIC && file[8] == VERSION && file[9] == file[10] == file[11] == 0
            && file[ACCOUNT_AT..KEY_ID_AT] == accountId && file[KEY_ID_AT..SECRET_AT] == rawKeyId
            && file[SECRET_AT..HEADER_SIZE] == secret && file[..HEADER_SIZE] == Header(accountId, rawKeyId, secret)
            && file[HEADER_SIZE..] == tag
  {
  }

  /** Parsing an encoded kit gives the kit back, its key id in lower case. */
  lemma ParseOfEncode(mac: Mac, k: Kit, serverKey: Bytes)
    requires Encoded(mac, k, serverKey).Ok?
    ensures Parse(mac, Encoded(mac, k, serverKey).value, serverKey) == Ok(k.(keyId := Lower(k.keyId)))
  {
    var raw := DecodeHex(k.keyId).value;
    EncodeOfDecode(k.keyId);
    HeaderFields(k.accountId, raw, k.secret, mac(serverKey, Header(k.accountId, raw, k.secret)));
  }

  /** Encoding a parsed file gives the file back, byte for byte. */
  lemma EncodeOfParse(mac: Mac, data: Bytes, serverKey: Bytes)
    requires Parse(mac, data, serverKey).Ok?
    ensures Encoded(mac, Parse(mac, data, serverKey).value, serverKey) == Ok(data)
  {
    var raw := data[KEY_ID_AT..SECRET_AT];
    DecodeOfEncode(raw);
    var header := Header(data[ACCOUNT_AT..KEY_ID_AT], raw, data[SECRET_AT..HEADER_SIZE]);
    assert data[..HEADER_SIZE] == header;
    assert data == header + data[HEADER_SIZE..];
  }

  /** Parse accepts exactly the files Encode can produce under the same server key. */
  lemma ParseAcceptsExactlyEncodedFiles(mac: Mac, data: Bytes, serverKey: Bytes)
    ensures Parse(mac, data, serverKey).Ok? <==> exists k :: Encoded(mac, k, serverKey) == Ok(data)
  {
    if Parse(mac, data, serverKey).Ok? {
      EncodeOfParse(mac, data, serverKey);
    }
    forall k | Encoded(mac, k, serverKey) == Ok(data) ensures Parse(mac, data, serverKey).Ok? {
      ParseOfEncode(mac, k, serverKey);
    }
  }

  /** A kit encodes if and only if the server key is long enough, the account id is valid and the
      key id is 32 hexadecimal digits; then the file has 128 bytes. */
  lemma EncodesExactlyWellFormedKits(mac: Mac, k: Kit, serverKey: Bytes)
    ensures Encoded(mac, k, serverKey).Ok? <==>
            |serverKey| >= 32 && ValidAccountId(k.accountId) && |k.keyId| == 32 && forall c <- k.keyId :: IsHex(c)
    ensures Encoded(mac, k, serverKey).Ok? ==> |Encoded(mac, k, serverKey).value| == 128
  {
    if |k.keyId| == 32 { DecodesExactlyHex(k.keyId); }
    if Encoded(mac, k, serverKey).Ok? {
      var raw := DecodeHex(k.keyId).value;
      HeaderFields(k.accountId, raw, k.secret, mac(serverKey, Header(k.accountId, raw, k.secret)));
    }
  }

  lemma {:induction false} DecodesExactlyHex(h: Bytes)
    requires |h| % 2 == 0
    ensures DecodeHex(h).Some? <==> forall c <- h :: IsHex(c)
    ensures DecodeHex(h).Some? ==> 2 * |DecodeHex(h).value| == |h|
  {
    if h != [] {
      DecodesExactlyHex(h[2..]);
      assert h == [h[0], h[1]] + h[2..];
    }
  }
}
