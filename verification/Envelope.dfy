// The blob layout of VaultCryptoService: nonce, then mac, then cipher text.
module Envelope {
  import opened Models
  import opened Wrappers

  const NONCE_LENGTH := 12
  const MAC_LENGTH := 16
  const HEADER := 28

  datatype SecretKey = SecretKey(bytes: Bytes)

  datatype SecretBox = SecretBox(nonce: Bytes, mac: Bytes, cipherText: Bytes)

  /** AES-256-GCM and UTF-8 as parameters; `open` and `decode` may fail. */
  datatype Primitives = Primitives(
    seal: (SecretKey, Bytes, Bytes) -> SecretBox,
    open: (SecretKey, SecretBox) -> Option<Bytes>,
    encode: string -> Bytes,
    decode: Bytes -> Option<string>)

  // Authenticated encryption: decryption undoes encryption.
  ghost predicate Sound(p: Primitives) {
    forall k: SecretKey, nonce: Bytes, m: Bytes :: |nonce| == NONCE_LENGTH ==>
      var box := p.seal(k, nonce, m);
      box.nonce == nonce && |box.mac| == MAC_LENGTH && p.open(k, box) == Some(m)
  }

  // A box is not accepted under any other key.
  ghost predicate Authentic(p: Primitives) {
    forall k: SecretKey, other: SecretKey, nonce: Bytes, m: Bytes :: k != other && |nonce| == NONCE_LENGTH ==>
      p.open(other, p.seal(k, nonce, m)).None?
  }

  // Text that survives UTF-8: a string with lone surrogates does not.
  ghost predicate WellFormed(p: Primitives, s: string) {
    p.decode(p.encode(s)) == Some(s)
  }

  function Build(box: SecretBox): Bytes {
    box.nonce + box.mac + box.cipherText
  }

  // The three sublist calls; a short blob makes them throw.
  function Split(blob: Bytes): Option<SecretBox> {
    if |blob| < HEADER then None
    else Some(SecretBox(blob[..NONCE_LENGTH], blob[NONCE_LENGTH..HEADER], blob[HEADER..]))
  }

  function DecryptBytes(p: Primitives, blob: Bytes, key: SecretKey): Option<Bytes> {
    match Split(blob)
    case None => None
    case Some(box) => p.open(key, box)
  }

  function Decrypt(p: Primitives, blob: Bytes, key: SecretKey): Option<string> {
    match DecryptBytes(p, blob, key)
    case None => None
    case Some(clear) => p.decode(clear)
  }

  method EncryptBytes(p: Primitives, data: Bytes, key: SecretKey, nonce: Bytes) returns (blob: Bytes)
    requires Sound(p) && |nonce| == NONCE_LENGTH
    ensures |blob| >= 28 && blob[..12] == nonce
    ensures blob[12..28] == p.seal(key, nonce, data).mac && blob[28..] == p.seal(key, nonce, data).cipherText
    ensures DecryptBytes(p, blob, key) == Some(data)
    ensures blob == Build(p.seal(key, nonce, data))
  {
    var secretBox := p.seal(key, nonce, data);
    var builder: Bytes := [];
    builder := builder + secretBox.nonce;
    builder := builder + secretBox.mac;
    builder := builder + secretBox.cipherText;
    blob := builder;
    SplitUndoesBuild(secretBox);
  }

  method Encrypt(p: Primitives, plainText: string, key: SecretKey, nonce: Bytes) returns (blob: Bytes)
    requires Sound(p) && |nonce| == NONCE_LENGTH
    ensures |blob| >= 28 && blob[..12] == nonce
    ensures blob[12..28] == p.seal(key, nonce, p.encode(plainText)).mac
    ensures blob[28..] == p.seal(key, nonce, p.encode(plainText)).cipherText
    ensures WellFormed(p, plainText) ==> Decrypt(p, blob, key) == Some(plainText)
    ensures blob == Sealed(p, plainText, key, nonce)
  {
    var secretBox := p.seal(key, nonce, p.encode(plainText));
    var builder: Bytes := [];
    builder := builder + secretBox.nonce;
    builder := builder + secretBox.mac;
    builder := builder + secretBox.cipherText;
    blob := builder;
    SplitUndoesBuild(secretBox);
  }

  function Sealed(p: Primitives, plainText: string, key: SecretKey, nonce: Bytes): Bytes {
    Build(p.seal(key, nonce, p.encode(plainText)))
  }

  lemma SplitUndoesBuild(box: SecretBox)
    requires |box.nonce| == NONCE_LENGTH && |box.mac| == MAC_LENGTH
    ensures Split(Build(box)) == Some(box)
    ensures |Build(box)| == 28 + |box.cipherText|
    ensures Build(box)[..12] == box.nonce && Build(box)[12..28] == box.mac && Build(box)[28..] == box.cipherText
  {
    var blob := Build(box);
    assert blob[..NONCE_LENGTH] == box.nonce;
    assert blob[NONCE_LENGTH..HEADER] == box.mac;
    assert blob[HEADER..] == box.cipherText;
  }

  // The layout loses nothing: the blobs that split are those of at least 28 bytes,
  // and building the parts again gives the blob back.
  lemma BuildUndoesSplit(blob: Bytes)
    ensures Split(blob).Some? <==> |blob| >= 28
    ensures Split(blob).Some? ==> Build(Split(blob).value) == blob
    ensures Split(blob).Some? ==> |Split(blob).value.nonce| == 12 && |Split(blob).value.mac| == 16
  {
  }

  // A sealed text opens under its key only, and its blob starts with the nonce.
  lemma SealedOpens(p: Primitives, plainText: string, key: SecretKey, nonce: Bytes, other: SecretKey)
    requires Sound(p) && Authentic(p) && WellFormed(p, plainText) && |nonce| == NONCE_LENGTH
    ensures Decrypt(p, Sealed(p, plainText, key, nonce), other) == if other == key then Some(plainText) else None
    ensures |Sealed(p, plainText, key, nonce)| >= 28 && Sealed(p, plainText, key, nonce)[..12] == nonce
  {
    SplitUndoesBuild(p.seal(key, nonce, p.encode(plainText)));
  }
}
