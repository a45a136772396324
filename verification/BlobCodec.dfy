// The versioned blob format, AES-GCM cipher and X25519 sealed box
// (server/internal/crypto/format.go, aesgcm.go, sealedbox.go), over abstract
// primitives. Random values are parameters.
module BlobCodec {
  import opened Wrappers

  newtype Byte = x: int | 0 <= x < 256
  type Bytes = seq<Byte>

  const VERSION1: Byte := 0x01
  const ALG_AESGCM: Byte := 0x01
  const ALG_X25519_SEALED: Byte := 0x02

  const AESGCM_NONCE_LEN: nat := 12
  const AESGCM_TAG_LEN: nat := 16
  const KEY_LENGTH: nat := 32
  const HEADER_LEN: nat := 2
  const X25519_KEY_LEN: nat := 32
  const SEALED_BOX_OVERHEAD: nat := HEADER_LEN + X25519_KEY_LEN + AESGCM_NONCE_LEN + AESGCM_TAG_LEN

  datatype Error =
    | ShortBlob | UnsupportedVersion | AlgorithmMismatch
    | InvalidKeyLength | InvalidPublicKey | InvalidPrivateKey
    | DHFailed | NotAuthentic

  datatype Blob = Blob(version: Byte, algId: Byte, nonce: Bytes, body: Bytes)

  // ---- format.go ----

  function Packed(b: Blob): Bytes {
    [b.version, b.algId] + b.nonce + b.body
  }

  method Pack(b: Blob) returns (out: Bytes)
    ensures out == Packed(b)
  {
    out := [];
    out := out + [b.version, b.algId];
    out := out + b.nonce;
    out := out + b.body;
  }

  // The algorithm byte is not looked at.
  function Unpack(data: Bytes, nonceLen: nat): Result<Blob, Error> {
    if |data| < HEADER_LEN + nonceLen then Err(ShortBlob)
    else if data[0] != VERSION1 then Err(UnsupportedVersion)
    else Ok(Blob(data[0], data[1], data[HEADER_LEN..HEADER_LEN + nonceLen], data[HEADER_LEN + nonceLen..]))
  }

  // Unpacking gives back what was packed exactly when the version is known.
  lemma UnpackOfPack(b: Blob)
    ensures Unpack(Packed(b), |b.nonce|) == if b.version == VERSION1 then Ok(b) else Err(UnsupportedVersion)
  {
  }

  // Packing gives back what was unpacked, and nothing else unpacks to it.
  lemma PackOfUnpack(data: Bytes, nonceLen: nat, b: Blob)
    ensures Unpack(data, nonceLen) == Ok(b)
            <==> Packed(b) == data && |b.nonce| == nonceLen && b.version == VERSION1
  {
  }

  function MakeAAD(table: string, rowId: string, column: string): string {
    table + ":" + rowId + ":" + column
  }

  lemma {:induction false} SplitAtColon(a: string, x: string, b: string, y: string)
    requires a + ":" + x == b + ":" + y && ':' !in a && ':' !in b
    ensures a == b && x == y
  {
    var s := a + ":" + x;
    assert s == b + ":" + y;
    assert s[|a|] == ':' && s[|b|] == ':';
    assert forall i :: 0 <= i < |a| ==> s[i] == a[i];
    assert forall i :: 0 <= i < |b| ==> s[i] == b[i];
    assert |a| == |b|;
    assert a == s[..|a|] && b == s[..|b|];
    assert x == s[|a| + 1..] && y == s[|b| + 1..];
  }

  lemma MakeAADInjective(t: string, r: string, c: string, t': string, r': string, c': string)
    requires ':' !in t && ':' !in r && ':' !in t' && ':' !in r'
    requires MakeAAD(t, r, c) == MakeAAD(t', r', c')
    ensures t == t' && r == r' && c == c'
  {
    assert MakeAAD(t, r, c) == t + ":" + (r + ":" + c);
    assert MakeAAD(t', r', c') == t' + ":" + (r' + ":" + c');
    SplitAtColon(t, r + ":" + c, t', r' + ":" + c');
    SplitAtColon(r, c, r', c');
  }

  lemma AADColons(t: string, r: string, c: string)
    ensures multiset(MakeAAD(t, r, c))[':'] == multiset(t)[':'] + multiset(r)[':'] + multiset(c)[':'] + 2
    ensures (':' in t <==> multiset(t)[':'] > 0) && (':' in r <==> multiset(r)[':'] > 0)
            && (':' in c <==> multiset(c)[':'] > 0)
  {
  }

  predicate SameAAD(t: string, r: string, c: string, t': string, r': string, c': string) {
    MakeAAD(t, r, c) == MakeAAD(t', r', c') && (t, r, c) != (t', r', c')
  }

  lemma ColonAt(s: string) returns (a: string, b: string)
    requires ':' in s
    ensures s == a + ":" + b
  {
    var i :| 0 <= i < |s| && s[i] == ':';
    a, b := s[..i], s[i + 1..];
  }

  lemma ColonIsShared(t: string, r: string, c: string) returns (t': string, r': string, c': string)
    requires ':' in t || ':' in r || ':' in c
    ensures SameAAD(t, r, c, t', r', c')
  {
    var aad := MakeAAD(t, r, c);
    if ':' in t {
      var a, b := ColonAt(t);
      t', r', c' := a, b, r + ":" + c;
      assert MakeAAD(t', r', c') == aad && |t'| < |t|;
    } else if ':' in r {
      var a, b := ColonAt(r);
      t', r', c' := t, a, b + ":" + c;
      assert MakeAAD(t', r', c') == aad && |r'| < |r|;
    } else {
      var a, b := ColonAt(c);
      t', r', c' := t + ":" + r, a, b;
      assert MakeAAD(t', r', c') == aad && |t'| > |t|;
    }
  }

  // A row and column share their AAD with another exactly when one of the three
  // parts has a colon.
  lemma AADSharedIff(t: string, r: string, c: string)
    ensures (exists t', r', c' :: SameAAD(t, r, c, t', r', c')) <==> ':' in t || ':' in r || ':' in c
  {
    if ':' in t || ':' in r || ':' in c {
      var t', r', c' := ColonIsShared(t, r, c);
    } else {
      forall t', r', c' ensures !SameAAD(t, r, c, t', r', c') {
        if SameAAD(t, r, c, t', r', c') {
          AADColons(t, r, c);
          AADColons(t', r', c');
          MakeAADInjective(t, r, c, t', r', c');
        }
      }
    }
  }

  // ---- the primitives ----

  datatype Primitives = Primitives(
    aeadSeal: (Bytes, Bytes, Bytes, Bytes) -> Bytes,          // key, nonce, plaintext, aad
    aeadOpen: (Bytes, Bytes, Bytes, Bytes) -> Option<Bytes>,  // key, nonce, body, aad
    publicKey: Bytes -> Bytes,
    dh: (Bytes, Bytes) -> Option<Bytes>,                      // private, public; fails on a low-order point
    hkdf: (Bytes, Bytes) -> Bytes)                            // shared secret, salt

  // AES-GCM opens exactly what it sealed under the key, nonce and AAD, adding a
  // tag; Diffie-Hellman commutes; HKDF gives a key.
  ghost predicate Lawful(p: Primitives) {
    && (forall k, n, m, aad :: |p.aeadSeal(k, n, m, aad)| == |m| + AESGCM_TAG_LEN)
    && (forall k, n, c, m, aad :: p.aeadOpen(k, n, c, aad) == Some(m) <==> c == p.aeadSeal(k, n, m, aad))
    && (forall a :: |a| == X25519_KEY_LEN ==> |p.publicKey(a)| == X25519_KEY_LEN)
    && (forall a, b :: |a| == X25519_KEY_LEN && |b| == X25519_KEY_LEN ==>
          p.dh(a, p.publicKey(b)) == p.dh(b, p.publicKey(a)))
    && (forall x, salt :: |p.hkdf(x, salt)| == KEY_LENGTH)
  }

  // ---- aesgcm.go ----

  function Sealed(p: Primitives, key: Bytes, nonce: Bytes, plaintext: Bytes, aad: Bytes): Bytes {
    Packed(Blob(VERSION1, ALG_AESGCM, nonce, p.aeadSeal(key, nonce, plaintext, aad)))
  }

  function Open(p: Primitives, key: Bytes, blob: Bytes, aad: Bytes): Result<Bytes, Error> {
    var unpacked := Unpack(blob, AESGCM_NONCE_LEN);
    if unpacked.Err? then Err(unpacked.error)
    else if unpacked.value.algId != ALG_AESGCM then Err(AlgorithmMismatch)
    else
      match p.aeadOpen(key, unpacked.value.nonce, unpacked.value.body, aad)
      case None => Err(NotAuthentic)
      case Some(plaintext) => Ok(plaintext)
  }

  // Open accepts exactly the blobs that Seal makes from the plaintext it returns.
  lemma OpensExactlySealed(p: Primitives, key: Bytes, blob: Bytes, aad: Bytes, plaintext: Bytes)
    requires Lawful(p)
    ensures Open(p, key, blob, aad) == Ok(plaintext)
            <==> exists nonce: Bytes :: |nonce| == AESGCM_NONCE_LEN && blob == Sealed(p, key, nonce, plaintext, aad)
  {
    if Open(p, key, blob, aad) == Ok(plaintext) {
      var b := Unpack(blob, AESGCM_NONCE_LEN).value;
      PackOfUnpack(blob, AESGCM_NONCE_LEN, b);
      assert b.body == p.aeadSeal(key, b.nonce, plaintext, aad);
      assert blob == Sealed(p, key, b.nonce, plaintext, aad);
    }
    forall nonce: Bytes | |nonce| == AESGCM_NONCE_LEN && blob == Sealed(p, key, nonce, plaintext, aad)
      ensures Open(p, key, blob, aad) == Ok(plaintext)
    {
      UnpackOfPack(Blob(VERSION1, ALG_AESGCM, nonce, p.aeadSeal(key, nonce, plaintext, aad)));
      assert p.aeadOpen(key, nonce, p.aeadSeal(key, nonce, plaintext, aad), aad) == Some(plaintext);
    }
  }

  // ---- sealedbox.go ----

  function SealKey(p: Primitives, shared: Bytes, ephPub: Bytes, recipientPub: Bytes): Bytes {
    p.hkdf(shared, ephPub + recipientPub)
  }

  // [ version ][ algorithm ][ ephemeral public key ][ nonce ][ body ]
  function BoxLayout(ephPub: Bytes, nonce: Bytes, body: Bytes): Bytes {
    [VERSION1, ALG_X25519_SEALED] + ephPub + nonce + body
  }

  // What a sender with ephemeral public key `ephPub` makes of a shared secret.
  function Box(p: Primitives, shared: Bytes, ephPub: Bytes, recipientPub: Bytes, nonce: Bytes, plaintext: Bytes,
               aad: Bytes): Bytes {
    BoxLayout(ephPub, nonce, p.aeadSeal(SealKey(p, shared, ephPub, recipientPub), nonce, plaintext, aad))
  }

  method SealForRecipient(p: Primitives, recipientPub: Bytes, plaintext: Bytes, aad: Bytes, ephPriv: Bytes,
                          nonce: Bytes)
    returns (r: Result<Bytes, Error>)
    requires Lawful(p) && |ephPriv| == X25519_KEY_LEN && |nonce| == AESGCM_NONCE_LEN
    ensures r == Err(InvalidPublicKey) <==> |recipientPub| != X25519_KEY_LEN
    ensures |recipientPub| == X25519_KEY_LEN ==>
              r == match p.dh(ephPriv, recipientPub)
                   case None => Err(DHFailed)
                   case Some(shared) =>
                     Ok(Box(p, shared, p.publicKey(ephPriv), recipientPub, nonce, plaintext, aad))
    ensures r.Ok? ==> |r.value| == |plaintext| + SEALED_BOX_OVERHEAD
  {
    if |recipientPub| != X25519_KEY_LEN { return Err(InvalidPublicKey); }
    var ephPub := p.publicKey(ephPriv);
    var shared := p.dh(ephPriv, recipientPub);
    if shared.None? { return Err(DHFailed); }
    var symKey := SealKey(p, shared.value, ephPub, recipientPub);
    var body := p.aeadSeal(symKey, nonce, plaintext, aad);
    var out: Bytes := [];
    out := out + [VERSION1, ALG_X25519_SEALED];
    out := out + ephPub;
    out := out + nonce;
    out := out + body;
    assert out == BoxLayout(ephPub, nonce, body);
    return Ok(out);
  }

  function Opened(p: Primitives, recipientPriv: Bytes, ephPub: Bytes, nonce: Bytes, body: Bytes, aad: Bytes)
    : Result<Bytes, Error>
  {
    match p.dh(recipientPriv, ephPub)
    case None => Err(DHFailed)
    case Some(shared) =>
      match p.aeadOpen(SealKey(p, shared, ephPub, p.publicKey(recipientPriv)), nonce, body, aad)
      case None => Err(NotAuthentic)
      case Some(plaintext) => Ok(plaintext)
  }

  function OpenedBox(p: Primitives, recipientPriv: Bytes, blob: Bytes, aad: Bytes): Result<Bytes, Error> {
    if |recipientPriv| != X25519_KEY_LEN then Err(InvalidPrivateKey)
    else if |blob| < SEALED_BOX_OVERHEAD then Err(ShortBlob)
    else if blob[0] != VERSION1 then Err(UnsupportedVersion)
    else if blob[1] != ALG_X25519_SEALED then Err(AlgorithmMismatch)
    else Opened(p, recipientPriv, blob[2..34], blob[34..46], blob[46..], aad)
  }

  method OpenSealed(p: Primitives, recipientPriv: Bytes, blob: Bytes, aad: Bytes) returns (r: Result<Bytes, Error>)
    ensures r == OpenedBox(p, recipientPriv, blob, aad)
  {
    if |recipientPriv| != X25519_KEY_LEN { return Err(InvalidPrivateKey); }
    if |blob| < SEALED_BOX_OVERHEAD { return Err(ShortBlob); }
    if blob[0] != VERSION1 { return Err(UnsupportedVersion); }
    if blob[1] != ALG_X25519_SEALED { return Err(AlgorithmMismatch); }
    var pos := HEADER_LEN;
    var ephPub := blob[pos..pos + X25519_KEY_LEN];
    pos := pos + X25519_KEY_LEN;
    var nonce := blob[pos..pos + AESGCM_NONCE_LEN];
    pos := pos + AESGCM_NONCE_LEN;
    var body := blob[pos..];
    var shared := p.dh(recipientPriv, ephPub);
    if shared.None? { return Err(DHFailed); }
    var symKey := SealKey(p, shared.value, ephPub, p.publicKey(recipientPriv));
    var plaintext := p.aeadOpen(symKey, nonce, body, aad);
    if plaintext.None? { return Err(NotAuthentic); }
    return Ok(plaintext.value);
  }

  lemma PartsOfLayout(ephPub: Bytes, nonce: Bytes, body: Bytes)
    requires |ephPub| == X25519_KEY_LEN && |nonce| == AESGCM_NONCE_LEN
    ensures var blob := BoxLayout(ephPub, nonce, body);
            && |blob| == 46 + |body| && blob[0] == VERSION1 && blob[1] == ALG_X25519_SEALED
            && blob[2..34] == ephPub && blob[34..46] == nonce && blob[46..] == body
  {
  }

  lemma LayoutOfParts(blob: Bytes)
    requires |blob| >= 46 && blob[0] == VERSION1 && blob[1] == ALG_X25519_SEALED
    ensures blob == BoxLayout(blob[2..34], blob[34..46], blob[46..])
  {
  }

  // The recipient opens what any sender sealed for the matching public key.
  lemma OpenSealedOfSeal(p: Primitives, recipientPriv: Bytes, ephPriv: Bytes, nonce: Bytes, plaintext: Bytes,
                         aad: Bytes, shared: Bytes)
    requires Lawful(p) && |recipientPriv| == |ephPriv| == X25519_KEY_LEN && |nonce| == AESGCM_NONCE_LEN
    requires p.dh(ephPriv, p.publicKey(recipientPriv)) == Some(shared)
    ensures var blob := Box(p, shared, p.publicKey(ephPriv), p.publicKey(recipientPriv), nonce, plaintext, aad);
            OpenedBox(p, recipientPriv, blob, aad) == Ok(plaintext) && |blob| == |plaintext| + 62
  {
    var ephPub := p.publicKey(ephPriv);
    var key := SealKey(p, shared, ephPub, p.publicKey(recipientPriv));
    PartsOfLayout(ephPub, nonce, p.aeadSeal(key, nonce, plaintext, aad));
    assert p.dh(recipientPriv, ephPub) == Some(shared);
    assert p.aeadOpen(key, nonce, p.aeadSeal(key, nonce, plaintext, aad), aad) == Some(plaintext);
  }

  ghost predicate IsBoxFor(p: Primitives, recipientPriv: Bytes, blob: Bytes, aad: Bytes, plaintext: Bytes,
                           ephPub: Bytes, nonce: Bytes)
  {
    && |ephPub| == X25519_KEY_LEN && |nonce| == AESGCM_NONCE_LEN
    && p.dh(recipientPriv, ephPub).Some?
    && blob == Box(p, p.dh(recipientPriv, ephPub).value, ephPub, p.publicKey(recipientPriv), nonce, plaintext, aad)
  }

  // The recipient opens nothing else: a blob opens to a plaintext exactly when
  // it is that plaintext boxed for this key and AAD.
  lemma OpensExactlyBoxes(p: Primitives, recipientPriv: Bytes, blob: Bytes, aad: Bytes, plaintext: Bytes)
    requires Lawful(p) && |recipientPriv| == X25519_KEY_LEN
    ensures OpenedBox(p, recipientPriv, blob, aad) == Ok(plaintext)
            <==> exists ephPub, nonce :: IsBoxFor(p, recipientPriv, blob, aad, plaintext, ephPub, nonce)
  {
    if OpenedBox(p, recipientPriv, blob, aad) == Ok(plaintext) {
      LayoutOfParts(blob);
      assert IsBoxFor(p, recipientPriv, blob, aad, plaintext, blob[2..34], blob[34..46]);
    }
    forall ephPub, nonce | IsBoxFor(p, recipientPriv, blob, aad, plaintext, ephPub, nonce)
      ensures OpenedBox(p, recipientPriv, blob, aad) == Ok(plaintext)
    {
      var key := SealKey(p, p.dh(recipientPriv, ephPub).value, ephPub, p.publicKey(recipientPriv));
      PartsOfLayout(ephPub, nonce, p.aeadSeal(key, nonce, plaintext, aad));
      assert p.aeadOpen(key, nonce, p.aeadSeal(key, nonce, plaintext, aad), aad) == Some(plaintext);
    }
  }

  // The two formats never open as one another.
  lemma FormatsAreDisjoint(p: Primitives, key: Bytes, priv: Bytes, blob: Bytes, aad: Bytes)
    ensures !(Open(p, key, blob, aad).Ok? && OpenedBox(p, priv, blob, aad).Ok?)
    ensures OpenedBox(p, priv, blob, aad).Ok? ==> Open(p, key, blob, aad) == Err(AlgorithmMismatch)
  {
  }

  // ---- the laws can be met ----

  function Zeros(n: nat): Bytes {
    seq(n, _ => 0)
  }

  function Plain(): Primitives {
    Primitives(
      (k, n, m, aad) => m + Zeros(AESGCM_TAG_LEN),
      (k, n, c, aad) =>
        if |c| >= AESGCM_TAG_LEN && c[|c| - AESGCM_TAG_LEN..] == Zeros(AESGCM_TAG_LEN)
        then Some(c[..|c| - AESGCM_TAG_LEN]) else None,
      a => Zeros(X25519_KEY_LEN),
      (a, b) => Some([]),
      (x, salt) => Zeros(KEY_LENGTH))
  }

  lemma LawsAreConsistent()
    ensures Lawful(Plain())
  {
  }

  // ---- the layouts and the key, written out ----

  lemma PackedLayout(b: Blob)
    ensures var data := Packed(b);
            && |data| == 2 + |b.nonce| + |b.body|
            && data[0] == b.version && data[1] == b.algId
            && data[2..2 + |b.nonce|] == b.nonce && data[2 + |b.nonce|..] == b.body
  {
  }

  // A cipher blob is 1, 1, the nonce and what AES-GCM makes of the plaintext.
  lemma SealedLayout(p: Primitives, key: Bytes, nonce: Bytes, plaintext: Bytes, aad: Bytes)
    requires |nonce| == 12
    ensures var blob := Sealed(p, key, nonce, plaintext, aad);
            && |blob| >= 14 && blob[0] == 1 && blob[1] == 1
            && blob[2..14] == nonce && blob[14..] == p.aeadSeal(key, nonce, plaintext, aad)
  {
  }

  // A sealed box is 1, 2, the ephemeral public key, the nonce and what AES-GCM
  // makes of the plaintext under HKDF of the shared secret, salted with both
  // public keys.
  lemma BoxIs(p: Primitives, shared: Bytes, ephPub: Bytes, recipientPub: Bytes, nonce: Bytes, plaintext: Bytes,
              aad: Bytes)
    requires |ephPub| == 32 && |nonce| == 12
    ensures var blob := Box(p, shared, ephPub, recipientPub, nonce, plaintext, aad);
            && |blob| >= 46 && blob[0] == 1 && blob[1] == 2
            && blob[2..34] == ephPub && blob[34..46] == nonce
            && blob[46..] == p.aeadSeal(p.hkdf(shared, ephPub + recipientPub), nonce, plaintext, aad)
  {
  }

  // Only who agrees on the same secret opens the box: unless HKDF collides on
  // the two inputs, or AES-GCM opens under another key, an opened box means that
  // the private key gives the sender's shared secret and the sealed-for public
  // key.
  lemma OnlySharedSecretOpens(p: Primitives, shared: Bytes, ephPub: Bytes, recipientPub: Bytes, nonce: Bytes,
                              plaintext: Bytes, aad: Bytes, priv: Bytes)
    requires |ephPub| == 32 && |nonce| == 12
    requires var key := p.hkdf(shared, ephPub + recipientPub);
             && (forall other :: other != key ==>
                   p.aeadOpen(other, nonce, p.aeadSeal(key, nonce, plaintext, aad), aad).None?)
             && (p.dh(priv, ephPub).Some? && p.hkdf(p.dh(priv, ephPub).value, ephPub + p.publicKey(priv)) == key ==>
                   p.dh(priv, ephPub).value == shared && p.publicKey(priv) == recipientPub)
    requires OpenedBox(p, priv, Box(p, shared, ephPub, recipientPub, nonce, plaintext, aad), aad).Ok?
    ensures p.dh(priv, ephPub) == Some(shared) && p.publicKey(priv) == recipientPub
  {
    var key := p.hkdf(shared, ephPub + recipientPub);
    PartsOfLayout(ephPub, nonce, p.aeadSeal(key, nonce, plaintext, aad));
  }

  // What each malformed blob is answered with.
  lemma BoxErrors(p: Primitives, priv: Bytes, blob: Bytes, aad: Bytes)
    ensures |priv| != 32 ==> OpenedBox(p, priv, blob, aad) == Err(InvalidPrivateKey)
    ensures |priv| == 32 && |blob| < 62 ==> OpenedBox(p, priv, blob, aad) == Err(ShortBlob)
    ensures |priv| == 32 && |blob| >= 62 && blob[0] != 1 ==> OpenedBox(p, priv, blob, aad) == Err(UnsupportedVersion)
    ensures |priv| == 32 && |blob| >= 62 && blob[0] == 1 && blob[1] != 2 ==>
              OpenedBox(p, priv, blob, aad) == Err(AlgorithmMismatch)
    ensures |priv| == 32 && |blob| >= 62 && blob[0] == 1 && blob[1] == 2 && p.dh(priv, blob[2..34]).None? ==>
              OpenedBox(p, priv, blob, aad) == Err(DHFailed)
  {
  }

  lemma CipherErrors(p: Primitives, key: Bytes, blob: Bytes, aad: Bytes)
    ensures |blob| < 14 ==> Open(p, key, blob, aad) == Err(ShortBlob)
    ensures |blob| >= 14 && blob[0] != 1 ==> Open(p, key, blob, aad) == Err(UnsupportedVersion)
    ensures |blob| >= 14 && blob[0] == 1 && blob[1] != 1 ==> Open(p, key, blob, aad) == Err(AlgorithmMismatch)
  {
  }

  // The parts in their order, separated by colons.
  lemma AADIs(table: string, rowId: string, column: string)
    ensures MakeAAD(table, rowId, column) == table + [':'] + rowId + [':'] + column
    ensures MakeAAD("items", "abc", "name_enc") == "items:abc:name_enc"
  {
  }
}
