/** The encrypted settings file: its layouts, the keys it is sealed with, and reading back what was written. */
module CryptoSettings {
  import opened Common

  type SettingsMap = map<string, string>

  const NONCE_SIZE := 12
  const MAC_SIZE := 16
  const KEY_SIZE := 32
  const HEADER_SIZE := 4
  const UINT64_MAX := 0xffff_ffff_ffff_ffff

  const NO_ENCRYPTION: byte := 0
  const CHACHA_V1: byte := 1
  const CHACHA_V2: byte := 2

  /** The libraries the file format builds on: JSON, the AEAD of section 2.8 of RFC 8439, key derivation from a seed,
      and the metadata that names the seed. */
  datatype Library = Library(
    toJson: SettingsMap -> Bytes,
    fromJson: Bytes -> Option<SettingsMap>,
    encrypt: (Bytes, Bytes, Bytes, Bytes) -> (Bytes, Bytes),
    decrypt: (Bytes, Bytes, Bytes, Bytes, Bytes) -> Option<Bytes>,
    derive: Bytes -> Bytes,
    describe: Option<Bytes> -> Bytes,
    seedIn: Bytes -> Option<Bytes>)

  /** JSON parses what it printed, and prints at least the braces. */
  ghost predicate JsonLaw(lib: Library)
  {
    forall m :: lib.fromJson(lib.toJson(m)) == Some(m) && lib.toJson(m) != []
  }

  /** Decryption inverts encryption, which keeps the length and adds a 16-byte tag. */
  ghost predicate CipherLaw(lib: Library)
  {
    forall key, nonce, header, content ::
      var (cipher, mac) := lib.encrypt(key, nonce, header, content);
      && |cipher| == |content| && |mac| == MAC_SIZE
      && lib.decrypt(key, nonce, header, cipher, mac) == Some(content)
  }

  /** Seeds of 32 bytes: different ones give different keys of 32 bytes, and metadata names its seed. */
  ghost predicate SeedLaw(lib: Library)
  {
    && (forall seed: Bytes | |seed| == KEY_SIZE ::
          |lib.derive(seed)| == KEY_SIZE && lib.seedIn(lib.describe(Some(seed))) == Some(seed))
    && (forall a: Bytes, b: Bytes | |a| == |b| == KEY_SIZE && lib.derive(a) == lib.derive(b) :: a == b)
    && lib.seedIn([]) == None
  }

  ghost predicate Lawful(lib: Library) { JsonLaw(lib) && CipherLaw(lib) && SeedLaw(lib) }

  // ---- keys ----

  /** Where keys are kept: in the system's keychain, which outlives the process; or nowhere, the key being derived
      from a seed that the process remembers and the file's metadata names. */
  datatype KeyStore = Keychain(key: Option<Bytes>) | Portal(seed: Option<Bytes>)
  {
    function Version(): byte { if Keychain? then CHACHA_V1 else CHACHA_V2 }

    function Reset(): KeyStore { if Keychain? then Keychain(None) else Portal(None) }

    function Restarted(): KeyStore { if Keychain? then this else Portal(None) }
  }

  /** The seed remembered, else the one in the metadata, else a fresh one. */
  function SeedFor(lib: Library, seed: Option<Bytes>, metadata: Bytes, draw: Bytes): Bytes
  {
    if seed.Some? then seed.value
    else if lib.seedIn(metadata).Some? then lib.seedIn(metadata).value
    else draw
  }

  /** The answer to a request for the key; `draw` is what the random generator gives if it is needed. */
  function KeyFor(lib: Library, keys: KeyStore, version: byte, metadata: Bytes, draw: Bytes): Bytes
  {
    match keys
    case Keychain(key) => if key.Some? then key.value else draw
    case Portal(seed) => if version != CHACHA_V2 then [] else lib.derive(SeedFor(lib, seed, metadata, draw))
  }

  /** The key store after a request for the key. */
  function Asked(lib: Library, keys: KeyStore, version: byte, metadata: Bytes, draw: Bytes): KeyStore
  {
    match keys
    case Keychain(key) => if key.Some? then keys else Keychain(Some(draw))
    case Portal(seed) => if version != CHACHA_V2 then keys else Portal(Some(SeedFor(lib, seed, metadata, draw)))
  }

  function HeldKey(lib: Library, keys: KeyStore): Option<Bytes>
  {
    match keys
    case Keychain(key) => key
    case Portal(seed) => if seed.None? then None else Some(lib.derive(seed.value))
  }

  function Metadata(lib: Library, keys: KeyStore): Bytes
  {
    if keys.Keychain? then [] else lib.describe(keys.seed)
  }

  // ---- numbers in headers ----

  /** A byte as a `char` of the platform. */
  function AsChar(b: byte, signedChar: bool): int { if signedChar && b >= 128 then b as int - 256 else b as int }

  /** The metadata length as the reader computes it, in 16 bits: the high byte is shifted the wrong way. */
  function DecodeLength(lo: byte, hi: byte, signedChar: bool): (n: nat)
    ensures n < 65536
  {
    var shifted := if AsChar(hi, signedChar) < 0 then -1 else 0;
    (AsChar(lo, signedChar) + shifted) % 65536
  }

  function LowByte(n: nat): byte { (n % 256) as byte }

  function HighByte(n: nat): byte { (n / 256 % 256) as byte }

  function LengthLimit(signedChar: bool): nat { if signedChar then 128 else 256 }

  /** The reader recovers a written length exactly when it is below 128 (256 where `char` is unsigned). */
  lemma LengthDecodesBelowLimit(n: nat, signedChar: bool)
    requires n < 65536
    ensures DecodeLength(LowByte(n), HighByte(n), signedChar) == n <==> n < LengthLimit(signedChar)
  {
  }

  function LittleEndian(n: nat, size: nat): (r: Bytes)
    ensures |r| == size
  {
    if size == 0 then [] else [(n % 256) as byte] + LittleEndian(n / 256, size - 1)
  }

  function FromLittleEndian(s: Bytes): nat
  {
    if s == [] then 0 else s[0] as nat + 256 * FromLittleEndian(s[1..])
  }

  function Pow256(n: nat): nat { if n == 0 then 1 else 256 * Pow256(n - 1) }

  lemma {:induction false} LittleEndianInverts(n: nat, size: nat)
    requires n < Pow256(size)
    ensures FromLittleEndian(LittleEndian(n, size)) == n
    decreases size
  {
    if size > 0 {
      LittleEndianInverts(n / 256, size - 1);
      assert LittleEndian(n, size)[1..] == LittleEndian(n / 256, size - 1);
    }
  }

  lemma EightBytes()
    ensures Pow256(8) == UINT64_MAX + 1
  {
    assert Pow256(8) == 256 * Pow256(7) && Pow256(7) == 256 * Pow256(6) && Pow256(6) == 256 * Pow256(5);
    assert Pow256(5) == 256 * Pow256(4) && Pow256(4) == 256 * Pow256(3) && Pow256(3) == 256 * Pow256(2);
  }

  /** Twelve bytes: the counter in the first eight. */
  function NonceBytes(n: nat): (r: Bytes)
    ensures |r| == NONCE_SIZE
  {
    LittleEndian(n, 8) + [0, 0, 0, 0]
  }

  /** The counter in a nonce. */
  function Counter(nonce: Bytes): nat
    requires |nonce| >= 8
  {
    FromLittleEndian(nonce[..8])
  }

  lemma NonceInverts(n: nat)
    requires n <= UINT64_MAX
    ensures Counter(NonceBytes(n)) == n
  {
    EightBytes();
    LittleEndianInverts(n, 8);
    assert NonceBytes(n)[..8] == LittleEndian(n, 8);
  }

  // ---- layouts ----

  function Header(version: byte, metadata: Bytes): Bytes
  {
    if version == CHACHA_V1 then [version]
    else [version, 0, LowByte(|metadata|), HighByte(|metadata|)] + metadata
  }

  function Sealed(lib: Library, version: byte, metadata: Bytes, key: Bytes, nonce: nat, m: SettingsMap): Bytes
  {
    var header := Header(version, metadata);
    var (cipher, mac) := lib.encrypt(key, NonceBytes(nonce), header, lib.toJson(m));
    header + NonceBytes(nonce) + mac + cipher
  }

  /** The layout of a file: the header, for version 2 with reserved byte, little-endian length and metadata; then the
      nonce, the authentication code and the ciphertext, which covers the header. */
  lemma SealedLayout(lib: Library, version: byte, metadata: Bytes, key: Bytes, nonce: nat, m: SettingsMap)
    requires version == CHACHA_V1 || version == CHACHA_V2
    requires |metadata| < 65536 && CipherLaw(lib)
    ensures var f := Sealed(lib, version, metadata, key, nonce, m);
            var h := if version == CHACHA_V1 then 1 else 4 + |metadata|;
            && |f| == h + 28 + |lib.toJson(m)| && f[0] == version
            && (version == CHACHA_V2 ==>
                  && f[1] == 0 && f[2] as nat == |metadata| % 256 && f[3] as nat == |metadata| / 256
                  && f[4..h] == metadata)
            && f[h..h + 12] == NonceBytes(nonce)
            && (f[h + 28..], f[h + 12..h + 28]) == lib.encrypt(key, f[h..h + 12], f[..h], lib.toJson(m))
  {
    var header := Header(version, metadata);
    var (cipher, mac) := lib.encrypt(key, NonceBytes(nonce), header, lib.toJson(m));
    var f, h := header + NonceBytes(nonce) + mac + cipher, |header|;
    assert f[..h] == header && f[h..h + 12] == NonceBytes(nonce) && f[h + 12..h + 28] == mac && f[h + 28..] == cipher;
  }

  /** The nonce is the counter in eight bytes, lowest first, and four zeros. */
  lemma NonceLayout(n: nat)
    requires n <= UINT64_MAX
    ensures var b := NonceBytes(n);
            && n == b[0] as int + 256 * (b[1] as int + 256 * (b[2] as int + 256 * (b[3] as int
                    + 256 * (b[4] as int + 256 * (b[5] as int + 256 * (b[6] as int + 256 * b[7] as int))))))
            && b[8..] == [0, 0, 0, 0]
  {
    var b := NonceBytes(n)[..8];
    NonceInverts(n);
    Digits(b);
  }

  lemma Digits(b: Bytes)
    requires |b| == 8
    ensures FromLittleEndian(b)
         == b[0] as int + 256 * (b[1] as int + 256 * (b[2] as int + 256 * (b[3] as int
            + 256 * (b[4] as int + 256 * (b[5] as int + 256 * (b[6] as int + 256 * b[7] as int))))))
  {
    assert b[1..][1..] == b[2..] && b[2..][1..] == b[3..] && b[3..][1..] == b[4..] && b[4..][1..] == b[5..];
    assert b[5..][1..] == b[6..] && b[6..][1..] == b[7..] && b[7..][1..] == [];
    assert FromLittleEndian(b[7..]) == b[7] as int;
    assert FromLittleEndian(b[6..]) == b[6] as int + 256 * FromLittleEndian(b[7..]);
    assert FromLittleEndian(b[5..]) == b[5] as int + 256 * FromLittleEndian(b[6..]);
    assert FromLittleEndian(b[4..]) == b[4] as int + 256 * FromLittleEndian(b[5..]);
    assert FromLittleEndian(b[3..]) == b[3] as int + 256 * FromLittleEndian(b[4..]);
    assert FromLittleEndian(b[2..]) == b[2] as int + 256 * FromLittleEndian(b[3..]);
    assert FromLittleEndian(b[1..]) == b[1] as int + 256 * FromLittleEndian(b[2..]);
  }

  /** The map read and the nonce found. */
  datatype Opened = Opened(settings: SettingsMap, nonce: nat)

  /** A file taken apart at its header. */
  datatype Cut = Cut(version: byte, header: Bytes, metadata: Bytes, body: Bytes)

  function CutFile(file: Bytes, signedChar: bool): Option<Cut>
    requires file != []
  {
    if file[0] == CHACHA_V1 then Some(Cut(CHACHA_V1, file[..1], [], file[1..]))
    else if file[0] != CHACHA_V2 || |file| < HEADER_SIZE then None
    else
      var end := HEADER_SIZE + DecodeLength(file[2], file[3], signedChar);
      if |file| < end then None else Some(Cut(CHACHA_V2, file[..end], file[HEADER_SIZE..end], file[end..]))
  }

  /** The body holds a nonce, an authentication code and some ciphertext, so the key is asked for. */
  predicate Complete(body: Bytes) { |body| > NONCE_SIZE + MAC_SIZE }

  function OpenBody(lib: Library, keys: KeyStore, draw: Bytes, c: Cut): Option<Opened>
  {
    if !Complete(c.body) then None else
    var nonce, mac, cipher := c.body[..12], c.body[12..28], c.body[28..];
    var key := KeyFor(lib, keys, c.version, c.metadata, draw);
    if |key| != KEY_SIZE then None else
    var content := lib.decrypt(key, nonce, c.header, cipher, mac);
    if content.None? then None else
    var m := lib.fromJson(content.value);
    if m.None? then None else Some(Opened(m.value, Counter(nonce)))
  }

  function OpenEncrypted(lib: Library, keys: KeyStore, draw: Bytes, file: Bytes, signedChar: bool): Option<Opened>
    requires file != []
  {
    var c := CutFile(file, signedChar);
    if c.None? then None else OpenBody(lib, keys, draw, c.value)
  }

  /** The key store after a file has been read, successfully or not. */
  function KeysAfterRead(lib: Library, keys: KeyStore, draw: Bytes, file: Bytes, signedChar: bool): KeyStore
    requires file != []
  {
    var c := CutFile(file, signedChar);
    if c.None? || !Complete(c.value.body) then keys
    else Asked(lib, keys, c.value.version, c.value.metadata, draw)
  }

  /** A settings file read with or without a crypto implementation. */
  function ReadSettings(lib: Option<Library>, keys: KeyStore, draw: Bytes, json: Bytes -> Option<SettingsMap>,
                        file: Bytes, signedChar: bool)
    : Option<SettingsMap>
  {
    if file == [] then None
    else if file[0] == NO_ENCRYPTION then json(file[1..])
    else if lib.None? then None
    else
      var r := OpenEncrypted(lib.value, keys, draw, file, signedChar);
      if r.None? then None else Some(r.value.settings)
  }

  /** A written body opens to what was written. */
  lemma BodyOpens(lib: Library, keys: KeyStore, draw: Bytes, c: Cut, key: Bytes, nonce: nat, m: SettingsMap)
    requires JsonLaw(lib) && CipherLaw(lib) && nonce <= UINT64_MAX
    requires |key| == KEY_SIZE && KeyFor(lib, keys, c.version, c.metadata, draw) == key
    requires var (cipher, mac) := lib.encrypt(key, NonceBytes(nonce), c.header, lib.toJson(m));
             c.body == NonceBytes(nonce) + mac + cipher
    ensures Complete(c.body) && OpenBody(lib, keys, draw, c) == Some(Opened(m, nonce))
  {
    var content := lib.toJson(m);
    var (cipher, mac) := lib.encrypt(key, NonceBytes(nonce), c.header, content);
    assert |content| > 0;
    assert c.body[..12] == NonceBytes(nonce) && c.body[12..28] == mac && c.body[28..] == cipher;
    NonceInverts(nonce);
  }

  /** The reader cuts a written file where the writer joined it, if the metadata is below the length limit. */
  lemma SealedCuts(version: byte, metadata: Bytes, body: Bytes, signedChar: bool)
    requires version == CHACHA_V1 || version == CHACHA_V2
    requires version == CHACHA_V2 ==> |metadata| < LengthLimit(signedChar)
    ensures CutFile(Header(version, metadata) + body, signedChar)
         == Some(Cut(version, Header(version, metadata), if version == CHACHA_V1 then [] else metadata, body))
  {
    var header := Header(version, metadata);
    var file := header + body;
    assert file[..|header|] == header && file[|header|..] == body;
    if version == CHACHA_V2 {
      LengthDecodesBelowLimit(|metadata|, signedChar);
      assert file[HEADER_SIZE..HEADER_SIZE + |metadata|] == metadata;
    }
  }

  /** Reading back a written version 1 or version 2 file gives the same settings and the nonce it was written with,
      whenever the metadata is shorter than the reader's length limit. */
  lemma EncryptedRoundTrip(lib: Library, keys: KeyStore, draw: Bytes, version: byte, metadata: Bytes, key: Bytes,
                           nonce: nat, m: SettingsMap, signedChar: bool)
    requires JsonLaw(lib) && CipherLaw(lib) && nonce <= UINT64_MAX && |key| == KEY_SIZE
    requires version == CHACHA_V1 || version == CHACHA_V2
    requires version == CHACHA_V2 ==> |metadata| < LengthLimit(signedChar)
    requires KeyFor(lib, keys, version, if version == CHACHA_V1 then [] else metadata, draw) == key
    ensures var file := Sealed(lib, version, metadata, key, nonce, m);
            && OpenEncrypted(lib, keys, draw, file, signedChar) == Some(Opened(m, nonce))
            && KeysAfterRead(lib, keys, draw, file, signedChar)
            == Asked(lib, keys, version, if version == CHACHA_V1 then [] else metadata, draw)
  {
    var header := Header(version, metadata);
    var (cipher, mac) := lib.encrypt(key, NonceBytes(nonce), header, lib.toJson(m));
    var body := NonceBytes(nonce) + mac + cipher;
    assert Sealed(lib, version, metadata, key, nonce, m) == header + body;
    SealedCuts(version, metadata, body, signedChar);
    BodyOpens(lib, keys, draw, Cut(version, header, if version == CHACHA_V1 then [] else metadata, body),
              key, nonce, m);
  }

  /** Whatever key a written file is read with, the nonce found is the one it was written with. */
  lemma NonceFound(lib: Library, keys: KeyStore, draw: Bytes, version: byte, metadata: Bytes, key: Bytes, nonce: nat,
                   m: SettingsMap, signedChar: bool)
    requires nonce <= UINT64_MAX && (version == CHACHA_V1 || version == CHACHA_V2)
    requires version == CHACHA_V2 ==> |metadata| < LengthLimit(signedChar)
    ensures var found := OpenEncrypted(lib, keys, draw, Sealed(lib, version, metadata, key, nonce, m), signedChar);
            found.Some? ==> found.value.nonce == nonce
  {
    var header := Header(version, metadata);
    var (cipher, mac) := lib.encrypt(key, NonceBytes(nonce), header, lib.toJson(m));
    var body := NonceBytes(nonce) + mac + cipher;
    assert Sealed(lib, version, metadata, key, nonce, m) == header + body;
    SealedCuts(version, metadata, body, signedChar);
    if Complete(body) {
      assert body[..12] == NonceBytes(nonce);
      NonceInverts(nonce);
    }
  }

  /** Saving fails only for want of a key of 32 bytes, or with metadata whose length does not fit into two bytes. */
  lemma SaveRefused(lib: Library, keys: KeyStore, nonce: nat, m: SettingsMap)
    ensures FileFor(lib, keys, nonce, m).None?
       <==> || HeldKey(lib, keys).None? || |HeldKey(lib, keys).value| != 32
            || (keys.Portal? && |lib.describe(keys.seed)| >= 65536)
  {
  }

  /** A version 1 file opens exactly if it holds at least one byte of ciphertext behind nonce and code, the key has 32
      bytes, and what it decrypts to, under the version byte, are settings. */
  lemma OpensExactly(lib: Library, keys: KeyStore, draw: Bytes, file: Bytes, signedChar: bool, o: Opened)
    requires file != [] && file[0] == 1
    ensures OpenEncrypted(lib, keys, draw, file, signedChar) == Some(o)
       <==> var key := KeyFor(lib, keys, 1, [], draw);
            && |file| >= 30 && |key| == 32
            && var content := lib.decrypt(key, file[1..13], file[..1], file[29..], file[13..29]);
               content.Some? && lib.fromJson(content.value) == Some(o.settings) && o.nonce == Counter(file[1..13])
  {
    if |file| >= 30 {
      var body := file[1..];
      assert body[..12] == file[1..13] && body[12..28] == file[13..29] && body[28..] == file[29..];
    }
  }

  /** A version 2 file the same way, behind its header and as many bytes of metadata as the decoded length says. */
  lemma OpensExactlyV2(lib: Library, keys: KeyStore, draw: Bytes, file: Bytes, signedChar: bool, o: Opened)
    requires |file| >= 4 && file[0] == 2
    ensures OpenEncrypted(lib, keys, draw, file, signedChar) == Some(o)
       <==> var h := 4 + DecodeLength(file[2], file[3], signedChar);
            && |file| >= h + 29
            && var key := KeyFor(lib, keys, 2, file[4..h], draw);
               && |key| == 32
               && var content := lib.decrypt(key, file[h..h + 12], file[..h], file[h + 28..], file[h + 12..h + 28]);
                  && content.Some? && lib.fromJson(content.value) == Some(o.settings)
                  && o.nonce == Counter(file[h..h + 12])
  {
    var h := 4 + DecodeLength(file[2], file[3], signedChar);
    if |file| >= h + 29 {
      var body := file[h..];
      assert body[..12] == file[h..h + 12] && body[12..28] == file[h + 12..h + 28] && body[28..] == file[h + 28..];
    }
  }

  lemma PlaintextRoundTrip(lib: Library, m: SettingsMap, impl: Option<Library>, keys: KeyStore, draw: Bytes,
                           signedChar: bool)
    requires JsonLaw(lib)
    ensures ReadSettings(impl, keys, draw, lib.fromJson, [NO_ENCRYPTION] + lib.toJson(m), signedChar) == Some(m)
  {
    assert ([NO_ENCRYPTION] + lib.toJson(m))[1..] == lib.toJson(m);
  }

  /** With signed characters, metadata of 128 to 255 bytes makes any file below 64 kilobytes unreadable. */
  lemma LongMetadataUnreadable(lib: Library, keys: KeyStore, draw: Bytes, metadata: Bytes, key: Bytes, nonce: nat,
                               m: SettingsMap)
    requires 128 <= |metadata| < 256
    requires |Sealed(lib, CHACHA_V2, metadata, key, nonce, m)| < 65408
    ensures OpenEncrypted(lib, keys, draw, Sealed(lib, CHACHA_V2, metadata, key, nonce, m), true) == None
  {
    var file := Sealed(lib, CHACHA_V2, metadata, key, nonce, m);
    assert file[0] == CHACHA_V2 && file[2] == LowByte(|metadata|) && file[3] == HighByte(|metadata|);
  }

  // ---- saving ----

  /** The counter after a save: it restarts at zero instead of reaching its top value. */
  function NextNonce(last: nat): nat { if last >= UINT64_MAX - 1 then 0 else last + 1 }

  predicate ResetsKey(last: nat) { last == UINT64_MAX - 1 }

  /** The key store after a save: at the top of the counter the key is reset before one is asked for. */
  function KeysAfterSave(lib: Library, keys: KeyStore, last: nat, draw: Bytes): KeyStore
  {
    Asked(lib, if ResetsKey(last) then keys.Reset() else keys, keys.Version(), [], draw)
  }

  /** The file for some settings under the key held, unless the key or the metadata has the wrong length. */
  function FileFor(lib: Library, keys: KeyStore, nonce: nat, m: SettingsMap): Option<Bytes>
  {
    var key := HeldKey(lib, keys);
    if key.None? || |key.value| != KEY_SIZE || (keys.Portal? && |Metadata(lib, keys)| > 65535) then None
    else Some(Sealed(lib, keys.Version(), Metadata(lib, keys), key.value, nonce, m))
  }

  lemma AskedIsHeld(lib: Library, keys: KeyStore, metadata: Bytes, draw: Bytes)
    ensures HeldKey(lib, Asked(lib, keys, keys.Version(), metadata, draw))
         == Some(KeyFor(lib, keys, keys.Version(), metadata, draw))
  {
  }

  // ---- the object ----

  class Store {
    var lastNonce: nat
    var keys: KeyStore

    constructor (keys: KeyStore)
      ensures lastNonce == 0 && this.keys == keys
    {
      lastNonce := 0;
      this.keys := keys;
    }

    /** Ask the key store for the key. */
    method GetKey(lib: Library, version: byte, metadata: Bytes, draw: Bytes) returns (key: Bytes)
      modifies this`keys
      ensures key == KeyFor(lib, old(keys), version, metadata, draw)
      ensures keys == Asked(lib, old(keys), version, metadata, draw)
    {
      match keys {
        case Keychain(held) =>
          if held == None {
            keys := Keychain(Some(draw));
          }
          key := keys.key.value;
        case Portal(held) =>
          if version != CHACHA_V2 {
            return [];
          }
          if held == None {
            var named := lib.seedIn(metadata);
            keys := Portal(Some(if named.Some? then named.value else draw));
          }
          key := lib.derive(keys.seed.value);
      }
    }

    /** Seal the settings with the next nonce; at the top of the counter the key is reset first. */
    method WriteEncrypted(lib: Library, m: SettingsMap, draw: Bytes) returns (file: Option<Bytes>)
      requires lastNonce <= UINT64_MAX
      modifies this
      ensures keys == KeysAfterSave(lib, old(keys), old(lastNonce), draw)
      ensures lastNonce == NextNonce(old(lastNonce)) <= UINT64_MAX
      ensures file == FileFor(lib, keys, lastNonce, m)
    {
      var content := lib.toJson(m);
      lastNonce := (lastNonce + 1) % (UINT64_MAX + 1);
      if lastNonce == UINT64_MAX {
        keys := keys.Reset();
        lastNonce := 0;
      }
      var nonce := NonceBytes(lastNonce);
      var version := keys.Version();
      AskedIsHeld(lib, keys, [], draw);
      var key := GetKey(lib, version, [], draw);
      if key == [] || |key| != KEY_SIZE {
        return None;
      }
      var header: Bytes := [];
      if version == CHACHA_V1 {
        header := [version];
      } else {
        var metadata := lib.describe(keys.seed);
        if |metadata| > 65535 {
          return None;
        }
        header := [version, 0, LowByte(|metadata|), HighByte(|metadata|)];
        header := header + metadata;
      }
      var (cipher, mac) := lib.encrypt(key, nonce, header, content);
      file := Some(header + nonce + mac + cipher);
    }

    /** Read the device from the start; a file that opens also sets the nonce counter. */
    method ReadEncrypted(lib: Library, file: Bytes, signedChar: bool, draw: Bytes)
      returns (settings: Option<SettingsMap>)
      requires file != []
      modifies this
      ensures keys == KeysAfterRead(lib, old(keys), draw, file, signedChar)
      ensures match OpenEncrypted(lib, old(keys), draw, file, signedChar)
              case None => settings == None && lastNonce == old(lastNonce)
              case Some(o) => settings == Some(o.settings) && lastNonce == o.nonce
    {
      var version := file[0];
      var header, metadata: Bytes, pos := [version], [], 1;
      if version == CHACHA_V2 {
        if |file| < HEADER_SIZE {
          return None;
        }
        header, pos := file[..HEADER_SIZE], HEADER_SIZE;
        var length := DecodeLength(header[2], header[3], signedChar);
        if |file| < pos + length {
          return None;
        }
        header, pos := file[..pos + length], pos + length;
        metadata := header[HEADER_SIZE..];
        assert metadata == file[HEADER_SIZE..pos];
      } else if version != CHACHA_V1 {
        return None;
      }
      assert version == CHACHA_V1 ==> header == file[..1];
      settings := ReadBody(lib, Cut(version, header, metadata, file[pos..]), draw);
    }

    /** What follows the header: nonce, authentication code and ciphertext. */
    method ReadBody(lib: Library, c: Cut, draw: Bytes) returns (settings: Option<SettingsMap>)
      modifies this
      ensures keys == if Complete(c.body) then Asked(lib, old(keys), c.version, c.metadata, draw) else old(keys)
      ensures match OpenBody(lib, old(keys), draw, c)
              case None => settings == None && lastNonce == old(lastNonce)
              case Some(o) => settings == Some(o.settings) && lastNonce == o.nonce
    {
      if |c.body| < NONCE_SIZE {
        return None;
      }
      var nonce, rest := c.body[..NONCE_SIZE], c.body[NONCE_SIZE..];
      if |rest| < MAC_SIZE {
        return None;
      }
      var mac, cipher := rest[..MAC_SIZE], rest[MAC_SIZE..];
      assert mac == c.body[12..28] && cipher == c.body[28..];
      if cipher == [] {
        return None;
      }
      var key := GetKey(lib, c.version, c.metadata, draw);
      if key == [] || |key| != KEY_SIZE {
        return None;
      }
      var content := lib.decrypt(key, nonce, c.header, cipher, mac);
      if content.None? {
        return None;
      }
      settings := lib.fromJson(content.value);
      if settings.None? {
        return;
      }
      lastNonce := Counter(nonce);
    }
  }
}
