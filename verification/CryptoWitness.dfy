/** A library that meets every law the settings file relies on: the laws do not contradict each other. */
module CryptoWitness {
  import opened Common
  import opened CryptoSettings
  import opened CryptoRuns

  // ---- printing and parsing text ----

  /** Each character behind a 1, in three bytes, and a 0 at the end. */
  function PrintText(s: string): Bytes
  {
    if s == [] then [0]
    else
      var n := s[0] as int;
      [1, (n / 65536) as byte, (n / 256 % 256) as byte, (n % 256) as byte] + PrintText(s[1..])
  }

  function ParseChar(n: int): Option<char>
  {
    if 0 <= n < 0xD800 || 0xE000 <= n < 0x11_0000 then Some(n as char) else None
  }

  function ParseText(bs: Bytes): (r: Option<(string, Bytes)>)
    ensures r.Some? ==> |r.value.1| < |bs|
  {
    if bs == [] then None
    else if bs[0] == 0 then Some(("", bs[1..]))
    else if |bs| < 4 then None
    else
      var c := ParseChar(bs[1] as int * 65536 + bs[2] as int * 256 + bs[3] as int);
      var rest := ParseText(bs[4..]);
      if c.None? || rest.None? then None else Some(([c.value] + rest.value.0, rest.value.1))
  }

  lemma {:induction false} TextParses(s: string, rest: Bytes)
    ensures ParseText(PrintText(s) + rest) == Some((s, rest))
    decreases |s|
  {
    var bs := PrintText(s) + rest;
    if s == [] {
      assert bs[1..] == rest;
    } else {
      var n := s[0] as int;
      assert n == n / 65536 * 65536 + n / 256 % 256 * 256 + n % 256;
      assert bs[4..] == PrintText(s[1..]) + rest;
      TextParses(s[1..], rest);
      assert [s[0]] + s[1..] == s;
    }
  }

  // ---- printing and parsing settings ----

  function ParseMap(bs: Bytes): Option<SettingsMap>
    decreases |bs|
  {
    if bs == [] then None
    else if bs[0] == 0 then Some(map[])
    else
      var key := ParseText(bs[1..]);
      if key.None? then None else
      var value := ParseText(key.value.1);
      if value.None? then None else
      var rest := ParseMap(value.value.1);
      if rest.None? then None else Some(rest.value[key.value.0 := value.value.0])
  }

  /** The settings in some order, each behind a 1, and a 0 at the end. */
  ghost function PrintMap(m: SettingsMap): Bytes
    decreases |m|
  {
    if m == map[] then [0]
    else
      var key :| key in m;
      [1] + PrintText(key) + PrintText(m[key]) + PrintMap(m - {key})
  }

  lemma EntryParses(key: string, value: string, rest: Bytes, m: SettingsMap)
    requires ParseMap(rest) == Some(m)
    ensures ParseMap([1] + PrintText(key) + PrintText(value) + rest) == Some(m[key := value])
  {
    var bs := [1] + PrintText(key) + PrintText(value) + rest;
    assert bs[1..] == PrintText(key) + (PrintText(value) + rest);
    TextParses(key, PrintText(value) + rest);
    TextParses(value, rest);
  }

  lemma {:induction false} MapParses(m: SettingsMap)
    ensures ParseMap(PrintMap(m)) == Some(m) && PrintMap(m) != []
    decreases |m|
  {
    if m != map[] {
      var key :| key in m && PrintMap(m) == [1] + PrintText(key) + PrintText(m[key]) + PrintMap(m - {key});
      MapParses(m - {key});
      EntryParses(key, m[key], PrintMap(m - {key}), m - {key});
      assert (m - {key})[key := m[key]] == m;
    }
  }

  // ---- the library ----

  const ZEROS: Bytes := seq(MAC_SIZE, i => 0)

  /** Nothing is hidden; keys are seeds, and metadata is the seed. */
  ghost function PlainLibrary(): Library
  {
    Library(
      (m: SettingsMap) => PrintMap(m),
      (bs: Bytes) => ParseMap(bs),
      (key: Bytes, nonce: Bytes, header: Bytes, content: Bytes) => (content, ZEROS),
      (key: Bytes, nonce: Bytes, header: Bytes, cipher: Bytes, mac: Bytes) => Some(cipher),
      (seed: Bytes) => seed,
      (seed: Option<Bytes>) => if seed.Some? then seed.value else [],
      (metadata: Bytes) => if |metadata| == KEY_SIZE then Some(metadata) else None)
  }

  /** The laws can be met, and with metadata short enough for the reader, with either store. */
  lemma LawsCanBeMet(signedChar: bool, keys: KeyStore)
    ensures Lawful(PlainLibrary()) && Readable(PlainLibrary(), signedChar, keys)
  {
    var lib := PlainLibrary();
    forall m ensures lib.fromJson(lib.toJson(m)) == Some(m) && lib.toJson(m) != [] {
      MapParses(m);
    }
  }
}
