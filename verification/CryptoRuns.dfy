/** Whole histories of the settings file: which keys and nonces its versions were sealed with, and what loading it
    gives back. */
module CryptoRuns {
  import opened Common
  import opened CryptoSettings

  /** What one encryption used. */
  datatype Stamp = Stamp(key: Bytes, nonce: Bytes)

  /** What the file on disk was sealed from. */
  datatype Saved = Saved(key: Bytes, metadata: Bytes, nonce: nat, settings: SettingsMap)

  /** The file, the key store and the counter of the running process; besides, every encryption made so far, every
      random draw made so far, and where the file came from. */
  datatype World = World(
    disk: Bytes,
    keys: KeyStore,
    last: nat,
    log: seq<Stamp>,
    drawn: set<Bytes>,
    saved: Option<Saved>)

  /** `draw` is the next random draw; a save is `written` unless the device failed. */
  datatype Event = Load(draw: Bytes) | Save(settings: SettingsMap, draw: Bytes, written: bool) | Restart

  function NewWorld(keys: KeyStore): World { World([], keys.Reset(), 0, [], {}, None) }

  function Loaded(lib: Library, signedChar: bool, w: World, draw: Bytes): World
  {
    if w.disk == [] then w
    else
      var found := OpenEncrypted(lib, w.keys, draw, w.disk, signedChar);
      w.(keys := KeysAfterRead(lib, w.keys, draw, w.disk, signedChar), drawn := w.drawn + {draw},
         last := if found.Some? then found.value.nonce else w.last)
  }

  function SavedTo(lib: Library, w: World, m: SettingsMap, draw: Bytes, written: bool): World
  {
    var keys, nonce := KeysAfterSave(lib, w.keys, w.last, draw), NextNonce(w.last);
    var w1 := w.(keys := keys, last := nonce, drawn := w.drawn + {draw});
    var file := FileFor(lib, keys, nonce, m);
    if file.None? || HeldKey(lib, keys).None? then w1
    else
      var key := HeldKey(lib, keys).value;
      var w2 := w1.(log := w.log + [Stamp(key, NonceBytes(nonce))]);
      if !written then w2
      else w2.(disk := file.value, saved := Some(Saved(key, Metadata(lib, keys), nonce, m)))
  }

  function Step(lib: Library, signedChar: bool, w: World, e: Event): World
  {
    match e
    case Load(draw) => Loaded(lib, signedChar, w, draw)
    case Save(m, draw, written) => SavedTo(lib, w, m, draw, written)
    case Restart => w.(keys := w.keys.Restarted(), last := 0)
  }

  /** Draws are 32 bytes long and never repeat. */
  predicate FreshDraw(w: World, e: Event)
  {
    e.Restart? || (e.draw !in w.drawn && |e.draw| == KEY_SIZE)
  }

  ghost predicate StepAt(lib: Library, signedChar: bool, ws: seq<World>, es: seq<Event>, i: nat)
    requires |ws| == |es| + 1 && i < |es|
  {
    FreshDraw(ws[i], es[i]) && ws[i + 1] == Step(lib, signedChar, ws[i], es[i])
  }

  ghost predicate IsRun(lib: Library, signedChar: bool, ws: seq<World>, es: seq<Event>)
  {
    && |ws| == |es| + 1
    && ws[0] == NewWorld(ws[0].keys)
    && forall i :: 0 <= i < |es| ==> StepAt(lib, signedChar, ws, es, i)
  }

  /** Metadata, where it is used, is short enough for the reader. */
  ghost predicate Readable(lib: Library, signedChar: bool, keys: KeyStore)
  {
    keys.Portal? ==> forall seed: Bytes | |seed| == KEY_SIZE :: |lib.describe(Some(seed))| < LengthLimit(signedChar)
  }

  ghost predicate NoReuse(log: seq<Stamp>)
  {
    forall i, j :: 0 <= i < j < |log| ==> log[i] != log[j]
  }

  // ---- what the events tell ----

  /** Which key the process holds: none, the one the file is sealed with, or one that no file is sealed with. */
  datatype Holding = Nothing | OfFile | Own

  /** What follows from the events so far: the key held; whether there is a file, and whether anything was saved;
      `lag`, whether saves under the file's key were lost since it was written; and `behind`, whether the process counts
      on from a counter that is not the last one used with its key. */
  datatype Progress = Progress(holding: Holding, file: bool, used: bool, lag: bool, behind: bool)

  const NO_PROGRESS := Progress(Nothing, false, false, false, false)

  function Advance(keychain: bool, p: Progress, e: Event): Progress
  {
    match e
    case Restart => if keychain then p.(behind := p.used) else p.(holding := Nothing, behind := false)
    case Load(_) => if !p.file || p.holding.Own? then p else p.(holding := OfFile, behind := p.lag)
    case Save(_, _, written) =>
      if written then Progress(OfFile, true, true, false, false)
      else if keychain || p.holding.OfFile? then p.(used := true, lag := true, behind := false)
      else p.(holding := Own, used := true, behind := false)
  }

  function Track(keychain: bool, es: seq<Event>, n: nat): Progress
    requires n <= |es|
  {
    if n == 0 then NO_PROGRESS
    else Advance(keychain, Track(keychain, es, n - 1), es[n - 1])
  }

  predicate InStepAt(keychain: bool, es: seq<Event>, i: nat)
    requires i < |es|
  {
    es[i].Save? ==> !Track(keychain, es, i).behind
  }

  /** No process saves while it is behind. */
  predicate InStep(keychain: bool, es: seq<Event>, n: nat)
    requires n <= |es|
  {
    forall i :: 0 <= i < n ==> InStepAt(keychain, es, i)
  }

  /** A process that holds a key of its own cannot open a file sealed with another. */
  ghost predicate RefusesFile(lib: Library, signedChar: bool, w: World, draw: Bytes)
  {
    w.disk != [] ==> OpenEncrypted(lib, w.keys, draw, w.disk, signedChar) == None
  }

  ghost predicate AuthenticAt(lib: Library, signedChar: bool, ws: seq<World>, es: seq<Event>, i: nat)
    requires |ws| == |es| + 1 && i < |es|
  {
    es[i].Load? && Track(ws[0].keys.Keychain?, es, i).holding.Own? ==> RefusesFile(lib, signedChar, ws[i], es[i].draw)
  }

  ghost predicate Authentic(lib: Library, signedChar: bool, ws: seq<World>, es: seq<Event>, n: nat)
    requires |ws| == |es| + 1 && n <= |es|
  {
    forall i :: 0 <= i < n ==> AuthenticAt(lib, signedChar, ws, es, i)
  }

  // ---- the invariant ----

  /** The key made from a random draw. */
  function DrawnKey(lib: Library, keys: KeyStore, draw: Bytes): Bytes
  {
    if keys.Keychain? then draw else lib.derive(draw)
  }

  /** A key that no draw to come can give. */
  ghost predicate Spent(lib: Library, w: World, key: Bytes)
  {
    forall other: Bytes | |other| == KEY_SIZE && other !in w.drawn :: DrawnKey(lib, w.keys, other) != key
  }

  /** No encryption has used the key with a counter above `top`. */
  ghost predicate UsedUpTo(log: seq<Stamp>, key: Bytes, top: int)
  {
    forall s <- log :: |s.nonce| == NONCE_SIZE && (s.key == key ==> Counter(s.nonce) <= top)
  }

  /** The file is sealed with a spent key of this store; unless saves were lost, the key is used up to its counter and
      is the one held. */
  ghost predicate FileInv(lib: Library, signedChar: bool, w: World, f: Saved, p: Progress)
  {
    && w.disk == Sealed(lib, w.keys.Version(), f.metadata, f.key, f.nonce, f.settings) && w.disk != []
    && |f.key| == KEY_SIZE && f.nonce < UINT64_MAX && Spent(lib, w, f.key)
    && (!p.lag ==> UsedUpTo(w.log, f.key, f.nonce))
    && (w.keys.Keychain? ==> f.metadata == [] && w.keys.key.Some? && (!p.lag ==> w.keys.key == Some(f.key)))
    && (w.keys.Portal? ==>
          && |f.metadata| < LengthLimit(signedChar)
          && lib.seedIn(f.metadata).Some? && |lib.seedIn(f.metadata).value| == KEY_SIZE
          && lib.derive(lib.seedIn(f.metadata).value) == f.key
          && (p.holding.OfFile? && !p.lag ==> w.keys.seed == lib.seedIn(f.metadata))
          && (p.holding.Own? ==> HeldKey(lib, w.keys) != Some(f.key)))
  }

  /** The key held is spent and, unless the process is behind, used up to its counter. */
  ghost predicate KeyInv(lib: Library, w: World, p: Progress)
  {
    && (HeldKey(lib, w.keys).None? ==> w.last == 0)
    && (w.keys.Keychain? ==> !p.holding.Own? && (!p.used ==> w.keys.key.None?))
    && (w.keys.Portal? ==> (p.holding.Nothing? <==> w.keys.seed.None?))
    && match HeldKey(lib, w.keys)
       case None => true
       case Some(key) =>
         && |key| == KEY_SIZE && Spent(lib, w, key) && (!p.behind ==> UsedUpTo(w.log, key, w.last))
         && (w.keys.Portal? ==> |w.keys.seed.value| == KEY_SIZE)
  }

  ghost predicate Inv(lib: Library, signedChar: bool, w: World, p: Progress)
  {
    && NoReuse(w.log) && w.last < UINT64_MAX
    && (forall other: Bytes | |other| == KEY_SIZE && other !in w.drawn ::
          UsedUpTo(w.log, DrawnKey(lib, w.keys, other), -1))
    && KeyInv(lib, w, p)
    && (p.file <==> w.saved.Some?) && (p.file ==> p.used)
    && if w.saved.None? then w.disk == [] else FileInv(lib, signedChar, w, w.saved.value, p)
  }

  // ---- loading and restarting ----

  /** Unless saves were lost or the process holds a key of its own, loading finds what was last written. */
  lemma LoadOpens(lib: Library, signedChar: bool, w: World, draw: Bytes, p: Progress)
    requires Lawful(lib) && Inv(lib, signedChar, w, p) && w.saved.Some?
    requires KeyFor(lib, w.keys, w.keys.Version(), w.saved.value.metadata, draw) == w.saved.value.key
    ensures OpenEncrypted(lib, w.keys, draw, w.disk, signedChar)
         == Some(Opened(w.saved.value.settings, w.saved.value.nonce))
    ensures KeysAfterRead(lib, w.keys, draw, w.disk, signedChar)
         == Asked(lib, w.keys, w.keys.Version(), w.saved.value.metadata, draw)
  {
    var f := w.saved.value;
    EncryptedRoundTrip(lib, w.keys, draw, w.keys.Version(), f.metadata, f.key, f.nonce, f.settings, signedChar);
  }

  /** A process that already holds a key keeps it. */
  lemma LoadKeepsKey(lib: Library, signedChar: bool, w: World, draw: Bytes)
    requires HeldKey(lib, w.keys).Some? && w.disk != []
    ensures KeysAfterRead(lib, w.keys, draw, w.disk, signedChar) == w.keys
  {
  }

  /** A process without a key takes the one the metadata names, and its counter. */
  lemma LoadTakesKey(lib: Library, signedChar: bool, w: World, draw: Bytes, p: Progress)
    requires Lawful(lib) && Inv(lib, signedChar, w, p) && w.saved.Some? && HeldKey(lib, w.keys).None?
    ensures w.keys.Portal?
    ensures var w' := Loaded(lib, signedChar, w, draw);
            && w'.keys == Portal(lib.seedIn(w.saved.value.metadata)) && w'.last == w.saved.value.nonce
            && w' == w.(keys := w'.keys, last := w'.last, drawn := w.drawn + {draw})
  {
    LoadOpens(lib, signedChar, w, draw, p);
  }

  lemma LoadFindsCounter(lib: Library, signedChar: bool, w: World, draw: Bytes, p: Progress)
    requires Inv(lib, signedChar, w, p) && w.saved.Some? && HeldKey(lib, w.keys).Some?
    ensures var w' := Loaded(lib, signedChar, w, draw);
            && (w'.last == w.last || w'.last == w.saved.value.nonce)
            && w' == w.(last := w'.last, drawn := w.drawn + {draw})
  {
    var f := w.saved.value;
    NonceFound(lib, w.keys, draw, w.keys.Version(), f.metadata, f.key, f.nonce, f.settings, signedChar);
    LoadKeepsKey(lib, signedChar, w, draw);
  }

  /** A process that holds the file's key finds the counter the file was sealed with. */
  lemma LoadSameKey(lib: Library, signedChar: bool, w: World, draw: Bytes, p: Progress)
    requires Lawful(lib) && Inv(lib, signedChar, w, p) && w.saved.Some?
    requires HeldKey(lib, w.keys) == Some(w.saved.value.key)
    ensures Loaded(lib, signedChar, w, draw) == w.(last := w.saved.value.nonce, drawn := w.drawn + {draw})
  {
    LoadOpens(lib, signedChar, w, draw, p);
    LoadKeepsKey(lib, signedChar, w, draw);
  }

  lemma LoadKeepsInv(lib: Library, signedChar: bool, w: World, draw: Bytes, p: Progress)
    requires Lawful(lib) && Inv(lib, signedChar, w, p)
    requires p.holding.Own? ==> RefusesFile(lib, signedChar, w, draw)
    ensures Inv(lib, signedChar, Loaded(lib, signedChar, w, draw), Advance(w.keys.Keychain?, p, Load(draw)))
  {
    var w', p' := Loaded(lib, signedChar, w, draw), Advance(w.keys.Keychain?, p, Load(draw));
    if w.saved.Some? {
      var f := w.saved.value;
      if HeldKey(lib, w.keys).None? {
        LoadTakesKey(lib, signedChar, w, draw, p);
      } else if p.holding.Own? {
        LoadKeepsKey(lib, signedChar, w, draw);
      } else if p.lag {
        LoadFindsCounter(lib, signedChar, w, draw, p);
      } else {
        assert w.keys.Portal? ==> p.holding.OfFile?;
        LoadSameKey(lib, signedChar, w, draw, p);
      }
      assert FileInv(lib, signedChar, w', f, p');
      assert KeyInv(lib, w', p');
    }
  }

  lemma RestartKeepsInv(lib: Library, signedChar: bool, w: World, p: Progress)
    requires Inv(lib, signedChar, w, p)
    ensures Inv(lib, signedChar, Step(lib, signedChar, w, Restart), Advance(w.keys.Keychain?, p, Restart))
  {
    var w', p' := Step(lib, signedChar, w, Restart), Advance(w.keys.Keychain?, p, Restart);
    assert KeyInv(lib, w', p');
    if w.saved.Some? {
      assert FileInv(lib, signedChar, w', w.saved.value, p');
    }
  }

  // ---- saving ----

  /** Under the key of a save, every counter used before is below the new one, and later draws give other keys. */
  lemma SaveContinues(lib: Library, signedChar: bool, w: World, draw: Bytes, p: Progress)
    requires Lawful(lib) && Inv(lib, signedChar, w, p) && draw !in w.drawn && |draw| == KEY_SIZE && !p.behind
    ensures var keys := KeysAfterSave(lib, w.keys, w.last, draw);
            && keys.Keychain? == w.keys.Keychain? && HeldKey(lib, keys).Some?
            && (keys.Portal? ==> |keys.seed.value| == KEY_SIZE)
            && NextNonce(w.last) < UINT64_MAX
            && var key := HeldKey(lib, keys).value;
               && |key| == KEY_SIZE && UsedUpTo(w.log, key, NextNonce(w.last) - 1)
               && Spent(lib, w.(keys := keys, drawn := w.drawn + {draw}), key)
  {
    if ResetsKey(w.last) || HeldKey(lib, w.keys).None? {
      NewKeys(lib, w, draw);
      FreshKey(lib, w, draw);
      assert UsedUpTo(w.log, DrawnKey(lib, w.keys, draw), -1);
    } else {
      KeptKeys(lib, w, draw);
    }
  }

  /** At the top of the counter, or with no key held, the key is made from the draw. */
  lemma NewKeys(lib: Library, w: World, draw: Bytes)
    requires lib.seedIn([]) == None && (ResetsKey(w.last) || HeldKey(lib, w.keys).None?)
    ensures var keys := KeysAfterSave(lib, w.keys, w.last, draw);
            && keys == (if w.keys.Keychain? then Keychain(Some(draw)) else Portal(Some(draw)))
            && HeldKey(lib, keys) == Some(DrawnKey(lib, w.keys, draw))
  {
  }

  lemma KeptKeys(lib: Library, w: World, draw: Bytes)
    requires !ResetsKey(w.last) && HeldKey(lib, w.keys).Some?
    ensures KeysAfterSave(lib, w.keys, w.last, draw) == w.keys
  {
  }

  /** A key made from a new draw has not been used, and no other draw gives it. */
  lemma FreshKey(lib: Library, w: World, draw: Bytes)
    requires SeedLaw(lib) && draw !in w.drawn && |draw| == KEY_SIZE
    ensures |DrawnKey(lib, w.keys, draw)| == KEY_SIZE
    ensures forall other: Bytes | |other| == KEY_SIZE && other != draw ::
              DrawnKey(lib, w.keys, other) != DrawnKey(lib, w.keys, draw)
  {
  }

  lemma UsedMore(log: seq<Stamp>, key: Bytes, n: nat, other: Bytes, top: int)
    requires n <= UINT64_MAX && UsedUpTo(log, other, top) && (key == other ==> n <= top)
    ensures UsedUpTo(log + [Stamp(key, NonceBytes(n))], other, top)
  {
    NonceInverts(n);
  }

  lemma StampIsNew(log: seq<Stamp>, key: Bytes, n: nat)
    requires NoReuse(log) && n <= UINT64_MAX && UsedUpTo(log, key, n - 1)
    ensures NoReuse(log + [Stamp(key, NonceBytes(n))])
  {
    NonceInverts(n);
    var stamp := Stamp(key, NonceBytes(n));
    assert forall i :: 0 <= i < |log| ==> log[i] in log;
    assert stamp !in log;
  }

  lemma SaveShape(lib: Library, signedChar: bool, w: World, m: SettingsMap, draw: Bytes, written: bool)
    requires var keys := KeysAfterSave(lib, w.keys, w.last, draw);
             && HeldKey(lib, keys).Some? && |HeldKey(lib, keys).value| == KEY_SIZE
             && Readable(lib, signedChar, keys) && (keys.Portal? ==> |keys.seed.value| == KEY_SIZE)
    ensures var keys, n := KeysAfterSave(lib, w.keys, w.last, draw), NextNonce(w.last);
            var key, file := HeldKey(lib, keys).value, FileFor(lib, keys, n, m);
            && file.Some?
            && SavedTo(lib, w, m, draw, written)
            == World(if written then file.value else w.disk, keys, n, w.log + [Stamp(key, NonceBytes(n))],
                     w.drawn + {draw}, if written then Some(Saved(key, Metadata(lib, keys), n, m)) else w.saved)
  {
  }

  /** What a save does when the process is not behind: it seals under a key that has not been used with this counter or
      a later one, the one held or else one from the new draw. */
  ghost predicate Sealing(lib: Library, w: World, w': World, m: SettingsMap, draw: Bytes, written: bool, key: Bytes)
  {
    && w'.keys.Keychain? == w.keys.Keychain? && HeldKey(lib, w'.keys) == Some(key) && |key| == KEY_SIZE
    && (w'.keys.Portal? ==> |w'.keys.seed.value| == KEY_SIZE)
    && w'.last == NextNonce(w.last) < UINT64_MAX
    && w'.log == w.log + [Stamp(key, NonceBytes(w'.last))] && w'.drawn == w.drawn + {draw}
    && UsedUpTo(w.log, key, w'.last - 1) && Spent(lib, w', key)
    && (HeldKey(lib, w.keys) == Some(key) || key == DrawnKey(lib, w.keys, draw))
    && (HeldKey(lib, w.keys).Some? && w.last < UINT64_MAX - 1 ==> w'.keys == w.keys)
    && if written then Some(w'.disk) == FileFor(lib, w'.keys, w'.last, m)
                       && w'.saved == Some(Saved(key, Metadata(lib, w'.keys), w'.last, m))
       else w'.disk == w.disk && w'.saved == w.saved
  }

  lemma SaveSeals(lib: Library, signedChar: bool, w: World, m: SettingsMap, draw: Bytes, written: bool, p: Progress)
    returns (key: Bytes)
    requires Lawful(lib) && Inv(lib, signedChar, w, p) && Readable(lib, signedChar, w.keys)
    requires draw !in w.drawn && |draw| == KEY_SIZE && !p.behind
    ensures Sealing(lib, w, SavedTo(lib, w, m, draw, written), m, draw, written, key)
  {
    SaveContinues(lib, signedChar, w, draw, p);
    SaveShape(lib, signedChar, w, m, draw, written);
    key := HeldKey(lib, KeysAfterSave(lib, w.keys, w.last, draw)).value;
  }

  lemma WrittenFileInv(lib: Library, signedChar: bool, w: World, w': World, m: SettingsMap, draw: Bytes, key: Bytes)
    requires SeedLaw(lib) && Readable(lib, signedChar, w.keys) && Sealing(lib, w, w', m, draw, true, key)
    ensures FileInv(lib, signedChar, w', w'.saved.value, Progress(OfFile, true, true, false, false))
  {
    UsedMore(w.log, key, w'.last, key, w'.last);
    if w.keys.Portal? {
      SeedNamed(lib, signedChar, w'.keys);
    }
    FileIsSealed(lib, w'.keys, w'.last, m);
  }

  lemma SeedNamed(lib: Library, signedChar: bool, keys: KeyStore)
    requires SeedLaw(lib) && Readable(lib, signedChar, keys)
    requires keys.Portal? && keys.seed.Some? && |keys.seed.value| == KEY_SIZE
    ensures lib.seedIn(Metadata(lib, keys)) == keys.seed && |Metadata(lib, keys)| < LengthLimit(signedChar)
  {
  }

  lemma FileIsSealed(lib: Library, keys: KeyStore, nonce: nat, m: SettingsMap)
    requires FileFor(lib, keys, nonce, m).Some?
    ensures HeldKey(lib, keys).Some? && FileFor(lib, keys, nonce, m).value != []
    ensures FileFor(lib, keys, nonce, m).value
         == Sealed(lib, keys.Version(), Metadata(lib, keys), HeldKey(lib, keys).value, nonce, m)
  {
  }

  /** A file keeps its place when a save of another key, or of its own key but lost, is made. */
  lemma KeptFileInv(lib: Library, signedChar: bool, w: World, w': World, m: SettingsMap, draw: Bytes, key: Bytes,
                    f: Saved, p: Progress)
    requires FileInv(lib, signedChar, w, f, p) && Sealing(lib, w, w', m, draw, false, key)
    requires draw !in w.drawn && |draw| == KEY_SIZE && KeyInv(lib, w, p)
    ensures FileInv(lib, signedChar, w', f, Advance(w.keys.Keychain?, p, Save(m, draw, false)))
  {
    if w.keys.Portal? && !p.holding.OfFile? {
      OtherKey(lib, signedChar, w, w', m, draw, key, f, p);
      if !p.lag {
        UsedMore(w.log, key, w'.last, f.key, f.nonce);
      }
    }
  }

  /** A process that does not hold the file's key seals with another one. */
  lemma OtherKey(lib: Library, signedChar: bool, w: World, w': World, m: SettingsMap, draw: Bytes, key: Bytes,
                 f: Saved, p: Progress)
    requires FileInv(lib, signedChar, w, f, p) && Sealing(lib, w, w', m, draw, false, key)
    requires draw !in w.drawn && |draw| == KEY_SIZE && w.keys.Portal? && !p.holding.OfFile? && KeyInv(lib, w, p)
    ensures key != f.key
  {
    assert DrawnKey(lib, w.keys, draw) != f.key;
  }

  lemma UndrawnStayUnused(lib: Library, w: World, w': World, m: SettingsMap, draw: Bytes, written: bool, key: Bytes)
    requires forall other: Bytes | |other| == KEY_SIZE && other !in w.drawn ::
               UsedUpTo(w.log, DrawnKey(lib, w.keys, other), -1)
    requires Sealing(lib, w, w', m, draw, written, key)
    ensures forall other: Bytes | |other| == KEY_SIZE && other !in w'.drawn ::
              UsedUpTo(w'.log, DrawnKey(lib, w'.keys, other), -1)
  {
    forall other: Bytes | |other| == KEY_SIZE && other !in w'.drawn
      ensures UsedUpTo(w'.log, DrawnKey(lib, w'.keys, other), -1)
    {
      UsedMore(w.log, key, w'.last, DrawnKey(lib, w'.keys, other), -1);
    }
  }

  lemma SealedKeyInv(lib: Library, w: World, w': World, m: SettingsMap, draw: Bytes, written: bool, key: Bytes,
                     p: Progress)
    requires Sealing(lib, w, w', m, draw, written, key) && KeyInv(lib, w, p)
    ensures KeyInv(lib, w', Advance(w.keys.Keychain?, p, Save(m, draw, written)))
  {
    UsedMore(w.log, key, w'.last, key, w'.last);
  }

  lemma SaveKeepsInv(lib: Library, signedChar: bool, w: World, m: SettingsMap, draw: Bytes, written: bool, p: Progress)
    requires Lawful(lib) && Inv(lib, signedChar, w, p) && Readable(lib, signedChar, w.keys)
    requires draw !in w.drawn && |draw| == KEY_SIZE && !p.behind
    ensures Inv(lib, signedChar, SavedTo(lib, w, m, draw, written),
                Advance(w.keys.Keychain?, p, Save(m, draw, written)))
    ensures SavedTo(lib, w, m, draw, written).keys.Keychain? == w.keys.Keychain?
  {
    var key := SaveSeals(lib, signedChar, w, m, draw, written, p);
    SealingKeepsInv(lib, signedChar, w, SavedTo(lib, w, m, draw, written), m, draw, written, key, p);
  }

  lemma SealingKeepsInv(lib: Library, signedChar: bool, w: World, w': World, m: SettingsMap, draw: Bytes,
                        written: bool, key: Bytes, p: Progress)
    requires Lawful(lib) && Inv(lib, signedChar, w, p) && Readable(lib, signedChar, w.keys)
    requires draw !in w.drawn && |draw| == KEY_SIZE && Sealing(lib, w, w', m, draw, written, key)
    ensures Inv(lib, signedChar, w', Advance(w.keys.Keychain?, p, Save(m, draw, written)))
  {
    StampIsNew(w.log, key, w'.last);
    UndrawnStayUnused(lib, w, w', m, draw, written, key);
    SealedKeyInv(lib, w, w', m, draw, written, key, p);
    if written {
      WrittenFileInv(lib, signedChar, w, w', m, draw, key);
    } else if w.saved.Some? {
      KeptFileInv(lib, signedChar, w, w', m, draw, key, w.saved.value, p);
    }
  }

  // ---- whole runs ----

  lemma StepKeepsInv(lib: Library, signedChar: bool, w: World, e: Event, p: Progress)
    requires Lawful(lib) && Inv(lib, signedChar, w, p) && Readable(lib, signedChar, w.keys) && FreshDraw(w, e)
    requires e.Save? ==> !p.behind
    requires e.Load? && p.holding.Own? ==> RefusesFile(lib, signedChar, w, e.draw)
    ensures var w' := Step(lib, signedChar, w, e);
            Inv(lib, signedChar, w', Advance(w.keys.Keychain?, p, e)) && w'.keys.Keychain? == w.keys.Keychain?
  {
    match e
    case Load(draw) => LoadKeepsInv(lib, signedChar, w, draw, p);
    case Save(m, draw, written) => SaveKeepsInv(lib, signedChar, w, m, draw, written, p);
    case Restart => RestartKeepsInv(lib, signedChar, w, p);
  }

  lemma NewWorldInv(lib: Library, signedChar: bool, w: World)
    requires w == NewWorld(w.keys)
    ensures Inv(lib, signedChar, w, NO_PROGRESS)
  {
  }

  lemma RunInvStep(lib: Library, signedChar: bool, ws: seq<World>, es: seq<Event>, n: nat)
    requires Lawful(lib) && IsRun(lib, signedChar, ws, es) && n < |es| && Readable(lib, signedChar, ws[n].keys)
    requires InStep(ws[0].keys.Keychain?, es, n + 1) && Authentic(lib, signedChar, ws, es, n + 1)
    requires ws[n].keys.Keychain? == ws[0].keys.Keychain?
    requires Inv(lib, signedChar, ws[n], Track(ws[0].keys.Keychain?, es, n))
    ensures Inv(lib, signedChar, ws[n + 1], Track(ws[0].keys.Keychain?, es, n + 1))
    ensures ws[n + 1].keys.Keychain? == ws[0].keys.Keychain?
  {
    assert StepAt(lib, signedChar, ws, es, n);
    assert InStepAt(ws[0].keys.Keychain?, es, n) && AuthenticAt(lib, signedChar, ws, es, n);
    StepKeepsInv(lib, signedChar, ws[n], es[n], Track(ws[0].keys.Keychain?, es, n));
  }

  lemma {:induction false} RunInv(lib: Library, signedChar: bool, ws: seq<World>, es: seq<Event>, n: nat)
    requires Lawful(lib) && IsRun(lib, signedChar, ws, es) && n <= |es| && Readable(lib, signedChar, ws[0].keys)
    requires InStep(ws[0].keys.Keychain?, es, n) && Authentic(lib, signedChar, ws, es, n)
    ensures Inv(lib, signedChar, ws[n], Track(ws[0].keys.Keychain?, es, n))
    ensures ws[n].keys.Keychain? == ws[0].keys.Keychain?
    decreases n
  {
    if n == 0 {
      NewWorldInv(lib, signedChar, ws[0]);
    } else {
      RunInv(lib, signedChar, ws, es, n - 1);
      RunInvStep(lib, signedChar, ws, es, n - 1);
    }
  }

  /** No key and nonce are ever used together twice as long as no process saves while it is behind, the restart of the
      counter under a new key included. */
  lemma NoncesNeverReused(lib: Library, signedChar: bool, ws: seq<World>, es: seq<Event>, n: nat)
    requires Lawful(lib) && IsRun(lib, signedChar, ws, es) && n <= |es| && Readable(lib, signedChar, ws[0].keys)
    requires InStep(ws[0].keys.Keychain?, es, n) && Authentic(lib, signedChar, ws, es, n)
    ensures NoReuse(ws[n].log)
  {
    RunInv(lib, signedChar, ws, es, n);
  }

  // ---- the other direction ----

  /** The key has been used with this counter. */
  ghost predicate Used(log: seq<Stamp>, key: Bytes, n: nat) { Stamp(key, NonceBytes(n)) in log }

  /** While the counter has not come round: where a process behind would go on, and where the file's counter would,
      the key has been used already; a process that is not behind is where its file is. */
  ghost predicate ExactInv(lib: Library, w: World, p: Progress, i: nat)
  {
    && w.last <= i
    && (w.keys.Keychain? && p.used ==> w.keys.key.Some? && Used(w.log, w.keys.key.value, 1))
    && (p.behind ==> HeldKey(lib, w.keys).Some? && Used(w.log, HeldKey(lib, w.keys).value, w.last + 1))
    && (w.saved.Some? ==>
          var f := w.saved.value;
          && f.nonce <= i
          && (w.keys.Keychain? || p.holding.OfFile? ==> HeldKey(lib, w.keys) == Some(f.key))
          && (p.lag ==> Used(w.log, f.key, f.nonce + 1))
          && (!p.lag && !p.behind && (w.keys.Keychain? || p.holding.OfFile?) ==> w.last == f.nonce))
  }

  /** Loading gave the process the file's key and counter. */
  predicate TookFile(lib: Library, w: World, w': World)
  {
    && w.saved.Some? && w'.last == w.saved.value.nonce && HeldKey(lib, w'.keys) == Some(w.saved.value.key)
    && w'.log == w.log && w'.saved == w.saved && w'.keys.Keychain? == w.keys.Keychain?
    && (w.keys.Keychain? ==> w'.keys == w.keys)
  }

  lemma LoadShape(lib: Library, signedChar: bool, w: World, draw: Bytes, p: Progress)
    requires Lawful(lib) && Inv(lib, signedChar, w, p) && (p.holding.Own? ==> RefusesFile(lib, signedChar, w, draw))
    requires w.saved.Some? && (w.keys.Keychain? || p.holding.OfFile?) ==>
               HeldKey(lib, w.keys) == Some(w.saved.value.key)
    ensures var w' := Loaded(lib, signedChar, w, draw);
            if !p.file then w' == w
            else if p.holding.Own? then w' == w.(drawn := w.drawn + {draw})
            else TookFile(lib, w, w')
    ensures p.file ==> p.used
  {
    if w.saved.Some? {
      if HeldKey(lib, w.keys).None? {
        LoadTakesKey(lib, signedChar, w, draw, p);
      } else if p.holding.Own? {
        LoadKeepsKey(lib, signedChar, w, draw);
      } else {
        LoadSameKey(lib, signedChar, w, draw, p);
      }
    }
  }

  lemma LoadKeepsExact(lib: Library, signedChar: bool, w: World, draw: Bytes, p: Progress, i: nat)
    requires Lawful(lib) && Inv(lib, signedChar, w, p) && ExactInv(lib, w, p, i)
    requires p.holding.Own? ==> RefusesFile(lib, signedChar, w, draw)
    ensures ExactInv(lib, Loaded(lib, signedChar, w, draw), Advance(w.keys.Keychain?, p, Load(draw)), i + 1)
  {
    LoadShape(lib, signedChar, w, draw, p);
    LoadedExact(lib, w, Loaded(lib, signedChar, w, draw), draw, p, i);
  }

  lemma LoadedExact(lib: Library, w: World, w': World, draw: Bytes, p: Progress, i: nat)
    requires ExactInv(lib, w, p, i) && (p.file ==> p.used)
    requires if !p.file then w' == w
             else if p.holding.Own? then w' == w.(drawn := w.drawn + {draw})
             else TookFile(lib, w, w')
    ensures ExactInv(lib, w', Advance(w.keys.Keychain?, p, Load(draw)), i + 1)
  {
  }

  lemma RestartKeepsExact(lib: Library, signedChar: bool, w: World, p: Progress, i: nat)
    requires Inv(lib, signedChar, w, p) && ExactInv(lib, w, p, i)
    ensures ExactInv(lib, Step(lib, signedChar, w, Restart), Advance(w.keys.Keychain?, p, Restart), i + 1)
  {
  }

  lemma SaveKeepsExact(lib: Library, signedChar: bool, w: World, m: SettingsMap, draw: Bytes, written: bool,
                       p: Progress, i: nat)
    requires Lawful(lib) && Inv(lib, signedChar, w, p) && ExactInv(lib, w, p, i) && i < UINT64_MAX - 1
    requires Readable(lib, signedChar, w.keys) && draw !in w.drawn && |draw| == KEY_SIZE && !p.behind
    ensures ExactInv(lib, SavedTo(lib, w, m, draw, written), Advance(w.keys.Keychain?, p, Save(m, draw, written)),
                     i + 1)
  {
    var key := SaveSeals(lib, signedChar, w, m, draw, written, p);
    SealingExact(lib, w, SavedTo(lib, w, m, draw, written), m, draw, written, key, p, i);
  }

  lemma UsedNow(log: seq<Stamp>, key: Bytes, n: nat)
    ensures Used(log + [Stamp(key, NonceBytes(n))], key, n)
    ensures forall s <- log :: s in log + [Stamp(key, NonceBytes(n))]
  {
  }

  lemma SealingExact(lib: Library, w: World, w': World, m: SettingsMap, draw: Bytes, written: bool, key: Bytes,
                     p: Progress, i: nat)
    requires KeyInv(lib, w, p) && ExactInv(lib, w, p, i) && i < UINT64_MAX - 1 && !p.behind
    requires Sealing(lib, w, w', m, draw, written, key)
    ensures ExactInv(lib, w', Advance(w.keys.Keychain?, p, Save(m, draw, written)), i + 1)
  {
    UsedNow(w.log, key, w.last + 1);
    assert w.keys.Keychain? ==> Used(w'.log, key, 1);
  }

  lemma StepKeepsExact(lib: Library, signedChar: bool, w: World, e: Event, p: Progress, i: nat)
    requires Lawful(lib) && Inv(lib, signedChar, w, p) && ExactInv(lib, w, p, i) && i < UINT64_MAX - 1
    requires Readable(lib, signedChar, w.keys) && FreshDraw(w, e) && (e.Save? ==> !p.behind)
    requires e.Load? && p.holding.Own? ==> RefusesFile(lib, signedChar, w, e.draw)
    ensures ExactInv(lib, Step(lib, signedChar, w, e), Advance(w.keys.Keychain?, p, e), i + 1)
  {
    match e
    case Load(draw) => LoadKeepsExact(lib, signedChar, w, draw, p, i);
    case Save(m, draw, written) => SaveKeepsExact(lib, signedChar, w, m, draw, written, p, i);
    case Restart => RestartKeepsExact(lib, signedChar, w, p, i);
  }

  lemma {:induction false} RunExact(lib: Library, signedChar: bool, ws: seq<World>, es: seq<Event>, n: nat)
    requires Lawful(lib) && IsRun(lib, signedChar, ws, es) && n <= |es| && Readable(lib, signedChar, ws[0].keys)
    requires InStep(ws[0].keys.Keychain?, es, n) && Authentic(lib, signedChar, ws, es, n) && n < UINT64_MAX
    ensures ExactInv(lib, ws[n], Track(ws[0].keys.Keychain?, es, n), n)
    decreases n
  {
    if n > 0 {
      RunExact(lib, signedChar, ws, es, n - 1);
      RunExactStep(lib, signedChar, ws, es, n - 1);
    }
  }

  lemma RunExactStep(lib: Library, signedChar: bool, ws: seq<World>, es: seq<Event>, n: nat)
    requires Lawful(lib) && IsRun(lib, signedChar, ws, es) && n < |es| && Readable(lib, signedChar, ws[0].keys)
    requires InStep(ws[0].keys.Keychain?, es, n + 1) && Authentic(lib, signedChar, ws, es, n + 1) && n < UINT64_MAX - 1
    requires ExactInv(lib, ws[n], Track(ws[0].keys.Keychain?, es, n), n)
    ensures ExactInv(lib, ws[n + 1], Track(ws[0].keys.Keychain?, es, n + 1), n + 1)
  {
    RunInv(lib, signedChar, ws, es, n);
    assert StepAt(lib, signedChar, ws, es, n);
    assert InStepAt(ws[0].keys.Keychain?, es, n) && AuthenticAt(lib, signedChar, ws, es, n);
    StepKeepsExact(lib, signedChar, ws[n], es[n], Track(ws[0].keys.Keychain?, es, n), n);
  }

  /** Before the counter comes round, a save goes on with the key held. */
  lemma SaveGoesOn(lib: Library, signedChar: bool, w: World, m: SettingsMap, draw: Bytes, written: bool, p: Progress)
    requires KeyInv(lib, w, p) && Readable(lib, signedChar, w.keys)
    requires HeldKey(lib, w.keys).Some? && w.last < UINT64_MAX - 1
    ensures SavedTo(lib, w, m, draw, written).log
         == w.log + [Stamp(HeldKey(lib, w.keys).value, NonceBytes(w.last + 1))]
  {
    assert KeysAfterSave(lib, w.keys, w.last, draw) == w.keys && NextNonce(w.last) == w.last + 1;
    SaveShape(lib, signedChar, w, m, draw, written);
  }

  /** A process that is behind uses a key and nonce again. */
  lemma BehindReuses(lib: Library, signedChar: bool, w: World, m: SettingsMap, draw: Bytes, written: bool,
                     p: Progress, i: nat)
    requires Inv(lib, signedChar, w, p) && ExactInv(lib, w, p, i) && i < UINT64_MAX - 1 && p.behind
    requires Readable(lib, signedChar, w.keys)
    ensures !NoReuse(SavedTo(lib, w, m, draw, written).log)
  {
    SaveGoesOn(lib, signedChar, w, m, draw, written, p);
    var w' := SavedTo(lib, w, m, draw, written);
    var j :| 0 <= j < |w.log| && w.log[j] == Stamp(HeldKey(lib, w.keys).value, NonceBytes(w.last + 1));
    assert w'.log[j] == w'.log[|w.log|];
  }

  lemma LogGrows(lib: Library, signedChar: bool, w: World, e: Event)
    ensures w.log <= Step(lib, signedChar, w, e).log
  {
  }

  lemma PrefixNoReuse(a: seq<Stamp>, b: seq<Stamp>)
    requires a <= b && NoReuse(b)
    ensures NoReuse(a)
  {
    assert forall i :: 0 <= i < |a| ==> a[i] == b[i];
  }

  lemma ReuseStays(lib: Library, signedChar: bool, ws: seq<World>, es: seq<Event>, n: nat)
    requires IsRun(lib, signedChar, ws, es) && n < |es| && !NoReuse(ws[n].log)
    ensures !NoReuse(ws[n + 1].log)
  {
    assert StepAt(lib, signedChar, ws, es, n);
    LogGrows(lib, signedChar, ws[n], es[n]);
    if NoReuse(ws[n + 1].log) {
      PrefixNoReuse(ws[n].log, ws[n + 1].log);
    }
  }

  lemma ReuseStep(lib: Library, signedChar: bool, ws: seq<World>, es: seq<Event>, n: nat)
    requires Lawful(lib) && IsRun(lib, signedChar, ws, es) && n < |es| && Readable(lib, signedChar, ws[0].keys)
    requires Authentic(lib, signedChar, ws, es, n + 1) && n < UINT64_MAX - 1
    requires InStep(ws[0].keys.Keychain?, es, n)
    ensures NoReuse(ws[n + 1].log) <==> InStep(ws[0].keys.Keychain?, es, n + 1)
  {
    if InStepAt(ws[0].keys.Keychain?, es, n) {
      NoncesNeverReused(lib, signedChar, ws, es, n + 1);
    } else {
      OutOfStep(lib, signedChar, ws, es, n);
    }
  }

  lemma OutOfStep(lib: Library, signedChar: bool, ws: seq<World>, es: seq<Event>, n: nat)
    requires Lawful(lib) && IsRun(lib, signedChar, ws, es) && n < |es| && Readable(lib, signedChar, ws[0].keys)
    requires Authentic(lib, signedChar, ws, es, n) && n < UINT64_MAX - 1
    requires InStep(ws[0].keys.Keychain?, es, n) && !InStepAt(ws[0].keys.Keychain?, es, n)
    ensures !NoReuse(ws[n + 1].log)
  {
    RunInv(lib, signedChar, ws, es, n);
    RunExact(lib, signedChar, ws, es, n);
    assert StepAt(lib, signedChar, ws, es, n);
    BehindReuses(lib, signedChar, ws[n], es[n].settings, es[n].draw, es[n].written,
                 Track(ws[0].keys.Keychain?, es, n), n);
  }

  /** In any history in which the counter does not come round, no key and nonce are used together twice if and only if
      no process saves while it is behind. */
  lemma {:induction false} NoncesReusedExactly(lib: Library, signedChar: bool, ws: seq<World>, es: seq<Event>, n: nat)
    requires Lawful(lib) && IsRun(lib, signedChar, ws, es) && n <= |es| && Readable(lib, signedChar, ws[0].keys)
    requires Authentic(lib, signedChar, ws, es, n) && n < UINT64_MAX
    ensures NoReuse(ws[n].log) <==> InStep(ws[0].keys.Keychain?, es, n)
    decreases n
  {
    if n > 0 {
      NoncesReusedExactly(lib, signedChar, ws, es, n - 1);
      if InStep(ws[0].keys.Keychain?, es, n - 1) {
        ReuseStep(lib, signedChar, ws, es, n - 1);
      } else {
        ReuseStays(lib, signedChar, ws, es, n - 1);
      }
    }
  }

  // ---- loading first ----

  /** The running process has loaded the file. */
  predicate HasLoaded(es: seq<Event>, n: nat)
    requires n <= |es|
  {
    n > 0 && (es[n - 1].Load? || (es[n - 1].Save? && HasLoaded(es, n - 1)))
  }

  /** Saves reach the disk; with a keychain, each process loads the file before it first saves. */
  predicate Disciplined(keychain: bool, es: seq<Event>, n: nat)
    requires n <= |es|
  {
    forall i :: 0 <= i < n && es[i].Save? ==> es[i].written && (keychain ==> HasLoaded(es, i))
  }

  /** A disciplined history is in step, and no process ever holds a key of its own. */
  lemma {:induction false} DisciplineKeepsStep(keychain: bool, es: seq<Event>, n: nat)
    requires n <= |es| && Disciplined(keychain, es, n)
    ensures var p := Track(keychain, es, n);
            && !p.lag && !p.holding.Own? && (p.used ==> p.file)
            && (p.behind ==> keychain && !HasLoaded(es, n))
    ensures InStep(keychain, es, n)
    ensures forall i :: 0 <= i < n ==> !Track(keychain, es, i).holding.Own?
    decreases n
  {
    if n > 0 {
      DisciplineKeepsStep(keychain, es, n - 1);
    }
  }

  /** So if every save reaches the disk, nothing is used twice: with a keychain if every process loads the file before
      it saves, with derived keys in any case. */
  lemma DisciplinedNeverReuses(lib: Library, signedChar: bool, ws: seq<World>, es: seq<Event>, n: nat)
    requires Lawful(lib) && IsRun(lib, signedChar, ws, es) && n <= |es| && Readable(lib, signedChar, ws[0].keys)
    requires Disciplined(ws[0].keys.Keychain?, es, n)
    ensures NoReuse(ws[n].log)
  {
    DisciplineKeepsStep(ws[0].keys.Keychain?, es, n);
    NoncesNeverReused(lib, signedChar, ws, es, n);
  }

  // ---- what loading gives back ----

  /** The last save of the first `n` events that reached the disk. */
  function LastWritten(es: seq<Event>, n: nat): Option<SettingsMap>
    requires n <= |es|
  {
    if n == 0 then None
    else if es[n - 1].Save? && es[n - 1].written then Some(es[n - 1].settings)
    else LastWritten(es, n - 1)
  }

  /** Settings the file on disk holds. */
  function OnDisk(w: World): Option<SettingsMap> { if w.saved.None? then None else Some(w.saved.value.settings) }

  lemma StepSaves(lib: Library, signedChar: bool, w: World, e: Event, p: Progress)
    requires Lawful(lib) && Inv(lib, signedChar, w, p) && Readable(lib, signedChar, w.keys) && FreshDraw(w, e)
    requires e.Save? ==> !p.behind
    ensures OnDisk(Step(lib, signedChar, w, e)) == if e.Save? && e.written then Some(e.settings) else OnDisk(w)
  {
    if e.Save? {
      var _ := SaveSeals(lib, signedChar, w, e.settings, e.draw, e.written, p);
    }
  }

  lemma {:induction false} OnDiskIsLastWritten(lib: Library, signedChar: bool, ws: seq<World>, es: seq<Event>, n: nat)
    requires Lawful(lib) && IsRun(lib, signedChar, ws, es) && n <= |es| && Readable(lib, signedChar, ws[0].keys)
    requires InStep(ws[0].keys.Keychain?, es, n) && Authentic(lib, signedChar, ws, es, n)
    ensures OnDisk(ws[n]) == LastWritten(es, n)
    decreases n
  {
    if n > 0 {
      OnDiskIsLastWritten(lib, signedChar, ws, es, n - 1);
      OnDiskStep(lib, signedChar, ws, es, n - 1);
    }
  }

  lemma OnDiskStep(lib: Library, signedChar: bool, ws: seq<World>, es: seq<Event>, n: nat)
    requires Lawful(lib) && IsRun(lib, signedChar, ws, es) && n < |es| && Readable(lib, signedChar, ws[0].keys)
    requires InStep(ws[0].keys.Keychain?, es, n + 1) && Authentic(lib, signedChar, ws, es, n + 1)
    ensures OnDisk(ws[n + 1]) == if es[n].Save? && es[n].written then Some(es[n].settings) else OnDisk(ws[n])
  {
    RunInv(lib, signedChar, ws, es, n);
    assert StepAt(lib, signedChar, ws, es, n) && InStepAt(ws[0].keys.Keychain?, es, n);
    StepSaves(lib, signedChar, ws[n], es[n], Track(ws[0].keys.Keychain?, es, n));
  }

  lemma FileOpens(lib: Library, signedChar: bool, w: World, draw: Bytes, p: Progress)
    requires Lawful(lib) && Inv(lib, signedChar, w, p) && w.saved.Some? && !p.lag && !p.holding.Own?
    ensures OpenEncrypted(lib, w.keys, draw, w.disk, signedChar)
         == Some(Opened(w.saved.value.settings, w.saved.value.nonce))
  {
    LoadOpens(lib, signedChar, w, draw, p);
  }

  /** Whenever the file is loaded, by whichever process, the settings last written come back, unless saves under its
      key were lost or the process holds a key of its own. */
  lemma LoadGivesLastSave(lib: Library, signedChar: bool, ws: seq<World>, es: seq<Event>, n: nat, draw: Bytes)
    requires Lawful(lib) && IsRun(lib, signedChar, ws, es) && n <= |es| && Readable(lib, signedChar, ws[0].keys)
    requires InStep(ws[0].keys.Keychain?, es, n) && Authentic(lib, signedChar, ws, es, n)
    ensures ws[n].disk == [] <==> LastWritten(es, n).None?
    ensures var p := Track(ws[0].keys.Keychain?, es, n);
            ws[n].disk != [] && !p.lag && !p.holding.Own? ==>
              var found := OpenEncrypted(lib, ws[n].keys, draw, ws[n].disk, signedChar);
              found.Some? && LastWritten(es, n) == Some(found.value.settings)
  {
    var p := Track(ws[0].keys.Keychain?, es, n);
    RunInv(lib, signedChar, ws, es, n);
    OnDiskIsLastWritten(lib, signedChar, ws, es, n);
    if ws[n].saved.Some? && !p.lag && !p.holding.Own? {
      FileOpens(lib, signedChar, ws[n], draw, p);
    }
  }

  // ---- when a nonce is used twice ----

  /** With a keychain, a process that saves without loading first reuses the very first key and nonce. */
  lemma SavingUnloadedReuses(lib: Library, signedChar: bool, ws: seq<World>, m: SettingsMap, a: Bytes, b: Bytes)
    requires IsRun(lib, signedChar, ws, [Save(m, a, true), Restart, Save(m, b, true)]) && ws[0].keys.Keychain?
    ensures ws[3].log == [Stamp(a, NonceBytes(1)), Stamp(a, NonceBytes(1))] && !NoReuse(ws[3].log)
  {
    var es := [Save(m, a, true), Restart, Save(m, b, true)];
    assert StepAt(lib, signedChar, ws, es, 0);
    assert ws[1].keys == Keychain(Some(a)) && ws[1].log == [Stamp(a, NonceBytes(1))];
    assert StepAt(lib, signedChar, ws, es, 1) && StepAt(lib, signedChar, ws, es, 2);
    assert ws[3].log[0] == ws[3].log[1];
  }

  /** A process saves twice, the second time in vain; the next one loads the file and saves. */
  predicate LostWrite(es: seq<Event>)
  {
    && |es| == 5
    && es[0].Save? && es[0].written && es[1].Save? && !es[1].written
    && es[2].Restart? && es[3].Load? && es[4].Save?
  }

  /** With either store, a save that does not reach the disk is repeated with the same key and nonce by the next process
      that loads the file and saves. */
  lemma LostWriteReuses(lib: Library, signedChar: bool, ws: seq<World>, es: seq<Event>)
    requires Lawful(lib) && IsRun(lib, signedChar, ws, es) && LostWrite(es) && Readable(lib, signedChar, ws[0].keys)
    ensures var key := DrawnKey(lib, ws[0].keys, es[0].draw);
            ws[5].log == [Stamp(key, NonceBytes(1)), Stamp(key, NonceBytes(2)), Stamp(key, NonceBytes(2))]
    ensures !NoReuse(ws[5].log)
  {
    TwoSaves(lib, signedChar, ws, es);
    ThirdSave(lib, signedChar, ws, es);
    RepeatedStamp(ws[5].log);
  }

  lemma ThirdSave(lib: Library, signedChar: bool, ws: seq<World>, es: seq<Event>)
    requires Lawful(lib) && IsRun(lib, signedChar, ws, es) && LostWrite(es) && Readable(lib, signedChar, ws[0].keys)
    requires ws[2].saved.Some?
    ensures ws[5].log == ws[2].log + [Stamp(ws[2].saved.value.key, NonceBytes(ws[2].saved.value.nonce + 1))]
  {
    LostWriteInStep(lib, signedChar, ws, es);
    NextProcessSaves(lib, signedChar, ws, es, 2);
  }

  lemma RepeatedStamp(log: seq<Stamp>)
    requires |log| == 3 && log[1] == log[2]
    ensures !NoReuse(log)
  {
  }

  lemma LostWriteTrack(keychain: bool, es: seq<Event>)
    requires LostWrite(es)
    ensures Track(keychain, es, 1) == Progress(OfFile, true, true, false, false)
    ensures Track(keychain, es, 2) == Progress(OfFile, true, true, true, false)
    ensures Track(keychain, es, 3).file && !Track(keychain, es, 3).holding.Own?
  {
    assert Track(keychain, es, 1) == Progress(OfFile, true, true, false, false);
    assert Track(keychain, es, 2) == Progress(OfFile, true, true, true, false);
  }

  /** Up to its last save the history is in step. */
  lemma LostWriteInStep(lib: Library, signedChar: bool, ws: seq<World>, es: seq<Event>)
    requires IsRun(lib, signedChar, ws, es) && LostWrite(es)
    ensures InStep(ws[0].keys.Keychain?, es, 4) && Authentic(lib, signedChar, ws, es, 4)
    ensures !Track(ws[0].keys.Keychain?, es, 3).holding.Own?
  {
    var keychain := ws[0].keys.Keychain?;
    LostWriteTrack(keychain, es);
    forall i | 0 <= i < 4 ensures InStepAt(keychain, es, i) && AuthenticAt(lib, signedChar, ws, es, i) {
      assert i == 0 || i == 1 || i == 2 || i == 3;
    }
  }

  /** Two saves by the first process, the second one lost. */
  lemma TwoSaves(lib: Library, signedChar: bool, ws: seq<World>, es: seq<Event>)
    requires Lawful(lib) && IsRun(lib, signedChar, ws, es) && LostWrite(es) && Readable(lib, signedChar, ws[0].keys)
    ensures var key := DrawnKey(lib, ws[0].keys, es[0].draw);
            && ws[2].log == [Stamp(key, NonceBytes(1)), Stamp(key, NonceBytes(2))]
            && ws[2].saved.Some? && ws[2].saved.value.key == key && ws[2].saved.value.nonce == 1
  {
    FirstOfRun(lib, signedChar, ws, es);
    LostWriteInStep(lib, signedChar, ws, es);
    KeyOfRun(lib, signedChar, ws, es, 1);
    assert StepAt(lib, signedChar, ws, es, 1);
    SecondSave(lib, signedChar, ws[1], es[1].settings, es[1].draw, Track(ws[0].keys.Keychain?, es, 1));
  }

  lemma FirstOfRun(lib: Library, signedChar: bool, ws: seq<World>, es: seq<Event>)
    requires Lawful(lib) && IsRun(lib, signedChar, ws, es) && LostWrite(es) && Readable(lib, signedChar, ws[0].keys)
    ensures var w, key := ws[1], DrawnKey(lib, ws[0].keys, es[0].draw);
            && w.log == [Stamp(key, NonceBytes(1))] && w.last == 1 && HeldKey(lib, w.keys) == Some(key)
            && w.saved.Some? && w.saved.value.key == key && w.saved.value.nonce == 1
  {
    RunInv(lib, signedChar, ws, es, 0);
    assert StepAt(lib, signedChar, ws, es, 0);
    FirstSave(lib, signedChar, ws[0], es[0].settings, es[0].draw, Track(ws[0].keys.Keychain?, es, 0));
  }

  lemma FirstSave(lib: Library, signedChar: bool, w: World, m: SettingsMap, draw: Bytes, p: Progress)
    requires Lawful(lib) && Inv(lib, signedChar, w, p) && Readable(lib, signedChar, w.keys)
    requires draw !in w.drawn && |draw| == KEY_SIZE && !p.behind && w.log == [] && HeldKey(lib, w.keys).None?
    ensures var w', key := SavedTo(lib, w, m, draw, true), DrawnKey(lib, w.keys, draw);
            && w'.log == [Stamp(key, NonceBytes(1))] && w'.last == 1 && HeldKey(lib, w'.keys) == Some(key)
            && w'.saved.Some? && w'.saved.value.key == key && w'.saved.value.nonce == 1
  {
    var _ := SaveSeals(lib, signedChar, w, m, draw, true, p);
  }

  lemma SecondSave(lib: Library, signedChar: bool, w: World, m: SettingsMap, draw: Bytes, p: Progress)
    requires KeyInv(lib, w, p) && Readable(lib, signedChar, w.keys) && HeldKey(lib, w.keys).Some? && w.last == 1
    ensures var w' := SavedTo(lib, w, m, draw, false);
            w'.log == w.log + [Stamp(HeldKey(lib, w.keys).value, NonceBytes(2))] && w'.saved == w.saved
  {
    SaveGoesOn(lib, signedChar, w, m, draw, false, p);
  }

  /** A process that starts, loads and saves goes on from the counter of the file. */
  lemma NextProcessSaves(lib: Library, signedChar: bool, ws: seq<World>, es: seq<Event>, n: nat)
    requires Lawful(lib) && IsRun(lib, signedChar, ws, es) && Readable(lib, signedChar, ws[0].keys)
    requires n + 2 < |es| < UINT64_MAX - 1 && es[n].Restart? && es[n + 1].Load? && es[n + 2].Save?
    requires InStep(ws[0].keys.Keychain?, es, n + 2) && Authentic(lib, signedChar, ws, es, n + 2)
    requires !Track(ws[0].keys.Keychain?, es, n + 1).holding.Own? && ws[n].saved.Some?
    ensures ws[n + 3].log
         == ws[n].log + [Stamp(ws[n].saved.value.key, NonceBytes(ws[n].saved.value.nonce + 1))]
  {
    RestartOfRun(lib, signedChar, ws, es, n);
    LoadOfRun(lib, signedChar, ws, es, n + 1);
    SaveOfRun(lib, signedChar, ws, es, n + 2);
  }

  lemma RestartOfRun(lib: Library, signedChar: bool, ws: seq<World>, es: seq<Event>, n: nat)
    requires IsRun(lib, signedChar, ws, es) && n < |es| && es[n].Restart?
    ensures ws[n + 1].log == ws[n].log && ws[n + 1].saved == ws[n].saved
  {
    assert StepAt(lib, signedChar, ws, es, n);
  }

  /** While the counter has not come round, a process that shares the file's key holds it. */
  lemma HoldsFileKey(lib: Library, signedChar: bool, ws: seq<World>, es: seq<Event>, n: nat)
    requires Lawful(lib) && IsRun(lib, signedChar, ws, es) && n <= |es| && Readable(lib, signedChar, ws[0].keys)
    requires InStep(ws[0].keys.Keychain?, es, n) && Authentic(lib, signedChar, ws, es, n) && n < UINT64_MAX
    requires ws[n].saved.Some?
    ensures ws[n].saved.value.nonce <= n
    ensures ws[n].keys.Keychain? || Track(ws[0].keys.Keychain?, es, n).holding.OfFile? ==>
              HeldKey(lib, ws[n].keys) == Some(ws[n].saved.value.key)
  {
    RunExact(lib, signedChar, ws, es, n);
  }

  lemma FileIsTracked(lib: Library, signedChar: bool, ws: seq<World>, es: seq<Event>, n: nat)
    requires Lawful(lib) && IsRun(lib, signedChar, ws, es) && n <= |es| && Readable(lib, signedChar, ws[0].keys)
    requires InStep(ws[0].keys.Keychain?, es, n) && Authentic(lib, signedChar, ws, es, n) && ws[n].saved.Some?
    ensures Track(ws[0].keys.Keychain?, es, n).file
  {
    RunInv(lib, signedChar, ws, es, n);
  }

  lemma LoadOfRun(lib: Library, signedChar: bool, ws: seq<World>, es: seq<Event>, n: nat)
    requires Lawful(lib) && IsRun(lib, signedChar, ws, es) && Readable(lib, signedChar, ws[0].keys)
    requires n < |es| < UINT64_MAX - 1 && es[n].Load? && ws[n].saved.Some?
    requires InStep(ws[0].keys.Keychain?, es, n) && Authentic(lib, signedChar, ws, es, n)
    requires !Track(ws[0].keys.Keychain?, es, n).holding.Own?
    ensures TookFile(lib, ws[n], ws[n + 1]) && ws[n].saved.value.nonce <= n
  {
    HoldsFileKey(lib, signedChar, ws, es, n);
    FileIsTracked(lib, signedChar, ws, es, n);
    RunInv(lib, signedChar, ws, es, n);
    LoadShape(lib, signedChar, ws[n], es[n].draw, Track(ws[0].keys.Keychain?, es, n));
    assert StepAt(lib, signedChar, ws, es, n);
  }

  lemma KeyOfRun(lib: Library, signedChar: bool, ws: seq<World>, es: seq<Event>, n: nat)
    requires Lawful(lib) && IsRun(lib, signedChar, ws, es) && n <= |es| && Readable(lib, signedChar, ws[0].keys)
    requires InStep(ws[0].keys.Keychain?, es, n) && Authentic(lib, signedChar, ws, es, n)
    ensures KeyInv(lib, ws[n], Track(ws[0].keys.Keychain?, es, n)) && Readable(lib, signedChar, ws[n].keys)
  {
    RunInv(lib, signedChar, ws, es, n);
  }

  lemma SaveOfRun(lib: Library, signedChar: bool, ws: seq<World>, es: seq<Event>, n: nat)
    requires Lawful(lib) && IsRun(lib, signedChar, ws, es) && n < |es| && Readable(lib, signedChar, ws[0].keys)
    requires InStep(ws[0].keys.Keychain?, es, n) && Authentic(lib, signedChar, ws, es, n)
    requires es[n].Save? && HeldKey(lib, ws[n].keys).Some? && ws[n].last < UINT64_MAX - 1
    ensures ws[n + 1].log == ws[n].log + [Stamp(HeldKey(lib, ws[n].keys).value, NonceBytes(ws[n].last + 1))]
  {
    KeyOfRun(lib, signedChar, ws, es, n);
    var e := es[n];
    SaveGoesOn(lib, signedChar, ws[n], e.settings, e.draw, e.written, Track(ws[0].keys.Keychain?, es, n));
    assert StepAt(lib, signedChar, ws, es, n);
  }

  /** A process saves twice, the first time in vain; the next one loads the file and saves. */
  predicate LostWriteThenWritten(es: seq<Event>)
  {
    && |es| == 5
    && es[0].Save? && !es[0].written && es[1].Save? && es[1].written
    && es[2].Restart? && es[3].Load? && es[4].Save?
  }

  /** A lost save that the same process makes good does no harm. */
  lemma LostWriteMadeGood(lib: Library, signedChar: bool, ws: seq<World>, es: seq<Event>)
    requires Lawful(lib) && IsRun(lib, signedChar, ws, es) && LostWriteThenWritten(es)
    requires Readable(lib, signedChar, ws[0].keys)
    ensures NoReuse(ws[5].log)
  {
    var keychain := ws[0].keys.Keychain?;
    assert Track(keychain, es, 2) == Progress(OfFile, true, true, false, false);
    assert !Track(keychain, es, 1).behind && !Track(keychain, es, 3).holding.Own? && !Track(keychain, es, 4).behind;
    forall i | 0 <= i < 5 ensures InStepAt(keychain, es, i) && AuthenticAt(lib, signedChar, ws, es, i) {
      assert i == 0 || i == 1 || i == 2 || i == 3 || i == 4;
    }
    NoncesNeverReused(lib, signedChar, ws, es, 5);
  }
}
