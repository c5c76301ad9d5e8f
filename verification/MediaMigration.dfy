// Copying media files into two object stores: what one candidate does, what a whole run does, and
// the loop that does it over mutable stores.  The hash is any function; the backends may drop or
// change what they are asked to keep, and may write a side file of their own beside it, as the
// local driver does.
module MediaMigration {
  import opened Wrappers

  type Byte = b: nat | b < 256
  type Bytes = seq<Byte>
  type Digest = string
  type Objects = map<string, Bytes>

  datatype Kind = Photo | GuidePdf
  datatype Mode = DryRun | Execute

  datatype Candidate =
    Candidate(kind: Kind, storageKey: string, expectedSha256: Option<Digest>, sourcePath: string)

  datatype Status = WouldMigrate | Migrated | SkippedExisting | Mismatch | MissingSource

  datatype Item = Item(
    kind: Kind, storageKey: string, status: Status,
    sourceSha256: Option<Digest>, destinationSha256: Option<Digest>)

  datatype Report = Report(
    mode: Mode, scanned: nat, migrated: nat, skippedExisting: nat, mismatched: nat, missingSource: nat,
    items: seq<Item>)

  /** What a backend does with a put it was sent: the object it keeps, if any, the side file it writes
      once it has kept one, and whether the caller hears of a success. */
  datatype PutEffect = PutEffect(kept: Option<Bytes>, side: Option<Bytes>, acknowledged: bool)

  /** Everything outside the program: the hash, the source files and the two backends.  A file of
      None exists but cannot be read. */
  datatype World = World(
    hash: Bytes -> Digest, files: map<string, Option<Bytes>>, backend: (Kind, string, Bytes) -> PutEffect)

  datatype Stores = Stores(photo: Objects, guide: Objects) {
    function Of(kind: Kind): Objects {
      if kind.Photo? then photo else guide
    }
    function With(kind: Kind, key: string, bytes: Bytes): Stores {
      if kind.Photo? then Stores(photo[key := bytes], guide) else Stores(photo, guide[key := bytes])
    }
  }

  // ---- Keys ---------------------------------------------------------------------------------

  predicate Alphanumeric(c: char) {
    'A' <= c <= 'Z' || 'a' <= c <= 'z' || '0' <= c <= '9'
  }

  /** Opaque, path-safe keys: every store operation rejects any other. */
  predicate ValidKey(key: string) {
    && 1 <= |key| <= 255
    && Alphanumeric(key[0])
    && (forall i | 0 < i < |key| :: Alphanumeric(key[i]) || key[i] in "._-")
    && (forall i | 0 < i < |key| :: !(key[i - 1] == '.' && key[i] == '.'))
  }

  /** A key is valid exactly when it has 1 to 255 characters, letters, digits, dots, underscores and hyphens,
      starts with a letter or a digit, and does not contain ".."; and then it names a file directly in the
      store's folder: of the explicit checks for blanks at the ends, slashes and backslashes none is needed
      beside the pattern. */
  lemma ValidKeysAreFlat(key: string)
    ensures ValidKey(key) <==>
            && 0 < |key| < 256
            && (forall i | 0 <= i < |key| ::
                  'a' <= key[i] <= 'z' || 'A' <= key[i] <= 'Z' || '0' <= key[i] <= '9'
                  || (i > 0 && (key[i] == '.' || key[i] == '_' || key[i] == '-')))
            && !(exists i | 0 <= i < |key| - 1 :: key[i] == '.' && key[i + 1] == '.')
    ensures ValidKey(key) ==>
              && '/' !in key && '\\' !in key && key != "." && key != ".."
              && key[0] != ' ' && key[|key| - 1] != ' '
  {
    assert forall i | 0 < i < |key| :: key[i - 1] == '.' && key[i] == '.' ==> key[i - 1 + 1] == '.';
    if ValidKey(key) {
      forall i | 0 <= i < |key| ensures key[i] != '/' && key[i] != '\\' && key[i] != ' ' {
        assert i == 0 ==> Alphanumeric(key[i]);
      }
      forall i | 0 <= i < |key| - 1 ensures !(key[i] == '.' && key[i + 1] == '.') {
        assert !(key[i + 1 - 1] == '.' && key[i + 1] == '.');
      }
    }
  }

  /** Where the local driver writes its side file: a name that is a valid key in its turn. */
  function SideKey(key: string): string { key + ".meta.json" }

  lemma SideKeyInjective(a: string, b: string)
    ensures SideKey(a) != a
    ensures SideKey(a) == SideKey(b) <==> a == b
  {
    if SideKey(a) == SideKey(b) {
      assert a == SideKey(a)[..|a|] && b == SideKey(b)[..|b|];
    }
    assert |SideKey(a)| == |a| + 10;
  }

  // ---- One candidate, and a whole run ----------------------------------------------------------

  datatype Step = Reported(item: Item, stores: Stores) | Thrown(stores: Stores)

  function AfterPut(c: Candidate, s: Stores, effect: PutEffect): Stores {
    if effect.kept.None? then s
    else
      var s' := s.With(c.kind, c.storageKey, effect.kept.value);
      if effect.side.None? then s' else s'.With(c.kind, SideKey(c.storageKey), effect.side.value)
  }

  function MigrateOne(mode: Mode, w: World, c: Candidate, s: Stores): Step {
    if c.sourcePath !in w.files then
      Reported(Item(c.kind, c.storageKey, MissingSource, None, None), s)
    else if w.files[c.sourcePath].None? then
      Thrown(s)
    else
      var bytes := w.files[c.sourcePath].value;
      var source := w.hash(bytes);
      if c.expectedSha256.Some? && c.expectedSha256.value != source then
        Reported(Item(c.kind, c.storageKey, Mismatch, Some(source), c.expectedSha256), s)
      else if !ValidKey(c.storageKey) then
        Thrown(s)
      else if c.storageKey in s.Of(c.kind) then
        var destination := w.hash(s.Of(c.kind)[c.storageKey]);
        Reported(Item(c.kind, c.storageKey, if destination == source then SkippedExisting else Mismatch,
                      Some(source), Some(destination)), s)
      else if mode.DryRun? then
        Reported(Item(c.kind, c.storageKey, WouldMigrate, Some(source), None), s)
      else if bytes == [] then
        Thrown(s)  // put refuses empty objects
      else
        var effect := w.backend(c.kind, c.storageKey, bytes);
        var s' := AfterPut(c, s, effect);
        if !effect.acknowledged || effect.kept.None? then
          Thrown(s')
        else
          var verified := w.hash(effect.kept.value);
          Reported(Item(c.kind, c.storageKey, if verified == source then Migrated else Mismatch,
                        Some(source), Some(verified)), s')
  }

  datatype Outcome = Finished(items: seq<Item>, stores: Stores) | Aborted(stores: Stores)

  function Continue(items: seq<Item>, rest: Outcome): Outcome {
    if rest.Finished? then Finished(items + rest.items, rest.stores) else rest
  }

  function Migrate(mode: Mode, w: World, cs: seq<Candidate>, s: Stores): Outcome {
    if cs == [] then Finished([], s)
    else match MigrateOne(mode, w, cs[0], s)
      case Thrown(s') => Aborted(s')
      case Reported(item, s') => Continue([item], Migrate(mode, w, cs[1..], s'))
  }

  function Count(items: seq<Item>, status: Status): nat {
    if items == [] then 0
    else Count(items[..|items| - 1], status) + if items[|items| - 1].status == status then 1 else 0
  }

  /** The exit-code rule: zero exactly when a report exists and shows no mismatch and no missing source. */
  predicate ExitsClean(report: Option<Report>) {
    report.Some? && report.value.mismatched == 0 && report.value.missingSource == 0
  }

  predicate CleanItems(items: seq<Item>) {
    Count(items, Mismatch) == 0 && Count(items, MissingSource) == 0
  }

  // ---- The loop over mutable stores --------------------------------------------------------------

  class ObjectStorage {
    var objects: Objects

    constructor (objects: Objects)
      ensures this.objects == objects
    {
      this.objects := objects;
    }

    /** None: the call throws. */
    method Exists(key: string) returns (found: Option<bool>)
      ensures found == if ValidKey(key) then Some(key in objects) else None
    {
      found := if ValidKey(key) then Some(key in objects) else None;
    }

    method Get(key: string) returns (bytes: Option<Bytes>)
      ensures bytes == if ValidKey(key) && key in objects then Some(objects[key]) else None
    {
      bytes := if ValidKey(key) && key in objects then Some(objects[key]) else None;
    }

    /** `effect` is what the backend does, once the store itself has accepted the arguments. */
    method Put(key: string, bytes: Bytes, effect: PutEffect) returns (ok: bool)
      modifies this
      ensures var accepted := ValidKey(key) && bytes != [];
              && ok == (accepted && effect.acknowledged)
              && (!accepted || effect.kept.None? ==> objects == old(objects))
              && (accepted && effect.kept.Some? ==>
                    && objects.Keys == old(objects).Keys + {key} + (if effect.side.Some? then {SideKey(key)} else {})
                    && objects[key] == effect.kept.value
                    && (effect.side.Some? ==> objects[SideKey(key)] == effect.side.value)
                    && forall k | k in old(objects) && k != key && (effect.side.Some? ==> k != SideKey(key)) ::
                         objects[k] == old(objects)[k])
    {
      if !ValidKey(key) || bytes == [] {
        return false;
      }
      SideKeyInjective(key, key);
      if effect.kept.Some? {
        objects := objects[key := effect.kept.value];
        if effect.side.Some? {
          objects := objects[SideKey(key) := effect.side.value];
        }
      }
      return effect.acknowledged;
    }
  }

  /** One turn of the loop.  None: it threw. */
  method MigrateCandidate(mode: Mode, w: World, candidate: Candidate,
                          photoStorage: ObjectStorage, guideStorage: ObjectStorage)
    returns (item: Option<Item>)
    requires photoStorage != guideStorage
    modifies photoStorage, guideStorage
    ensures var step := MigrateOne(mode, w, candidate, Stores(old(photoStorage.objects), old(guideStorage.objects)));
            && Stores(photoStorage.objects, guideStorage.objects) == step.stores
            && item == if step.Reported? then Some(step.item) else None
  {
    var kind, key := candidate.kind, candidate.storageKey;
    var destination := if kind.Photo? then photoStorage else guideStorage;
    if candidate.sourcePath !in w.files {
      return Some(Item(kind, key, MissingSource, None, None));
    }
    if w.files[candidate.sourcePath].None? {
      return None;
    }
    var bytes := w.files[candidate.sourcePath].value;
    var sourceSha256 := w.hash(bytes);
    if candidate.expectedSha256.Some? && candidate.expectedSha256.value != sourceSha256 {
      return Some(Item(kind, key, Mismatch, Some(sourceSha256), candidate.expectedSha256));
    }
    var found := destination.Exists(key);
    if found.None? {
      return None;
    }
    if found.value {
      var existing := destination.Get(key);
      var destinationSha256 := w.hash(existing.value);
      if destinationSha256 == sourceSha256 {
        return Some(Item(kind, key, SkippedExisting, Some(sourceSha256), Some(destinationSha256)));
      }
      return Some(Item(kind, key, Mismatch, Some(sourceSha256), Some(destinationSha256)));
    }
    if mode.DryRun? {
      return Some(Item(kind, key, WouldMigrate, Some(sourceSha256), None));
    }
    ghost var before := Stores(photoStorage.objects, guideStorage.objects);
    var effect := w.backend(kind, key, bytes);
    var ok := destination.Put(key, bytes, effect);
    assert bytes != [] ==> destination.objects == AfterPut(candidate, before, effect).Of(kind);
    if !ok {
      return None;
    }
    var stored := destination.Get(key);
    if stored.None? {
      return None;
    }
    var verified := w.hash(stored.value);
    if verified != sourceSha256 {
      return Some(Item(kind, key, Mismatch, Some(sourceSha256), Some(verified)));
    }
    return Some(Item(kind, key, Migrated, Some(sourceSha256), Some(verified)));
  }

  /** None: the run threw and there is no report. */
  method MigrateMediaToObjectStorage(mode: Mode, w: World, candidates: seq<Candidate>,
                                     photoStorage: ObjectStorage, guideStorage: ObjectStorage)
    returns (report: Option<Report>)
    requires photoStorage != guideStorage
    modifies photoStorage, guideStorage
    ensures var outcome := Migrate(mode, w, candidates, Stores(old(photoStorage.objects), old(guideStorage.objects)));
            && Stores(photoStorage.objects, guideStorage.objects) == outcome.stores
            && (report.Some? <==> outcome.Finished?)
            && (report.Some? ==> report.value.items == outcome.items)
    ensures report.Some? ==>
              var r := report.value;
              && r.mode == mode
              && r.scanned == |candidates| == |r.items|
              && r.migrated == Count(r.items, Migrated) + Count(r.items, WouldMigrate)
              && r.skippedExisting == Count(r.items, SkippedExisting)
              && r.mismatched == Count(r.items, Mismatch)
              && r.missingSource == Count(r.items, MissingSource)
              && r.migrated + r.skippedExisting + r.mismatched + r.missingSource == r.scanned
              && (ExitsClean(report) <==> CleanItems(r.items))
  {
    var items: seq<Item> := [];
    var migrated, skippedExisting, mismatched, missingSource := 0, 0, 0, 0;
    ghost var s0 := Stores(photoStorage.objects, guideStorage.objects);
    var i := 0;
    while i < |candidates|
      invariant 0 <= i == |items| <= |candidates|
      invariant Migrate(mode, w, candidates, s0) ==
                Continue(items, Migrate(mode, w, candidates[i..], Stores(photoStorage.objects, guideStorage.objects)))
      invariant migrated == Count(items, Migrated) + Count(items, WouldMigrate)
      invariant skippedExisting == Count(items, SkippedExisting)
      invariant mismatched == Count(items, Mismatch)
      invariant missingSource == Count(items, MissingSource)
      invariant migrated + skippedExisting + mismatched + missingSource == i
    {
      assert candidates[i..][0] == candidates[i] && candidates[i..][1..] == candidates[i + 1..];
      var item := MigrateCandidate(mode, w, candidates[i], photoStorage, guideStorage);
      if item.None? {
        return None;
      }
      match item.value.status {
        case Migrated => migrated := migrated + 1;
        case WouldMigrate => migrated := migrated + 1;
        case SkippedExisting => skippedExisting := skippedExisting + 1;
        case Mismatch => mismatched := mismatched + 1;
        case MissingSource => missingSource := missingSource + 1;
      }
      assert (items + [item.value])[..|items|] == items;
      ContinueAssociates(items, [item.value],
                         Migrate(mode, w, candidates[i + 1..], Stores(photoStorage.objects, guideStorage.objects)));
      items := items + [item.value];
      i := i + 1;
    }
    report := Some(Report(mode, |candidates|, migrated, skippedExisting, mismatched, missingSource, items));
  }

  lemma ContinueAssociates(items: seq<Item>, more: seq<Item>, rest: Outcome)
    ensures Continue(items, Continue(more, rest)) == Continue(items + more, rest)
  {
    if rest.Finished? {
      assert items + (more + rest.items) == (items + more) + rest.items;
    }
  }

  // ---- What a run puts, and what becomes of an object ----------------------------------------------

  /** The candidate's bytes, if its source can be read. */
  function SourceOf(w: World, c: Candidate): Option<Bytes> {
    if c.sourcePath in w.files then w.files[c.sourcePath] else None
  }

  predicate HashAsRecorded(w: World, c: Candidate, bytes: Bytes) {
    c.expectedSha256.Some? ==> c.expectedSha256.value == w.hash(bytes)
  }

  /** What the backend keeps for candidate c, if the run gets as far as to put it. */
  function PutOf(mode: Mode, w: World, c: Candidate, s: Stores): Option<PutEffect> {
    match SourceOf(w, c)
    case None => None
    case Some(bytes) =>
      if mode.Execute? && HashAsRecorded(w, c, bytes) && ValidKey(c.storageKey)
        && c.storageKey !in s.Of(c.kind) && bytes != []
        && w.backend(c.kind, c.storageKey, bytes).kept.Some?
      then Some(w.backend(c.kind, c.storageKey, bytes)) else None
  }

  /** One entry for every candidate the run gets to. */
  function Puts(mode: Mode, w: World, cs: seq<Candidate>, s: Stores): seq<Option<PutEffect>> {
    if cs == [] then []
    else
      var step := MigrateOne(mode, w, cs[0], s);
      [PutOf(mode, w, cs[0], s)] + if step.Thrown? then [] else Puts(mode, w, cs[1..], step.stores)
  }

  lemma StepStores(mode: Mode, w: World, c: Candidate, s: Stores)
    ensures var put := PutOf(mode, w, c, s);
            MigrateOne(mode, w, c, s).stores == if put.Some? then AfterPut(c, s, put.value) else s
  {}

  lemma {:induction false} PutsFollowCandidates(mode: Mode, w: World, cs: seq<Candidate>, s: Stores)
    ensures |Puts(mode, w, cs, s)| <= |cs|
    ensures Migrate(mode, w, cs, s).Finished? ==>
              |Puts(mode, w, cs, s)| == |cs| == |Migrate(mode, w, cs, s).items|
  {
    if cs == [] {
    } else {
      PutsFollowCandidates(mode, w, cs[1..], MigrateOne(mode, w, cs[0], s).stores);
    }
  }

  /** The put of c, if any, writes its side file over the key. */
  predicate SideHits(c: Candidate, put: Option<PutEffect>, kind: Kind, key: string) {
    put.Some? && put.value.side.Some? && c.kind == kind && SideKey(c.storageKey) == key
  }

  /** A key that is there is never put again. */
  lemma {:induction false} NoPutWhenPresent(
    mode: Mode, w: World, cs: seq<Candidate>, s: Stores, kind: Kind, key: string)
    requires key in s.Of(kind)
    ensures var puts := Puts(mode, w, cs, s);
            |puts| <= |cs| && forall j | 0 <= j < |puts| && puts[j].Some? ::
              !(cs[j].kind == kind && cs[j].storageKey == key)
  {
    PutsFollowCandidates(mode, w, cs, s);
    if cs == [] {
    } else {
      var step, puts := MigrateOne(mode, w, cs[0], s), Puts(mode, w, cs, s);
      StepStores(mode, w, cs[0], s);
      NoPutWhenPresent(mode, w, cs[1..], step.stores, kind, key);
      forall j | 0 <= j < |puts| && puts[j].Some?
        ensures !(cs[j].kind == kind && cs[j].storageKey == key)
      {
        if j > 0 {
          assert puts[j] == Puts(mode, w, cs[1..], step.stores)[j - 1] && cs[j] == cs[1..][j - 1];
        }
      }
    }
  }

  lemma StepObject(mode: Mode, w: World, c: Candidate, s: Stores, kind: Kind, key: string)
    requires key in s.Of(kind)
    ensures var put, s' := PutOf(mode, w, c, s), MigrateOne(mode, w, c, s).stores;
            && key in s'.Of(kind)
            && s'.Of(kind)[key] == (if SideHits(c, put, kind, key) then put.value.side.value else s.Of(kind)[key])
            && (SideHits(c, put, kind, key) ==> c.storageKey in s'.Of(kind))
  {
    StepStores(mode, w, c, s);
    SideKeyInjective(c.storageKey, c.storageKey);
  }

  lemma HitsShift(mode: Mode, w: World, cs: seq<Candidate>, s: Stores, kind: Kind, key: string)
    requires cs != [] && MigrateOne(mode, w, cs[0], s).Reported?
    ensures var puts, rest := Puts(mode, w, cs, s), Puts(mode, w, cs[1..], MigrateOne(mode, w, cs[0], s).stores);
            && |puts| == 1 + |rest| && |puts| <= |cs| && puts[0] == PutOf(mode, w, cs[0], s) && puts[1..] == rest
            && forall j | 0 <= j < |rest| ::
                 SideHits(cs[1..][j], rest[j], kind, key) == SideHits(cs[j + 1], puts[j + 1], kind, key)
  {
    PutsFollowCandidates(mode, w, cs, s);
  }

  /** Over one key a side file is written at most once. */
  lemma HitsOnce(mode: Mode, w: World, cs: seq<Candidate>, s: Stores, kind: Kind, key: string)
    requires cs != [] && key in s.Of(kind) && SideHits(cs[0], PutOf(mode, w, cs[0], s), kind, key)
    ensures var rest := Puts(mode, w, cs[1..], MigrateOne(mode, w, cs[0], s).stores);
            |rest| < |cs| && forall j | 0 <= j < |rest| :: !SideHits(cs[1..][j], rest[j], kind, key)
  {
    var s' := MigrateOne(mode, w, cs[0], s).stores;
    StepObject(mode, w, cs[0], s, kind, key);
    NoPutWhenPresent(mode, w, cs[1..], s', kind, cs[0].storageKey);
    var rest := Puts(mode, w, cs[1..], s');
    forall j | 0 <= j < |rest| ensures !SideHits(cs[1..][j], rest[j], kind, key) {
      SideKeyInjective(cs[0].storageKey, cs[1..][j].storageKey);
    }
  }

  /** An object that is there stays there, and stays the same unless the run writes a side file over it;
      then it is that side file at the end. */
  lemma {:induction false} FinalObject(
    mode: Mode, w: World, cs: seq<Candidate>, s: Stores, kind: Kind, key: string)
    requires key in s.Of(kind)
    ensures var puts, final := Puts(mode, w, cs, s), Migrate(mode, w, cs, s).stores;
            && |puts| <= |cs| && key in final.Of(kind)
            && (forall j | 0 <= j < |puts| && SideHits(cs[j], puts[j], kind, key) ::
                  final.Of(kind)[key] == puts[j].value.side.value)
            && ((forall j | 0 <= j < |puts| :: !SideHits(cs[j], puts[j], kind, key)) ==>
                  final.Of(kind)[key] == s.Of(kind)[key])
  {
    PutsFollowCandidates(mode, w, cs, s);
    if cs == [] {
    } else {
      var step, puts := MigrateOne(mode, w, cs[0], s), Puts(mode, w, cs, s);
      StepObject(mode, w, cs[0], s, kind, key);
      if step.Thrown? {
      } else {
        HitsShift(mode, w, cs, s, kind, key);
        FinalObject(mode, w, cs[1..], step.stores, kind, key);
        if SideHits(cs[0], puts[0], kind, key) {
          HitsOnce(mode, w, cs, s, kind, key);
        }
        forall j | 0 <= j < |puts| && SideHits(cs[j], puts[j], kind, key)
          ensures Migrate(mode, w, cs, s).stores.Of(kind)[key] == puts[j].value.side.value
        {
          if j > 0 {
            assert SideHits(cs[1..][j - 1], puts[1..][j - 1], kind, key);
          }
        }
      }
    }
  }

  // ---- When a run returns ---------------------------------------------------------------------------

  type Target = (Kind, string)

  function TargetOf(c: Candidate): Target { (c.kind, c.storageKey) }

  function TargetsIn(s: Stores): set<Target> {
    (set k | k in s.photo :: (Photo, k)) + (set k | k in s.guide :: (GuidePdf, k))
  }

  /** The source exists, can be read, and has the recorded hash if one is recorded. */
  predicate Usable(w: World, c: Candidate) {
    SourceOf(w, c).Some? && HashAsRecorded(w, c, SourceOf(w, c).value)
  }

  /** What the backend does when c is put. */
  function EffectOn(w: World, c: Candidate): PutEffect
    requires SourceOf(w, c).Some?
  {
    w.backend(c.kind, c.storageKey, SourceOf(w, c).value)
  }

  /** What stops a run at candidate c: a file that cannot be read, an invalid key, or in an execute run, where
      nothing is at its key yet, an empty file or a put that fails. */
  ghost predicate Stops(mode: Mode, w: World, c: Candidate, present: bool) {
    || (c.sourcePath in w.files && w.files[c.sourcePath] == None)
    || (Usable(w, c) &&
        (!ValidKey(c.storageKey) ||
         (mode == Execute && !present &&
          (SourceOf(w, c).value == [] || EffectOn(w, c).kept == None || !EffectOn(w, c).acknowledged))))
  }

  /** The targets that a candidate adds, and those there after some candidates: keys alone are looked at. */
  function Added(mode: Mode, w: World, c: Candidate, there: set<Target>): set<Target> {
    if mode == Execute && TargetOf(c) !in there && Usable(w, c) && ValidKey(c.storageKey)
      && SourceOf(w, c).value != [] && EffectOn(w, c).kept != None
    then
      {TargetOf(c)} + if EffectOn(w, c).side != None then {(c.kind, SideKey(c.storageKey))} else {}
    else {}
  }

  function TargetsAfter(mode: Mode, w: World, cs: seq<Candidate>, there: set<Target>): set<Target> {
    if cs == [] then there else TargetsAfter(mode, w, cs[1..], there + Added(mode, w, cs[0], there))
  }

  ghost predicate NothingStops(mode: Mode, w: World, cs: seq<Candidate>, there: set<Target>) {
    forall i | 0 <= i < |cs| :: !Stops(mode, w, cs[i], TargetOf(cs[i]) in TargetsAfter(mode, w, cs[..i], there))
  }

  lemma TargetsAre(s: Stores, kind: Kind, key: string)
    ensures (kind, key) in TargetsIn(s) <==> key in s.Of(kind)
  {}

  lemma StepStops(mode: Mode, w: World, c: Candidate, s: Stores)
    ensures MigrateOne(mode, w, c, s).Thrown? <==> Stops(mode, w, c, TargetOf(c) in TargetsIn(s))
    ensures TargetsIn(MigrateOne(mode, w, c, s).stores) == TargetsIn(s) + Added(mode, w, c, TargetsIn(s))
  {
    TargetsAre(s, c.kind, c.storageKey);
    StepStores(mode, w, c, s);
  }

  lemma NothingStopsShifts(mode: Mode, w: World, cs: seq<Candidate>, there: set<Target>)
    requires cs != []
    ensures NothingStops(mode, w, cs, there) <==>
            && !Stops(mode, w, cs[0], TargetOf(cs[0]) in there)
            && NothingStops(mode, w, cs[1..], there + Added(mode, w, cs[0], there))
  {
    var rest, there' := cs[1..], there + Added(mode, w, cs[0], there);
    assert cs[..0] == [];
    forall i | 0 < i < |cs|
      ensures cs[i] == rest[i - 1]
      ensures TargetsAfter(mode, w, cs[..i], there) == TargetsAfter(mode, w, rest[..i - 1], there')
    {
      assert cs[..i][0] == cs[0] && cs[..i][1..] == rest[..i - 1];
    }
    if NothingStops(mode, w, cs, there) {
      assert TargetsAfter(mode, w, cs[..0], there) == there;
      forall i | 0 <= i < |rest|
        ensures !Stops(mode, w, rest[i], TargetOf(rest[i]) in TargetsAfter(mode, w, rest[..i], there'))
      {
        assert rest[i] == cs[i + 1];
      }
    }
  }

  /** A run returns if and only if no candidate stops it: none has a file that cannot be read, none whose file is
      as recorded has an invalid key, and in an execute run none, whose key is not there when its turn
      comes, has an empty file or a put that fails.  A missing source, a recorded hash that differs, or an
      object that is there under a valid key never stops a run. */
  lemma {:induction false} ReturnsIff(mode: Mode, w: World, cs: seq<Candidate>, s: Stores)
    ensures Migrate(mode, w, cs, s).Finished? <==> NothingStops(mode, w, cs, TargetsIn(s))
  {
    if cs == [] {
    } else {
      var step := MigrateOne(mode, w, cs[0], s);
      StepStops(mode, w, cs[0], s);
      NothingStopsShifts(mode, w, cs, TargetsIn(s));
      ReturnsIff(mode, w, cs[1..], step.stores);
    }
  }

  /** However a run that returns went, the i-th item says `missing_source` exactly when the i-th source is
      missing, and reports the recorded hash of a source exactly when that differs. */
  lemma {:induction false} SourcesAreReported(mode: Mode, w: World, cs: seq<Candidate>, s: Stores)
    requires Migrate(mode, w, cs, s).Finished?
    ensures var items := Migrate(mode, w, cs, s).items;
            && |items| == |cs|
            && forall i | 0 <= i < |cs| ::
                 && (items[i].status == MissingSource <==> cs[i].sourcePath !in w.files)
                 && (SourceOf(w, cs[i]).Some? && !Usable(w, cs[i]) ==>
                       items[i].status == Mismatch && items[i].destinationSha256 == cs[i].expectedSha256)
  {
    if cs == [] {
    } else {
      var step := MigrateOne(mode, w, cs[0], s);
      SourcesAreReported(mode, w, cs[1..], step.stores);
      var items, rest := Migrate(mode, w, cs, s).items, Migrate(mode, w, cs[1..], step.stores).items;
      forall i | 0 < i < |cs|
        ensures items[i].status == MissingSource <==> cs[i].sourcePath !in w.files
        ensures SourceOf(w, cs[i]).Some? && !Usable(w, cs[i]) ==>
                  items[i].status == Mismatch && items[i].destinationSha256 == cs[i].expectedSha256
      {
        assert cs[i] == cs[1..][i - 1] && items[i] == rest[i - 1];
      }
    }
  }

  /** Over reliable stores, with valid keys and every existing file readable and not empty, each run returns,
      missing files or not. */
  lemma OrdinaryRunsReturn(mode: Mode, w: World, cs: seq<Candidate>, s: Stores)
    requires Reliable(w) && forall i | 0 <= i < |cs| :: ValidKey(cs[i].storageKey)
    requires forall path | path in w.files :: w.files[path] != None && w.files[path] != Some([])
    ensures Migrate(mode, w, cs, s).Finished? && |Migrate(mode, w, cs, s).items| == |cs|
    ensures forall i | 0 <= i < |cs| ::
              Migrate(mode, w, cs, s).items[i].status == MissingSource <==> cs[i].sourcePath !in w.files
  {
    ReturnsIff(mode, w, cs, s);
    SourcesAreReported(mode, w, cs, s);
  }

  /** A run stores what it puts and what is written beside it, and nothing else. */
  lemma {:induction false} OnlyPutsAreStored(
    mode: Mode, w: World, cs: seq<Candidate>, s: Stores)
    ensures Migrate(mode, w, cs, s).Finished? ==>
              TargetsIn(Migrate(mode, w, cs, s).stores) == TargetsAfter(mode, w, cs, TargetsIn(s))
    ensures var puts, final := Puts(mode, w, cs, s), Migrate(mode, w, cs, s).stores;
            && |puts| <= |cs|
            && forall target | target in TargetsIn(final) ::
                 || target in TargetsIn(s)
                 || exists j | 0 <= j < |puts| ::
                      puts[j].Some? && (target == TargetOf(cs[j]) || SideHits(cs[j], puts[j], target.0, target.1))
  {
    PutsFollowCandidates(mode, w, cs, s);
    if cs == [] {
    } else {
      var step, puts := MigrateOne(mode, w, cs[0], s), Puts(mode, w, cs, s);
      var final, rest := Migrate(mode, w, cs, s).stores, Puts(mode, w, cs[1..], step.stores);
      StepStops(mode, w, cs[0], s);
      if step.Reported? {
        OnlyPutsAreStored(mode, w, cs[1..], step.stores);
      }
      forall target | target in TargetsIn(final) && target !in TargetsIn(s)
        ensures exists j | 0 <= j < |puts| ::
                  puts[j].Some? && (target == TargetOf(cs[j]) || SideHits(cs[j], puts[j], target.0, target.1))
      {
        if target in Added(mode, w, cs[0], TargetsIn(s)) {
          AddedByPut(mode, w, cs[0], s, target);
          assert puts[0].Some? && (target == TargetOf(cs[0]) || SideHits(cs[0], puts[0], target.0, target.1));
        } else {
          var j :| 0 <= j < |rest| && rest[j].Some?
                   && (target == TargetOf(cs[1..][j]) || SideHits(cs[1..][j], rest[j], target.0, target.1));
          assert puts[j + 1] == rest[j] && cs[j + 1] == cs[1..][j];
        }
      }
    }
  }

  lemma FirstPutArrives(mode: Mode, w: World, cs: seq<Candidate>, s: Stores)
    requires cs != [] && PutOf(mode, w, cs[0], s).Some?
    ensures var c, puts, final := cs[0], Puts(mode, w, cs, s), Migrate(mode, w, cs, s).stores;
            && |puts| <= |cs| && PutOf(mode, w, c, s).value.kept.Some? && c.storageKey in final.Of(c.kind)
            && ((forall i | 0 < i < |puts| :: !SideHits(cs[i], puts[i], c.kind, c.storageKey)) ==>
                  final.Of(c.kind)[c.storageKey] == PutOf(mode, w, c, s).value.kept.value)
  {
    var c, step, puts := cs[0], MigrateOne(mode, w, cs[0], s), Puts(mode, w, cs, s);
    PutsFollowCandidates(mode, w, cs, s);
    StepStores(mode, w, c, s);
    SideKeyInjective(c.storageKey, c.storageKey);
    assert step.stores.Of(c.kind)[c.storageKey] == PutOf(mode, w, c, s).value.kept.value;
    if step.Reported? {
      HitsShift(mode, w, cs, s, c.kind, c.storageKey);
      FinalObject(mode, w, cs[1..], step.stores, c.kind, c.storageKey);
    }
  }

  /** No later put writes its side file over the key of the j-th candidate. */
  ghost predicate NoLaterHit(cs: seq<Candidate>, puts: seq<Option<PutEffect>>, j: nat)
  {
    && j < |puts| <= |cs|
    && forall i | j < i < |puts| :: !SideHits(cs[i], puts[i], cs[j].kind, cs[j].storageKey)
  }

  lemma NoLaterHitShifts(cs: seq<Candidate>, puts: seq<Option<PutEffect>>, j: nat)
    requires 0 < j < |puts| <= |cs|
    ensures NoLaterHit(cs, puts, j) <==> NoLaterHit(cs[1..], puts[1..], j - 1)
  {
    var rest, restPuts := cs[1..], puts[1..];
    assert forall i | j < i < |puts| :: cs[i] == rest[i - 1] && puts[i] == restPuts[i - 1];
    assert forall i | j - 1 < i < |restPuts| :: rest[i] == cs[i + 1] && restPuts[i] == puts[i + 1];
  }

  /** What the backend kept of a put is there at the end, byte for byte, unless a later put wrote its side
      file over it. */
  lemma {:induction false} PutsArriveWhole(mode: Mode, w: World, cs: seq<Candidate>, s: Stores, j: nat)
    requires j < |Puts(mode, w, cs, s)| && Puts(mode, w, cs, s)[j].Some?
    ensures var puts, final := Puts(mode, w, cs, s), Migrate(mode, w, cs, s).stores;
            && |puts| <= |cs| && puts[j].value.kept.Some? && cs[j].storageKey in final.Of(cs[j].kind)
            && (NoLaterHit(cs, puts, j) ==> final.Of(cs[j].kind)[cs[j].storageKey] == puts[j].value.kept.value)
  {
    PutsFollowCandidates(mode, w, cs, s);
    if j == 0 {
      FirstPutArrives(mode, w, cs, s);
    } else {
      var step := MigrateOne(mode, w, cs[0], s);
      assert Puts(mode, w, cs, s)[1..] == Puts(mode, w, cs[1..], step.stores);
      PutsArriveWhole(mode, w, cs[1..], step.stores, j - 1);
      NoLaterHitShifts(cs, Puts(mode, w, cs, s), j);
    }
  }

  lemma AddedByPut(mode: Mode, w: World, c: Candidate, s: Stores, target: Target)
    requires target in Added(mode, w, c, TargetsIn(s))
    ensures var put := PutOf(mode, w, c, s);
            put.Some? && (target == TargetOf(c) || SideHits(c, put, target.0, target.1))
  {
    TargetsAre(s, c.kind, c.storageKey);
  }

  // ---- Nothing is overwritten, except by side files ----------------------------------------------

  ghost predicate Kept(o: Objects, o': Objects) {
    forall k | k in o :: k in o' && o'[k] == o[k]
  }

  ghost predicate Under(s: Stores, t: Stores) {
    Kept(s.photo, t.photo) && Kept(s.guide, t.guide)
  }

  /** Backends without side files, such as the S3 driver. */
  ghost predicate NoSideFiles(w: World) {
    forall kind, key, bytes :: w.backend(kind, key, bytes).side.None?
  }

  /** The side file of the put of c would replace an object by other bytes. */
  predicate Replaces(c: Candidate, put: Option<PutEffect>, s: Stores) {
    && put.Some? && put.value.side.Some? && SideKey(c.storageKey) in s.Of(c.kind)
    && s.Of(c.kind)[SideKey(c.storageKey)] != put.value.side.value
  }

  lemma UnderMeans(s: Stores, t: Stores)
    ensures Under(s, t) <==>
            forall kind: Kind, key | key in s.Of(kind) :: key in t.Of(kind) && t.Of(kind)[key] == s.Of(kind)[key]
  {
    if forall kind: Kind, key | key in s.Of(kind) :: key in t.Of(kind) && t.Of(kind)[key] == s.Of(kind)[key] {
      forall k | k in s.photo ensures k in t.photo && t.photo[k] == s.photo[k] {
        assert k in s.Of(Photo) && s.Of(Photo) == s.photo && t.Of(Photo) == t.photo;
      }
      forall k | k in s.guide ensures k in t.guide && t.guide[k] == s.guide[k] {
        assert k in s.Of(GuidePdf) && s.Of(GuidePdf) == s.guide && t.Of(GuidePdf) == t.guide;
      }
    }
  }

  /** Whatever the backends do, every object present before a run is still the same after it exactly when
      no key the run puts, followed by ".meta.json", is a key already present (with other bytes than the
      side file brings).  Without side files nothing is ever overwritten. */
  lemma NothingOverwritten(mode: Mode, w: World, cs: seq<Candidate>, s: Stores)
    ensures var puts := Puts(mode, w, cs, s);
            && |puts| <= |cs|
            && (Under(s, Migrate(mode, w, cs, s).stores) <==>
                forall j | 0 <= j < |puts| :: !Replaces(cs[j], puts[j], s))
    ensures NoSideFiles(w) ==> Under(s, Migrate(mode, w, cs, s).stores)
  {
    var puts, final := Puts(mode, w, cs, s), Migrate(mode, w, cs, s).stores;
    PutsFollowCandidates(mode, w, cs, s);
    UnderMeans(s, final);
    forall kind: Kind, key | key in s.Of(kind)
      ensures key in final.Of(kind)
      ensures (forall j | 0 <= j < |puts| && SideHits(cs[j], puts[j], kind, key) ::
                 final.Of(kind)[key] == puts[j].value.side.value)
      ensures (forall j | 0 <= j < |puts| :: !SideHits(cs[j], puts[j], kind, key)) ==>
                final.Of(kind)[key] == s.Of(kind)[key]
    {
      FinalObject(mode, w, cs, s, kind, key);
    }
    if Under(s, final) {
      forall j | 0 <= j < |puts| ensures !Replaces(cs[j], puts[j], s) {
        if Replaces(cs[j], puts[j], s) {
          assert SideHits(cs[j], puts[j], cs[j].kind, SideKey(cs[j].storageKey));
        }
      }
    }
    if forall j | 0 <= j < |puts| :: !Replaces(cs[j], puts[j], s) {
      forall kind: Kind, key | key in s.Of(kind) ensures final.Of(kind)[key] == s.Of(kind)[key] {
        if j :| 0 <= j < |puts| && SideHits(cs[j], puts[j], kind, key) {
          assert !Replaces(cs[j], puts[j], s);
        }
      }
    }
    if NoSideFiles(w) {
      PutsComeFromTheBackend(mode, w, cs, s);
    }
  }

  lemma {:induction false} PutsComeFromTheBackend(mode: Mode, w: World, cs: seq<Candidate>, s: Stores)
    ensures var puts := Puts(mode, w, cs, s);
            && |puts| <= |cs|
            && forall j | 0 <= j < |puts| && puts[j].Some? ::
                 && mode.Execute? && SourceOf(w, cs[j]).Some?
                 && puts[j].value == w.backend(cs[j].kind, cs[j].storageKey, SourceOf(w, cs[j]).value)
  {
    PutsFollowCandidates(mode, w, cs, s);
    if cs == [] {
    } else {
      var step, puts := MigrateOne(mode, w, cs[0], s), Puts(mode, w, cs, s);
      PutsComeFromTheBackend(mode, w, cs[1..], step.stores);
      forall j | 0 <= j < |puts| && puts[j].Some?
        ensures mode.Execute? && SourceOf(w, cs[j]).Some?
        ensures puts[j].value == w.backend(cs[j].kind, cs[j].storageKey, SourceOf(w, cs[j]).value)
      {
        if j > 0 {
          assert puts[j] == Puts(mode, w, cs[1..], step.stores)[j - 1] && cs[j] == cs[1..][j - 1];
        }
      }
    }
  }

  lemma RunOfOne(mode: Mode, w: World, c: Candidate, s: Stores)
    ensures Migrate(mode, w, [c], s) ==
            match MigrateOne(mode, w, c, s)
            case Thrown(s') => Aborted(s')
            case Reported(item, s') => Finished([item], s')
  {
    assert [c][1..] == [];
  }

  lemma PutOverSideKey(w: World, c: Candidate, bytes: Bytes, before: Bytes, side: Bytes)
    requires ValidKey(c.storageKey) && c.expectedSha256.None? && c.kind.Photo?
    requires bytes != [] && SourceOf(w, c) == Some(bytes)
    requires w.backend(Photo, c.storageKey, bytes) == PutEffect(Some(bytes), Some(side), true)
    ensures var outcome := Migrate(Execute, w, [c], Stores(map[SideKey(c.storageKey) := before], map[]));
            && outcome.Finished? && |outcome.items| == 1 && outcome.items[0].status.Migrated?
            && outcome.stores.photo == map[c.storageKey := bytes, SideKey(c.storageKey) := side]
  {
    var s := Stores(map[SideKey(c.storageKey) := before], map[]);
    SideKeyInjective(c.storageKey, c.storageKey);
    RunOfOne(Execute, w, c, s);
    StepStores(Execute, w, c, s);
  }

  lemma ShortestSideKey()
    ensures ValidKey("a") && ValidKey("a.meta.json") && SideKey("a") == "a.meta.json"
  {}

  /** An input on which the local driver does overwrite: "a.meta.json" is a stored object, "a" is not, and
      its migration replaces the former by the side file of the latter. */
  lemma SideFileOverwritesAnObject(w: World, bytes: Bytes, before: Bytes, side: Bytes)
    requires bytes != [] && before != side && w.files == map["a" := Some(bytes)]
    requires w.backend(Photo, "a", bytes) == PutEffect(Some(bytes), Some(side), true)
    ensures var s := Stores(map["a.meta.json" := before], map[]);
            var outcome := Migrate(Execute, w, [Candidate(Photo, "a", None, "a")], s);
            && ValidKey("a") && ValidKey("a.meta.json")
            && outcome.Finished? && |outcome.items| == 1 && outcome.items[0].status.Migrated?
            && outcome.stores.photo == map["a" := bytes, "a.meta.json" := side]
  {
    ShortestSideKey();
    PutOverSideKey(w, Candidate(Photo, "a", None, "a"), bytes, before, side);
  }

  lemma {:induction false} DryRunWritesNothing(w: World, cs: seq<Candidate>, s: Stores)
    ensures Migrate(DryRun, w, cs, s).stores == s
  {
    if cs == [] {
    } else {
      DryRunWritesNothing(w, cs[1..], s);
    }
  }

  // ---- What a report means ---------------------------------------------------------------------

  /** The candidate's source exists, has the recorded hash if one is recorded, and the object at
      its key has the hash of the source. */
  ghost predicate AtDestination(w: World, c: Candidate, s: Stores) {
    && SourceOf(w, c).Some? && HashAsRecorded(w, c, SourceOf(w, c).value)
    && c.storageKey in s.Of(c.kind)
    && w.hash(s.Of(c.kind)[c.storageKey]) == w.hash(SourceOf(w, c).value)
  }

  predicate Good(item: Item) { item.status.Migrated? || item.status.SkippedExisting? }

  /** The item gives the hash of the object it found, or read back, at the candidate's key. */
  predicate ReportsObject(c: Candidate, item: Item) {
    Good(item) || (item.status.Mismatch? && item.destinationSha256 != c.expectedSha256)
  }

  /** ... and that object still has this hash. */
  ghost predicate Stands(w: World, c: Candidate, item: Item, s: Stores) {
    ReportsObject(c, item) ==>
      && c.storageKey in s.Of(c.kind)
      && item.destinationSha256 == Some(w.hash(s.Of(c.kind)[c.storageKey]))
  }

  /** What an item says of its candidate, seen from the stores a run started with and those it left. */
  ghost predicate Tells(mode: Mode, w: World, c: Candidate, item: Item, start: Stores, final: Stores) {
    && item.kind == c.kind && item.storageKey == c.storageKey
    && item.sourceSha256 == (if SourceOf(w, c).Some? then Some(w.hash(SourceOf(w, c).value)) else None)
    && match item.status
       case MissingSource => c.sourcePath !in w.files && item.destinationSha256.None?
       case Mismatch =>
         && item.sourceSha256.Some? && item.destinationSha256.Some? && item.destinationSha256 != item.sourceSha256
         && (item.destinationSha256 == c.expectedSha256 ||
             (c.storageKey in final.Of(c.kind) &&
              item.destinationSha256 == Some(w.hash(final.Of(c.kind)[c.storageKey]))))
       case WouldMigrate =>
         && mode.DryRun? && item.sourceSha256.Some? && item.destinationSha256.None?
         && c.storageKey !in start.Of(c.kind) && c.storageKey !in final.Of(c.kind)
         && (c.expectedSha256.Some? ==> c.expectedSha256 == item.sourceSha256)
       case Migrated =>
         && mode.Execute? && c.storageKey !in start.Of(c.kind)
         && AtDestination(w, c, final) && item.destinationSha256 == item.sourceSha256
       case SkippedExisting => AtDestination(w, c, final) && item.destinationSha256 == item.sourceSha256
  }

  ghost predicate KeysWithin(s: Stores, t: Stores) {
    s.photo.Keys <= t.photo.Keys && s.guide.Keys <= t.guide.Keys
  }

  lemma StepTells(mode: Mode, w: World, c: Candidate, start: Stores, s: Stores, final: Stores)
    requires MigrateOne(mode, w, c, s).Reported? && KeysWithin(start, s)
    requires mode.DryRun? ==> final == s
    ensures var step := MigrateOne(mode, w, c, s);
            && KeysWithin(s, step.stores)
            && Stands(w, c, step.item, step.stores)
            && (Tells(mode, w, c, step.item, start, final) <==> Stands(w, c, step.item, final))
            && (Good(step.item) ==> (AtDestination(w, c, final) <==> Stands(w, c, step.item, final)))
  {
    SideKeyInjective(c.storageKey, c.storageKey);
  }

  lemma {:induction false} ItemsTellIffTheyStand(
    mode: Mode, w: World, cs: seq<Candidate>, start: Stores, s: Stores, final: Stores)
    requires Migrate(mode, w, cs, s).Finished? && KeysWithin(start, s)
    requires mode.DryRun? ==> final == s
    ensures var items := Migrate(mode, w, cs, s).items;
            && |items| == |cs|
            && forall i | 0 <= i < |cs| ::
                 && (Tells(mode, w, cs[i], items[i], start, final) <==> Stands(w, cs[i], items[i], final))
                 && (Good(items[i]) ==> (AtDestination(w, cs[i], final) <==> Stands(w, cs[i], items[i], final)))
  {
    if cs == [] {
    } else {
      var step := MigrateOne(mode, w, cs[0], s);
      StepTells(mode, w, cs[0], start, s, final);
      ItemsTellIffTheyStand(mode, w, cs[1..], start, step.stores, final);
      var rest, items := Migrate(mode, w, cs[1..], step.stores).items, Migrate(mode, w, cs, s).items;
      forall i | 0 <= i < |cs|
        ensures Tells(mode, w, cs[i], items[i], start, final) <==> Stands(w, cs[i], items[i], final)
        ensures Good(items[i]) ==> (AtDestination(w, cs[i], final) <==> Stands(w, cs[i], items[i], final))
      {
        assert i > 0 ==> cs[i] == cs[1..][i - 1] && items[i] == rest[i - 1];
      }
    }
  }

  /** A later put, the j-th, wrote its side file over the object that the item reports, and the side
      file has another hash. */
  predicate Spoils(w: World, c: Candidate, item: Item, later: Candidate, put: Option<PutEffect>) {
    && ReportsObject(c, item) && SideHits(later, put, c.kind, c.storageKey)
    && item.destinationSha256 != Some(w.hash(put.value.side.value))
  }

  ghost predicate Unspoiled(
    w: World, cs: seq<Candidate>, items: seq<Item>, puts: seq<Option<PutEffect>>, i: nat)
  {
    && i < |cs| == |items| == |puts|
    && forall j | i < j < |cs| :: !Spoils(w, cs[i], items[i], cs[j], puts[j])
  }

  lemma FirstItemStands(mode: Mode, w: World, cs: seq<Candidate>, s: Stores)
    requires cs != [] && Migrate(mode, w, cs, s).Finished?
    ensures var outcome, puts := Migrate(mode, w, cs, s), Puts(mode, w, cs, s);
            && |outcome.items| == |puts| == |cs|
            && (Stands(w, cs[0], outcome.items[0], outcome.stores) <==> Unspoiled(w, cs, outcome.items, puts, 0))
  {
    PutsFollowCandidates(mode, w, cs, s);
    var c, step := cs[0], MigrateOne(mode, w, cs[0], s);
    var outcome, puts := Migrate(mode, w, cs, s), Puts(mode, w, cs, s);
    StepTells(mode, w, c, s, s, s);
    if ReportsObject(c, step.item) {
      FinalObject(mode, w, cs[1..], step.stores, c.kind, c.storageKey);
      var rest := Puts(mode, w, cs[1..], step.stores);
      assert forall j | 0 < j < |cs| :: cs[j] == cs[1..][j - 1] && puts[j] == rest[j - 1];
      assert forall j | 0 <= j < |rest| :: cs[1..][j] == cs[j + 1] && rest[j] == puts[j + 1];
    }
  }

  lemma {:induction false} ItemsStandUnlessSpoiled(mode: Mode, w: World, cs: seq<Candidate>, s: Stores)
    requires Migrate(mode, w, cs, s).Finished?
    ensures var outcome, puts := Migrate(mode, w, cs, s), Puts(mode, w, cs, s);
            && |outcome.items| == |puts| == |cs|
            && forall i | 0 <= i < |cs| ::
                 Stands(w, cs[i], outcome.items[i], outcome.stores) <==> Unspoiled(w, cs, outcome.items, puts, i)
  {
    PutsFollowCandidates(mode, w, cs, s);
    if cs == [] {
    } else {
      var step := MigrateOne(mode, w, cs[0], s);
      var outcome, puts := Migrate(mode, w, cs, s), Puts(mode, w, cs, s);
      var rest, restPuts := Migrate(mode, w, cs[1..], step.stores), Puts(mode, w, cs[1..], step.stores);
      FirstItemStands(mode, w, cs, s);
      ItemsStandUnlessSpoiled(mode, w, cs[1..], step.stores);
      forall i | 0 < i < |cs|
        ensures Stands(w, cs[i], outcome.items[i], outcome.stores) <==> Unspoiled(w, cs, outcome.items, puts, i)
      {
        UnspoiledShifts(w, cs, outcome.items, puts, i);
        assert outcome.items[1..] == rest.items && puts[1..] == restPuts;
      }
    }
  }

  lemma UnspoiledShifts(w: World, cs: seq<Candidate>, items: seq<Item>, puts: seq<Option<PutEffect>>, i: nat)
    requires 0 < i < |cs| == |items| == |puts|
    ensures Unspoiled(w, cs, items, puts, i) <==> Unspoiled(w, cs[1..], items[1..], puts[1..], i - 1)
  {
    assert forall j | i < j < |cs| :: cs[j] == cs[1..][j - 1] && puts[j] == puts[1..][j - 1];
    assert forall j | i - 1 < j < |cs| - 1 :: cs[1..][j] == cs[j + 1] && puts[1..][j] == puts[j + 1];
  }

  /** At the end of a run, whatever the backends do, each item tells the truth about its candidate, its
      hashes included, exactly when no later put of the run wrote a side file with another hash over the
      object it reports.  An item that tells the truth says `migrated` or `skipped_existing` exactly when
      its candidate is at its destination. */
  lemma ReportIsTrueAtTheEnd(mode: Mode, w: World, cs: seq<Candidate>, s: Stores)
    requires Migrate(mode, w, cs, s).Finished?
    ensures var outcome, puts := Migrate(mode, w, cs, s), Puts(mode, w, cs, s);
            && |outcome.items| == |puts| == |cs|
            && forall i | 0 <= i < |cs| ::
                 && (Tells(mode, w, cs[i], outcome.items[i], s, outcome.stores) <==>
                     Unspoiled(w, cs, outcome.items, puts, i))
                 && (Tells(mode, w, cs[i], outcome.items[i], s, outcome.stores) ==>
                     (Good(outcome.items[i]) <==> AtDestination(w, cs[i], outcome.stores)))
  {
    var outcome := Migrate(mode, w, cs, s);
    if mode.DryRun? {
      DryRunWritesNothing(w, cs, s);
    }
    ItemsStandUnlessSpoiled(mode, w, cs, s);
    ItemsTellIffTheyStand(mode, w, cs, s, s, outcome.stores);
    forall i | 0 <= i < |cs| && Tells(mode, w, cs[i], outcome.items[i], s, outcome.stores)
      ensures Good(outcome.items[i]) <==> AtDestination(w, cs[i], outcome.stores)
    {}
  }

  /** Two conditions anybody can check beforehand, each of which keeps every item unspoiled: the backends
      write no side files, or no candidate is named like the side file of another. */
  lemma WithoutNamesakesNothingIsSpoiled(mode: Mode, w: World, cs: seq<Candidate>, s: Stores)
    requires Migrate(mode, w, cs, s).Finished?
    requires NoSideFiles(w) || forall i, j | 0 <= i < |cs| && 0 <= j < |cs| && cs[i].kind == cs[j].kind ::
                                 cs[i].storageKey != SideKey(cs[j].storageKey)
    ensures var outcome, puts := Migrate(mode, w, cs, s), Puts(mode, w, cs, s);
            && |outcome.items| == |puts| == |cs|
            && forall i | 0 <= i < |cs| :: Unspoiled(w, cs, outcome.items, puts, i)
  {
    PutsFollowCandidates(mode, w, cs, s);
    PutsComeFromTheBackend(mode, w, cs, s);
  }

  lemma {:induction false} CountZeroMeansNone(items: seq<Item>, status: Status)
    ensures Count(items, status) == 0 <==> forall i | 0 <= i < |items| :: items[i].status != status
  {
    if items == [] {
    } else {
      CountZeroMeansNone(items[..|items| - 1], status);
    }
  }

  lemma {:induction false} ExecuteNeverPostpones(w: World, cs: seq<Candidate>, s: Stores)
    requires Migrate(Execute, w, cs, s).Finished?
    ensures forall i | 0 <= i < |Migrate(Execute, w, cs, s).items| ::
              Migrate(Execute, w, cs, s).items[i].status != WouldMigrate
  {
    if cs == [] {
    } else {
      ExecuteNeverPostpones(w, cs[1..], MigrateOne(Execute, w, cs[0], s).stores);
    }
  }

  lemma CleanMeansAllGood(w: World, cs: seq<Candidate>, s: Stores)
    requires Migrate(Execute, w, cs, s).Finished?
    ensures var items := Migrate(Execute, w, cs, s).items;
            CleanItems(items) <==> forall i | 0 <= i < |items| :: Good(items[i])
  {
    var items := Migrate(Execute, w, cs, s).items;
    ExecuteNeverPostpones(w, cs, s);
    CountZeroMeansNone(items, Mismatch);
    CountZeroMeansNone(items, MissingSource);
  }

  /** An execute run that returns with a clean exit code has every candidate at its destination exactly
      when no item is spoiled; and as long as none is, the exit code is clean exactly when every candidate
      is at its destination. */
  lemma CleanExitMeansAllAtDestination(w: World, cs: seq<Candidate>, s: Stores)
    requires Migrate(Execute, w, cs, s).Finished?
    ensures var outcome, puts := Migrate(Execute, w, cs, s), Puts(Execute, w, cs, s);
            && |outcome.items| == |puts| == |cs|
            && var unspoiled := forall i | 0 <= i < |cs| :: Unspoiled(w, cs, outcome.items, puts, i);
               var arrived := forall i | 0 <= i < |cs| :: AtDestination(w, cs[i], outcome.stores);
               && (CleanItems(outcome.items) ==> (arrived <==> unspoiled))
               && (unspoiled ==> (CleanItems(outcome.items) <==> arrived))
  {
    var outcome := Migrate(Execute, w, cs, s);
    ItemsStandUnlessSpoiled(Execute, w, cs, s);
    ItemsTellIffTheyStand(Execute, w, cs, s, s, outcome.stores);
    ReportIsTrueAtTheEnd(Execute, w, cs, s);
    CleanMeansAllGood(w, cs, s);
  }

  /** The second of two candidates writes its side file over the object of the first: both are reported
      `migrated`, the exit code is clean, and the object of the first is lost. */
  lemma CleanExitMayHideALoss(w: World, m: Bytes, a: Bytes)
    requires Reliable(w) && m != [] && a != [] && w.files == map["m" := Some(m), "a" := Some(a)]
    requires var side := w.backend(Photo, "a", a).side;
             side.Some? && w.hash(side.value) != w.hash(m)
    ensures var c, d := Candidate(Photo, "a.meta.json", None, "m"), Candidate(Photo, "a", None, "a");
            var outcome := Migrate(Execute, w, [c, d], Stores(map[], map[]));
            && outcome.Finished? && |outcome.items| == 2 && CleanItems(outcome.items)
            && outcome.items[0].status.Migrated? && outcome.items[1].status.Migrated?
            && !AtDestination(w, c, outcome.stores)
  {
    ShortestSideKey();
    SideOverMigrated(w, Candidate(Photo, "a.meta.json", None, "m"), Candidate(Photo, "a", None, "a"), m, a);
  }

  lemma FirstIsMigrated(w: World, c: Candidate, m: Bytes)
    requires Reliable(w) && ValidKey(c.storageKey) && c.kind.Photo? && c.expectedSha256.None?
    requires SourceOf(w, c) == Some(m) && m != []
    ensures var step := MigrateOne(Execute, w, c, Stores(map[], map[]));
            && step.Reported? && step.item.status.Migrated?
            && step.stores.photo.Keys <= {c.storageKey, SideKey(c.storageKey)}
  {
    StepStores(Execute, w, c, Stores(map[], map[]));
    SideKeyInjective(c.storageKey, c.storageKey);
  }

  lemma SideOverMigrated(w: World, c: Candidate, d: Candidate, m: Bytes, a: Bytes)
    requires Reliable(w) && ValidKey(c.storageKey) && ValidKey(d.storageKey)
    requires c.storageKey == SideKey(d.storageKey) && c.kind.Photo? && d.kind.Photo?
    requires c.expectedSha256.None? && d.expectedSha256.None?
    requires SourceOf(w, c) == Some(m) && SourceOf(w, d) == Some(a) && m != [] && a != []
    requires var side := w.backend(Photo, d.storageKey, a).side;
             side.Some? && w.hash(side.value) != w.hash(m)
    ensures var outcome := Migrate(Execute, w, [c, d], Stores(map[], map[]));
            && outcome.Finished? && |outcome.items| == 2 && CleanItems(outcome.items)
            && outcome.items[0].status.Migrated? && outcome.items[1].status.Migrated?
            && !AtDestination(w, c, outcome.stores)
  {
    var none := Stores(map[], map[]);
    assert [c, d][0] == c && [c, d][1..] == [d];
    SideKeyInjective(d.storageKey, d.storageKey);
    SideKeyInjective(c.storageKey, c.storageKey);
    FirstIsMigrated(w, c, m);
    var first := MigrateOne(Execute, w, c, none);
    assert |SideKey(c.storageKey)| > |c.storageKey| > |d.storageKey|;
    var second := MigrateOne(Execute, w, d, first.stores);
    StepStores(Execute, w, d, first.stores);
    RunOfOne(Execute, w, d, first.stores);
    CountZeroMeansNone([first.item, second.item], Mismatch);
    CountZeroMeansNone([first.item, second.item], MissingSource);
    assert Migrate(Execute, w, [c, d], none).items == [first.item, second.item];
  }

  // ---- Running again ------------------------------------------------------------------------------

  function AgainItem(item: Item): Item {
    if item.status.Migrated? then item.(status := SkippedExisting) else item
  }

  function Again(items: seq<Item>): (again: seq<Item>)
    ensures |again| == |items| && forall i | 0 <= i < |items| :: again[i] == AgainItem(items[i])
  {
    seq(|items|, i requires 0 <= i < |items| => AgainItem(items[i]))
  }

  ghost predicate SameSources(w: World, later: World) {
    later.hash == w.hash && later.files == w.files
  }

  lemma AgainStep(w: World, later: World, mode: Mode, c: Candidate, s: Stores, final: Stores)
    requires SameSources(w, later)
    requires MigrateOne(Execute, w, c, s).Reported? && KeysWithin(MigrateOne(Execute, w, c, s).stores, final)
    ensures var first, second := MigrateOne(Execute, w, c, s).item, MigrateOne(mode, later, c, final);
            && second.Reported? && second.stores == final
            && (second.item == AgainItem(first) <==> Stands(w, c, first, final))
  {
    var first := MigrateOne(Execute, w, c, s).item;
    if ReportsObject(c, first) {
      assert c.storageKey in final.Of(c.kind);
    } else {
      assert first.status.MissingSource? || c.expectedSha256 == first.destinationSha256 != first.sourceSha256;
    }
  }

  lemma {:induction false} KeysGrow(mode: Mode, w: World, cs: seq<Candidate>, s: Stores)
    ensures KeysWithin(s, Migrate(mode, w, cs, s).stores)
  {
    if cs == [] {
    } else {
      StepStores(mode, w, cs[0], s);
      KeysGrow(mode, w, cs[1..], MigrateOne(mode, w, cs[0], s).stores);
    }
  }

  lemma {:induction false} AgainFrom(
    w: World, later: World, mode: Mode, cs: seq<Candidate>, s: Stores, final: Stores)
    requires SameSources(w, later)
    requires Migrate(Execute, w, cs, s).Finished? && KeysWithin(Migrate(Execute, w, cs, s).stores, final)
    ensures var first, second := Migrate(Execute, w, cs, s), Migrate(mode, later, cs, final);
            && second.Finished? && second.stores == final && |second.items| == |first.items| == |cs|
            && forall i | 0 <= i < |cs| ::
                 second.items[i] == AgainItem(first.items[i]) <==> Stands(w, cs[i], first.items[i], final)
  {
    if cs == [] {
    } else {
      var step := MigrateOne(Execute, w, cs[0], s);
      KeysGrow(Execute, w, cs[1..], step.stores);
      AgainStep(w, later, mode, cs[0], s, final);
      AgainFrom(w, later, mode, cs[1..], step.stores, final);
      var first, second := Migrate(Execute, w, cs, s), Migrate(mode, later, cs, final);
      forall i | 0 < i < |cs|
        ensures second.items[i] == AgainItem(first.items[i]) <==> Stands(w, cs[i], first.items[i], final)
      {
        assert cs[i] == cs[1..][i - 1] && first.items[i] == first.items[1..][i - 1];
      }
    }
  }

  /** A second run after an execute run that returned, in either mode, over the same files and any
      backends, returns and changes nothing.  It reports what was `migrated` as `skipped_existing` and all
      else alike, item for item, exactly when the first report is not spoiled by a side file. */
  lemma SecondRunChangesNothing(w: World, later: World, mode: Mode, cs: seq<Candidate>, s: Stores)
    requires SameSources(w, later) && Migrate(Execute, w, cs, s).Finished?
    ensures var first, puts := Migrate(Execute, w, cs, s), Puts(Execute, w, cs, s);
            var second := Migrate(mode, later, cs, first.stores);
            && second.Finished? && second.stores == first.stores
            && |first.items| == |puts| == |cs|
            && (second.items == Again(first.items) <==>
                forall i | 0 <= i < |cs| :: Unspoiled(w, cs, first.items, puts, i))
  {
    var first := Migrate(Execute, w, cs, s);
    AgainFrom(w, later, mode, cs, s, first.stores);
    ItemsStandUnlessSpoiled(Execute, w, cs, s);
    var second := Migrate(mode, later, cs, first.stores);
    if forall i | 0 <= i < |cs| :: second.items[i] == AgainItem(first.items[i]) {
      assert second.items == Again(first.items);
    }
  }

  // ---- Stopping and resuming -----------------------------------------------------------------------

  /** Keeps what it is given and says so; what it writes beside it is its own affair. */
  ghost predicate Reliable(w: World) {
    forall kind, key, bytes ::
      w.backend(kind, key, bytes).kept == Some(bytes) && w.backend(kind, key, bytes).acknowledged
  }

  /** May lose puts or their replies, but never keeps other bytes than it was given, nor an object
      without its side file. */
  ghost predicate Lossy(faulty: World, w: World) {
    forall kind, key, bytes ::
      faulty.backend(kind, key, bytes).kept.None? ||
      (faulty.backend(kind, key, bytes).kept == Some(bytes) &&
       faulty.backend(kind, key, bytes).side == w.backend(kind, key, bytes).side)
  }

  lemma {:induction false} MigrateInTwoParts(mode: Mode, w: World, cs: seq<Candidate>, j: nat, s: Stores)
    requires j <= |cs| && Migrate(mode, w, cs[..j], s).Finished?
    ensures var first := Migrate(mode, w, cs[..j], s);
            Migrate(mode, w, cs, s) == Continue(first.items, Migrate(mode, w, cs[j..], first.stores))
  {
    if j == 0 {
      assert cs[0..] == cs;
      ContinueNothing(Migrate(mode, w, cs, s));
    } else {
      var step := MigrateOne(mode, w, cs[0], s);
      assert cs[..j][0] == cs[0] && cs[..j][1..] == cs[1..][..j - 1] && cs[1..][j - 1..] == cs[j..];
      MigrateInTwoParts(mode, w, cs[1..], j - 1, step.stores);
      var first := Migrate(mode, w, cs[1..][..j - 1], step.stores);
      ContinueAssociates([step.item], first.items, Migrate(mode, w, cs[j..], first.stores));
    }
  }

  lemma ContinueNothing(outcome: Outcome)
    ensures Continue([], outcome) == outcome
  {
    if outcome.Finished? {
      assert [] + outcome.items == outcome.items;
    }
  }

  lemma FaultyStep(w: World, faulty: World, c: Candidate, s: Stores)
    requires Reliable(w) && Lossy(faulty, w) && SameSources(w, faulty)
    ensures var step, step' := MigrateOne(Execute, w, c, s), MigrateOne(Execute, faulty, c, s);
            if step'.Reported? then step' == step
            else step'.stores == s || (step.Reported? && step'.stores == step.stores)
  {}

  /** However a faulty run stops, it leaves the stores of a reliable run over some first candidates. */
  lemma {:induction false} StoppedRunIsAPrefix(w: World, faulty: World, cs: seq<Candidate>, k: nat, s: Stores)
    returns (j: nat)
    requires Reliable(w) && Lossy(faulty, w) && SameSources(w, faulty) && k <= |cs|
    ensures j <= k && Migrate(Execute, w, cs[..j], s).Finished?
    ensures Migrate(Execute, faulty, cs[..k], s).stores == Migrate(Execute, w, cs[..j], s).stores
  {
    if k == 0 {
      j := 0;
    } else {
      var c := cs[0];
      assert cs[..k][0] == c && cs[..k][1..] == cs[1..][..k - 1];
      FaultyStep(w, faulty, c, s);
      var step, step' := MigrateOne(Execute, w, c, s), MigrateOne(Execute, faulty, c, s);
      if step'.Reported? {
        var n := StoppedRunIsAPrefix(w, faulty, cs[1..], k - 1, step.stores);
        j := n + 1;
        assert cs[..j][0] == c && cs[..j][1..] == cs[1..][..n];
      } else if step'.stores == s {
        j := 0;
      } else {
        j := 1;
        assert cs[..1] == [c];
        RunOfOne(Execute, w, c, s);
      }
    }
  }

  /** Stop an execute run after any number of candidates, or let a lost put or a lost reply abort it
      on the way; a reliable rerun then ends exactly where an uninterrupted reliable run ends. */
  lemma RerunAfterAnyStopCompletes(w: World, faulty: World, cs: seq<Candidate>, k: nat, s: Stores)
    requires Reliable(w) && Lossy(faulty, w) && SameSources(w, faulty) && k <= |cs|
    ensures var stopped := Migrate(Execute, faulty, cs[..k], s).stores;
            && Migrate(Execute, w, cs, stopped).stores == Migrate(Execute, w, cs, s).stores
            && Migrate(Execute, w, cs, stopped).Finished? == Migrate(Execute, w, cs, s).Finished?
  {
    var j := StoppedRunIsAPrefix(w, faulty, cs, k, s);
    var t := Migrate(Execute, w, cs[..j], s).stores;
    AgainFrom(w, w, Execute, cs[..j], s, t);
    MigrateInTwoParts(Execute, w, cs, j, s);
    MigrateInTwoParts(Execute, w, cs, j, t);
  }

  /** A key that no candidate has and that is the side key of a key already there plays no part. */
  lemma {:induction false} UnnamedKeyPlaysNoPart(
    w: World, cs: seq<Candidate>, s: Stores, kind: Kind, base: string, bytes: Bytes)
    requires base in s.Of(kind)
    requires forall i | 0 <= i < |cs| && cs[i].kind == kind :: cs[i].storageKey != SideKey(base)
    ensures Migrate(Execute, w, cs, s.With(kind, SideKey(base), bytes)).stores ==
            Migrate(Execute, w, cs, s).stores.With(kind, SideKey(base), bytes)
    ensures base in Migrate(Execute, w, cs, s).stores.Of(kind)
    ensures SideKey(base) !in s.Of(kind) ==> SideKey(base) !in Migrate(Execute, w, cs, s).stores.Of(kind)
  {
    if cs == [] {
    } else {
      var t := s.With(kind, SideKey(base), bytes);
      StepIgnoresKey(w, cs[0], s, kind, base, bytes);
      var step := MigrateOne(Execute, w, cs[0], s);
      assert forall i | 0 <= i < |cs[1..]| :: cs[1..][i] == cs[i + 1];
      if step.Reported? {
        UnnamedKeyPlaysNoPart(w, cs[1..], step.stores, kind, base, bytes);
      }
    }
  }

  lemma StepIgnoresKey(w: World, c: Candidate, s: Stores, kind: Kind, base: string, bytes: Bytes)
    requires base in s.Of(kind) && (c.kind == kind ==> c.storageKey != SideKey(base))
    ensures var t := s.With(kind, SideKey(base), bytes);
            var step, step' := MigrateOne(Execute, w, c, s), MigrateOne(Execute, w, c, t);
            && step'.Reported? == step.Reported? && (step.Reported? ==> step'.item == step.item)
            && step'.stores == step.stores.With(kind, SideKey(base), bytes)
            && base in step.stores.Of(kind)
            && (SideKey(base) !in s.Of(kind) ==> SideKey(base) !in step.stores.Of(kind))
  {
    var t := s.With(kind, SideKey(base), bytes);
    SideKeyInjective(c.storageKey, base);
    StepStores(Execute, w, c, s);
    StepStores(Execute, w, c, t);
    var put := PutOf(Execute, w, c, s);
    if put.Some? {
      PutsCommute(c, s, put.value, kind, SideKey(base), bytes);
    }
  }

  lemma PutsCommute(c: Candidate, s: Stores, effect: PutEffect, kind: Kind, key: string, bytes: Bytes)
    requires c.kind == kind ==> key != c.storageKey && key != SideKey(c.storageKey)
    ensures AfterPut(c, s.With(kind, key, bytes), effect) == AfterPut(c, s, effect).With(kind, key, bytes)
  {
    if effect.kept.Some? {
      UpdatesCommute(s, c.kind, c.storageKey, effect.kept.value, kind, key, bytes);
      if effect.side.Some? {
        var s' := s.With(c.kind, c.storageKey, effect.kept.value);
        UpdatesCommute(s', c.kind, SideKey(c.storageKey), effect.side.value, kind, key, bytes);
      }
    }
  }

  lemma UpdatesCommute(s: Stores, k1: Kind, key1: string, b1: Bytes, k2: Kind, key2: string, b2: Bytes)
    requires k1 == k2 ==> key1 != key2
    ensures s.With(k1, key1, b1).With(k2, key2, b2) == s.With(k2, key2, b2).With(k1, key1, b1)
  {
    if k1 == k2 {
      var o: Objects := s.Of(k1);
      assert o[key1 := b1][key2 := b2] == o[key2 := b2][key1 := b1];
    }
  }

  /** A side key that is there keeps its bytes once its base is there, and these bytes decide nothing about
      what is stored elsewhere, whatever the candidates are called. */
  lemma {:induction false} PresentSideKeyStays(
    w: World, cs: seq<Candidate>, s: Stores, kind: Kind, base: string, bytes: Bytes)
    requires base in s.Of(kind) && SideKey(base) in s.Of(kind)
    ensures Migrate(Execute, w, cs, s.With(kind, SideKey(base), bytes)).stores ==
            Migrate(Execute, w, cs, s).stores.With(kind, SideKey(base), bytes)
    ensures var final := Migrate(Execute, w, cs, s).stores;
            SideKey(base) in final.Of(kind) && final.Of(kind)[SideKey(base)] == s.Of(kind)[SideKey(base)]
  {
    if cs == [] {
    } else {
      var step := MigrateOne(Execute, w, cs[0], s);
      StepKeepsSideKey(w, cs[0], s, kind, base, bytes);
      if step.Reported? {
        PresentSideKeyStays(w, cs[1..], step.stores, kind, base, bytes);
      }
    }
  }

  lemma StepKeepsSideKey(w: World, c: Candidate, s: Stores, kind: Kind, base: string, bytes: Bytes)
    requires base in s.Of(kind) && SideKey(base) in s.Of(kind)
    ensures var t := s.With(kind, SideKey(base), bytes);
            var step, step' := MigrateOne(Execute, w, c, s), MigrateOne(Execute, w, c, t);
            && step'.Reported? == step.Reported?
            && step'.stores == step.stores.With(kind, SideKey(base), bytes)
            && base in step.stores.Of(kind) && SideKey(base) in step.stores.Of(kind)
            && step.stores.Of(kind)[SideKey(base)] == s.Of(kind)[SideKey(base)]
  {
    var t := s.With(kind, SideKey(base), bytes);
    SideKeyInjective(c.storageKey, base);
    StepStores(Execute, w, c, s);
    StepStores(Execute, w, c, t);
    var put := PutOf(Execute, w, c, s);
    if put.Some? {
      PutsCommute(c, s, put.value, kind, SideKey(base), bytes);
    }
  }

  lemma WithSame(s: Stores, kind: Kind, key: string, bytes: Bytes)
    ensures s.With(kind, key, bytes) == s <==> key in s.Of(kind) && s.Of(kind)[key] == bytes
  {
    if key in s.Of(kind) && s.Of(kind)[key] == bytes {
      assert s.Of(kind)[key := bytes] == s.Of(kind);
    }
    if s.With(kind, key, bytes) == s {
      assert s.With(kind, key, bytes).Of(kind)[key] == bytes;
    }
  }

  /** A stop between the two writes of the local driver: the put of candidate j has kept its object but not
      its side file.  Unless a later candidate would be put under the name of that side file, the rerun ends
      where an uninterrupted run ends up to this one key, and so in the very same stores if and only if the
      side file was there before, with the same bytes. */
  lemma LostSideFileStaysLost(w: World, cs: seq<Candidate>, j: nat, s: Stores)
    requires Reliable(w) && j < |cs| && Migrate(Execute, w, cs[..j], s).Finished?
    requires var put := PutOf(Execute, w, cs[j], Migrate(Execute, w, cs[..j], s).stores);
             put.Some? && put.value.side.Some?
    requires || SideKey(cs[j].storageKey) in Migrate(Execute, w, cs[..j], s).stores.Of(cs[j].kind)
             || forall i | j < i < |cs| && cs[i].kind == cs[j].kind :: cs[i].storageKey != SideKey(cs[j].storageKey)
    ensures var before, c := Migrate(Execute, w, cs[..j], s).stores, cs[j];
            var side := SideKey(c.storageKey);
            var effect := PutOf(Execute, w, c, before).value;
            var stopped := AfterPut(c, before, effect.(side := None));
            var rerun, whole := Migrate(Execute, w, cs, stopped).stores, Migrate(Execute, w, cs, s).stores;
            && whole == rerun.With(c.kind, side, effect.side.value)
            && (side in rerun.Of(c.kind) <==> side in before.Of(c.kind))
            && (rerun == whole <==> side in before.Of(c.kind) && before.Of(c.kind)[side] == effect.side.value)
  {
    var before, c := Migrate(Execute, w, cs[..j], s).stores, cs[j];
    var effect := PutOf(Execute, w, c, before).value;
    var stopped, whole := AfterPut(c, before, effect.(side := None)), AfterPut(c, before, effect);
    SideKeyInjective(c.storageKey, c.storageKey);
    MigrateInTwoParts(Execute, w, cs, j, s);
    AgainFrom(w, w, Execute, cs[..j], s, stopped);
    MigrateInTwoParts(Execute, w, cs, j, stopped);
    assert cs[j..][0] == c && cs[j..][1..] == cs[j + 1..];
    assert MigrateOne(Execute, w, c, before).Reported? && MigrateOne(Execute, w, c, before).stores == whole;
    assert MigrateOne(Execute, w, c, stopped).Reported? && MigrateOne(Execute, w, c, stopped).stores == stopped;
    RestAfterLoss(w, cs[j + 1..], c, stopped, effect.side.value);
  }

  lemma RestAfterLoss(w: World, rest: seq<Candidate>, c: Candidate, s: Stores, bytes: Bytes)
    requires c.storageKey in s.Of(c.kind)
    requires || SideKey(c.storageKey) in s.Of(c.kind)
             || forall i | 0 <= i < |rest| && rest[i].kind == c.kind :: rest[i].storageKey != SideKey(c.storageKey)
    ensures var side := SideKey(c.storageKey);
            var rerun := Migrate(Execute, w, rest, s).stores;
            var whole := Migrate(Execute, w, rest, s.With(c.kind, side, bytes)).stores;
            && whole == rerun.With(c.kind, side, bytes)
            && (side in rerun.Of(c.kind) <==> side in s.Of(c.kind))
            && (rerun == whole <==> side in s.Of(c.kind) && s.Of(c.kind)[side] == bytes)
  {
    var side := SideKey(c.storageKey);
    if side in s.Of(c.kind) {
      PresentSideKeyStays(w, rest, s, c.kind, c.storageKey, bytes);
    } else {
      UnnamedKeyPlaysNoPart(w, rest, s, c.kind, c.storageKey, bytes);
    }
    WithSame(Migrate(Execute, w, rest, s).stores, c.kind, side, bytes);
  }

  // ---- Dry run against execute ------------------------------------------------------------------------

  function ExecutedItem(item: Item): Item {
    if item.status.WouldMigrate? then item.(status := Migrated, destinationSha256 := item.sourceSha256) else item
  }

  function Executed(items: seq<Item>): (executed: seq<Item>)
    ensures |executed| == |items| && forall i | 0 <= i < |items| :: executed[i] == ExecutedItem(items[i])
  {
    seq(|items|, i requires 0 <= i < |items| => ExecutedItem(items[i]))
  }

  /** The dry run would migrate this file, and it is empty. */
  predicate WouldBeEmpty(w: World, c: Candidate, item: Item) {
    item.status.WouldMigrate? && SourceOf(w, c) == Some([])
  }

  /** The side file that the backend writes beside candidate c. */
  function SideOf(w: World, c: Candidate): Option<Bytes> {
    match SourceOf(w, c)
    case None => None
    case Some(bytes) => w.backend(c.kind, c.storageKey, bytes).side
  }

  predicate SideFalls(w: World, c: Candidate, other: Candidate) {
    SideOf(w, c).Some? && c.kind == other.kind && SideKey(c.storageKey) == other.storageKey
  }

  /** By the dry report, migrating c would change what becomes of a later candidate: both would be
      migrated to one key, or the side file of c falls on the other's key, where nothing, or an object of
      another hash, was to be found. */
  predicate Conflict(w: World, c: Candidate, item: Item, later: Candidate, laterItem: Item) {
    && item.status.WouldMigrate?
    && ((laterItem.status.WouldMigrate? &&
         ((c.kind == later.kind && c.storageKey == later.storageKey) || SideFalls(w, c, later)))
        || (ReportsObject(later, laterItem) && SideFalls(w, c, later) &&
            laterItem.destinationSha256 != Some(w.hash(SideOf(w, c).value))))
  }

  ghost predicate NoConflicts(w: World, cs: seq<Candidate>, items: seq<Item>)
  {
    && |items| == |cs|
    && forall i, j | 0 <= i < j < |cs| :: !Conflict(w, cs[i], items[i], cs[j], items[j])
  }

  ghost predicate NoneEmpty(w: World, cs: seq<Candidate>, items: seq<Item>)
  {
    && |items| == |cs|
    && forall i | 0 <= i < |cs| :: !WouldBeEmpty(w, cs[i], items[i])
  }

  ghost predicate Predicts(dry: seq<Item>, exec: Outcome) {
    exec.Finished? && exec.items == Executed(dry)
  }

  /** What a dry run found at the key, or did not find, is so in store t. */
  ghost predicate Finds(w: World, c: Candidate, item: Item, t: Stores) {
    (item.status.WouldMigrate? ==> c.storageKey !in t.Of(c.kind)) && Stands(w, c, item, t)
  }

  lemma PredictStep(w: World, c: Candidate, s: Stores, t: Stores)
    requires Reliable(w) && MigrateOne(DryRun, w, c, s).Reported?
    ensures var dry, exec := MigrateOne(DryRun, w, c, s), MigrateOne(Execute, w, c, t);
            && dry.stores == s && Finds(w, c, dry.item, s)
            && (exec.Reported? && exec.item == ExecutedItem(dry.item) <==>
                Finds(w, c, dry.item, t) && !WouldBeEmpty(w, c, dry.item))
            && (exec.Thrown? ==> c.storageKey !in t.Of(c.kind) && SourceOf(w, c) == Some([]))
            && (dry.item.status.WouldMigrate? && c.storageKey !in t.Of(c.kind) ==>
                  if WouldBeEmpty(w, c, dry.item) then exec.Thrown?
                  else exec.stores == AfterPut(c, t, w.backend(c.kind, c.storageKey, SourceOf(w, c).value)))
            && (!dry.item.status.WouldMigrate? && (ReportsObject(c, dry.item) ==> c.storageKey in t.Of(c.kind)) ==>
                  exec.Reported? && exec.stores == t)
  {
    SideKeyInjective(c.storageKey, c.storageKey);
  }

  /** What the object of c and its side file do to what another candidate will find. */
  lemma PutChangesFindings(w: World, c: Candidate, item: Item, other: Candidate, otherItem: Item, t: Stores)
    requires Reliable(w) && SourceOf(w, c).Some? && item.status.WouldMigrate?
    requires c.kind == other.kind && c.storageKey == other.storageKey ==> !ReportsObject(other, otherItem)
    ensures var t' := AfterPut(c, t, w.backend(c.kind, c.storageKey, SourceOf(w, c).value));
            if otherItem.status.WouldMigrate? then
              Finds(w, other, otherItem, t') <==>
              Finds(w, other, otherItem, t) && !Conflict(w, c, item, other, otherItem)
            else if SideFalls(w, c, other) then
              Finds(w, other, otherItem, t') <==> !Conflict(w, c, item, other, otherItem)
            else
              !Conflict(w, c, item, other, otherItem) &&
              (Finds(w, other, otherItem, t') <==> Finds(w, other, otherItem, t))
  {
    SideKeyInjective(c.storageKey, c.storageKey);
  }

  /** Some earlier candidate would be migrated and write its side file on this one's key. */
  ghost predicate SideAwaited(w: World, cs: seq<Candidate>, items: seq<Item>, j: nat)
  {
    && j < |cs| == |items|
    && exists i | 0 <= i < j :: items[i].status.WouldMigrate? && SideFalls(w, cs[i], cs[j])
  }

  ghost predicate FoundAt(w: World, cs: seq<Candidate>, items: seq<Item>, t: Stores, j: nat)
  {
    && j < |cs| == |items|
    && (Finds(w, cs[j], items[j], t) || (!items[j].status.WouldMigrate? && SideAwaited(w, cs, items, j)))
  }

  /** The condition under which a run from t does what the dry report says. */
  ghost predicate AsFound(w: World, cs: seq<Candidate>, items: seq<Item>, t: Stores)
  {
    && |items| == |cs|
    && forall j | 0 <= j < |cs| :: FoundAt(w, cs, items, t, j)
  }

  /** The keys of files to migrate were not there, those of reported objects were. */
  ghost predicate DryFacts(w: World, cs: seq<Candidate>, items: seq<Item>)
  {
    && |items| == |cs|
    && (forall i | 0 <= i < |cs| && items[i].status.WouldMigrate? :: SourceOf(w, cs[i]).Some?)
    && (forall i, j | 0 <= i < |cs| && 0 <= j < |cs| ::
          items[i].status.WouldMigrate? && ReportsObject(cs[j], items[j]) ==>
          !(cs[i].kind == cs[j].kind && cs[i].storageKey == cs[j].storageKey))
  }

  lemma DryRunFinds(w: World, cs: seq<Candidate>, s: Stores)
    requires Migrate(DryRun, w, cs, s).Finished?
    ensures var items := Migrate(DryRun, w, cs, s).items;
            && |items| == |cs| && DryFacts(w, cs, items)
            && forall i | 0 <= i < |cs| :: Finds(w, cs[i], items[i], s)
  {
    DryRunWritesNothing(w, cs, s);
    PutsFollowCandidates(DryRun, w, cs, s);
    ItemsStandUnlessSpoiled(DryRun, w, cs, s);
    PutsComeFromTheBackend(DryRun, w, cs, s);
    ReportIsTrueAtTheEnd(DryRun, w, cs, s);
    var items := Migrate(DryRun, w, cs, s).items;
    forall i | 0 <= i < |cs| ensures Finds(w, cs[i], items[i], s) {
      assert Tells(DryRun, w, cs[i], items[i], s, s);
    }
  }

  /** What is left to be found once candidate c has had its turn as predicted. */
  function NextStores(w: World, c: Candidate, item: Item, t: Stores): Stores {
    if item.status.WouldMigrate? && SourceOf(w, c).Some?
    then AfterPut(c, t, w.backend(c.kind, c.storageKey, SourceOf(w, c).value)) else t
  }

  lemma AwaitedShifts(w: World, cs: seq<Candidate>, items: seq<Item>, j: nat)
    requires 0 < j < |cs| == |items|
    ensures SideAwaited(w, cs, items, j) <==>
            SideAwaited(w, cs[1..], items[1..], j - 1) || (items[0].status.WouldMigrate? && SideFalls(w, cs[0], cs[j]))
  {
    var rest, restItems := cs[1..], items[1..];
    if SideAwaited(w, cs, items, j) {
      var i :| 0 <= i < j && items[i].status.WouldMigrate? && SideFalls(w, cs[i], cs[j]);
      assert i > 0 ==> restItems[i - 1].status.WouldMigrate? && SideFalls(w, rest[i - 1], rest[j - 1]);
    }
    if SideAwaited(w, rest, restItems, j - 1) {
      var i :| 0 <= i < j - 1 && restItems[i].status.WouldMigrate? && SideFalls(w, rest[i], rest[j - 1]);
      assert items[i + 1].status.WouldMigrate? && SideFalls(w, cs[i + 1], cs[j]);
    }
  }

  lemma NoConflictsShifts(w: World, cs: seq<Candidate>, items: seq<Item>)
    requires |cs| == |items| && cs != []
    ensures NoConflicts(w, cs, items) <==>
            && NoConflicts(w, cs[1..], items[1..])
            && forall j | 0 < j < |cs| :: !Conflict(w, cs[0], items[0], cs[j], items[j])
  {
    var rest, restItems := cs[1..], items[1..];
    assert forall j | 0 < j < |cs| :: cs[j] == rest[j - 1] && items[j] == restItems[j - 1];
    assert forall j | 0 <= j < |rest| :: rest[j] == cs[j + 1] && restItems[j] == items[j + 1];
  }

  /** Two candidates with one side key have one key. */
  lemma NotAwaitedTwice(w: World, cs: seq<Candidate>, items: seq<Item>, t: Stores, j: nat)
    requires Reliable(w) && 0 < j < |cs| == |items| && DryFacts(w, cs, items)
    requires items[0].status.WouldMigrate? && SideFalls(w, cs[0], cs[j])
    requires forall i | 0 < i < |cs| && items[i].status.WouldMigrate? ::
               Finds(w, cs[i], items[i], NextStores(w, cs[0], items[0], t))
    ensures !SideAwaited(w, cs[1..], items[1..], j - 1)
  {
    var rest, restItems := cs[1..], items[1..];
    SideKeyInjective(cs[0].storageKey, cs[0].storageKey);
    forall i | 0 <= i < j - 1 && restItems[i].status.WouldMigrate? ensures !SideFalls(w, rest[i], rest[j - 1]) {
      assert Finds(w, cs[i + 1], items[i + 1], NextStores(w, cs[0], items[0], t));
      SideKeyInjective(cs[0].storageKey, rest[i].storageKey);
    }
  }

  lemma FoundAtShifts(w: World, cs: seq<Candidate>, items: seq<Item>, t: Stores, j: nat)
    requires Reliable(w) && 0 < j < |cs| == |items| && DryFacts(w, cs, items)
    requires forall i | 0 < i < |cs| && items[i].status.WouldMigrate? ::
               Finds(w, cs[i], items[i], NextStores(w, cs[0], items[0], t))
    ensures FoundAt(w, cs[1..], items[1..], NextStores(w, cs[0], items[0], t), j - 1) <==>
            FoundAt(w, cs, items, t, j) && !Conflict(w, cs[0], items[0], cs[j], items[j])
  {
    AwaitedShifts(w, cs, items, j);
    if items[0].status.WouldMigrate? {
      PutChangesFindings(w, cs[0], items[0], cs[j], items[j], t);
      if SideFalls(w, cs[0], cs[j]) {
        NotAwaitedTwice(w, cs, items, t, j);
      }
    }
  }

  lemma AsFoundShifts(w: World, cs: seq<Candidate>, items: seq<Item>, t: Stores)
    requires Reliable(w) && |cs| == |items| && cs != [] && DryFacts(w, cs, items)
    requires Finds(w, cs[0], items[0], t)
    ensures AsFound(w, cs, items, t) && NoConflicts(w, cs, items) <==>
            AsFound(w, cs[1..], items[1..], NextStores(w, cs[0], items[0], t)) && NoConflicts(w, cs[1..], items[1..])
  {
    var t' := NextStores(w, cs[0], items[0], t);
    var rest, restItems := cs[1..], items[1..];
    NoConflictsShifts(w, cs, items);
    forall j | 0 < j < |cs| && items[j].status.WouldMigrate?
      ensures Finds(w, cs[j], items[j], t') <==>
              Finds(w, cs[j], items[j], t) && !Conflict(w, cs[0], items[0], cs[j], items[j])
    {
      if items[0].status.WouldMigrate? {
        PutChangesFindings(w, cs[0], items[0], cs[j], items[j], t);
      }
    }
    if AsFound(w, cs, items, t) && NoConflicts(w, cs, items) {
      forall j | 0 < j < |cs| && items[j].status.WouldMigrate? ensures Finds(w, cs[j], items[j], t') {
        assert FoundAt(w, cs, items, t, j);
      }
      forall j | 0 <= j < |rest| ensures FoundAt(w, rest, restItems, t', j) {
        assert FoundAt(w, cs, items, t, j + 1);
        FoundAtShifts(w, cs, items, t, j + 1);
      }
    }
    if AsFound(w, rest, restItems, t') && NoConflicts(w, rest, restItems) {
      forall j | 0 < j < |cs| && items[j].status.WouldMigrate? ensures Finds(w, cs[j], items[j], t') {
        assert FoundAt(w, rest, restItems, t', j - 1);
      }
      forall j | 0 < j < |cs|
        ensures FoundAt(w, cs, items, t, j) && !Conflict(w, cs[0], items[0], cs[j], items[j])
      {
        assert FoundAt(w, rest, restItems, t', j - 1);
        FoundAtShifts(w, cs, items, t, j);
      }
    }
  }

  lemma NoneEmptyShifts(w: World, cs: seq<Candidate>, items: seq<Item>)
    requires |cs| == |items| && cs != []
    ensures NoneEmpty(w, cs, items) <==> NoneEmpty(w, cs[1..], items[1..]) && !WouldBeEmpty(w, cs[0], items[0])
  {
    var rest, restItems := cs[1..], items[1..];
    assert forall j | 0 < j < |cs| :: cs[j] == rest[j - 1] && items[j] == restItems[j - 1];
    assert forall j | 0 <= j < |rest| :: rest[j] == cs[j + 1] && restItems[j] == items[j + 1];
  }

  lemma PredictsFirst(dry: seq<Item>, item: Item, exec: Outcome)
    requires dry != []
    ensures Predicts(dry, Continue([item], exec)) <==> item == ExecutedItem(dry[0]) && Predicts(dry[1..], exec)
  {
    if exec.Finished? {
      var items := [item] + exec.items;
      assert items[0] == item && items[1..] == exec.items;
      assert Executed(dry)[1..] == Executed(dry[1..]);
      assert Executed(dry) == [ExecutedItem(dry[0])] + Executed(dry)[1..];
    }
  }

  lemma {:induction false} PredictsFrom(w: World, cs: seq<Candidate>, s: Stores, t: Stores)
    requires Reliable(w) && Migrate(DryRun, w, cs, s).Finished?
    ensures var items := Migrate(DryRun, w, cs, s).items;
            && |items| == |cs|
            && (Predicts(items, Migrate(Execute, w, cs, t)) <==>
                NoneEmpty(w, cs, items) && AsFound(w, cs, items, t) && NoConflicts(w, cs, items))
  {
    DryRunFinds(w, cs, s);
    if cs == [] {
    } else {
      var items := Migrate(DryRun, w, cs, s).items;
      PredictStep(w, cs[0], s, t);
      NoneEmptyShifts(w, cs, items);
      assert items[1..] == Migrate(DryRun, w, cs[1..], s).items;
      if Finds(w, cs[0], items[0], t) {
        AsFoundShifts(w, cs, items, t);
        if !WouldBeEmpty(w, cs[0], items[0]) {
          PredictsFirst(items, MigrateOne(Execute, w, cs[0], t).item,
                        Migrate(Execute, w, cs[1..], NextStores(w, cs[0], items[0], t)));
          PredictsFrom(w, cs[1..], s, NextStores(w, cs[0], items[0], t));
        }
      } else {
        NotFoundNotPredicted(w, cs, items, t);
      }
    }
  }

  lemma NotFoundNotPredicted(w: World, cs: seq<Candidate>, items: seq<Item>, t: Stores)
    requires |items| == |cs| && cs != [] && !Finds(w, cs[0], items[0], t)
    requires MigrateOne(Execute, w, cs[0], t).Reported? ==>
               MigrateOne(Execute, w, cs[0], t).item != ExecutedItem(items[0])
    ensures !AsFound(w, cs, items, t) && !Predicts(items, Migrate(Execute, w, cs, t))
  {
    var step := MigrateOne(Execute, w, cs[0], t);
    assert !FoundAt(w, cs, items, t, 0);
    if step.Reported? {
      PredictsFirst(items, step.item, Migrate(Execute, w, cs[1..], step.stores));
    }
  }

  lemma {:induction false} ThrowsAreShared(w: World, cs: seq<Candidate>, s: Stores, t: Stores)
    requires Migrate(DryRun, w, cs, s).Aborted?
    ensures Migrate(Execute, w, cs, t).Aborted?
  {
    if cs == [] {
    } else {
      var dry, exec := MigrateOne(DryRun, w, cs[0], s), MigrateOne(Execute, w, cs[0], t);
      if dry.Reported? && exec.Reported? {
        ThrowsAreShared(w, cs[1..], s, exec.stores);
      }
    }
  }

  lemma {:induction false} OnlyEmptyFilesThrow(w: World, cs: seq<Candidate>, s: Stores, t: Stores)
    requires Reliable(w) && Migrate(DryRun, w, cs, s).Finished? && KeysWithin(s, t)
    ensures |Migrate(DryRun, w, cs, s).items| == |cs|
    ensures Migrate(Execute, w, cs, t).Aborted? ==> !NoneEmpty(w, cs, Migrate(DryRun, w, cs, s).items)
  {
    PutsFollowCandidates(DryRun, w, cs, s);
    if cs == [] {
    } else {
      var items, exec := Migrate(DryRun, w, cs, s).items, MigrateOne(Execute, w, cs[0], t);
      PredictStep(w, cs[0], s, t);
      NoneEmptyShifts(w, cs, items);
      assert items[1..] == Migrate(DryRun, w, cs[1..], s).items;
      if exec.Reported? {
        StepStores(Execute, w, cs[0], t);
        OnlyEmptyFilesThrow(w, cs[1..], s, exec.stores);
      }
    }
  }

  lemma {:induction false} EmptyFilesThrow(w: World, cs: seq<Candidate>, s: Stores, t: Stores)
    requires Reliable(w) && Migrate(DryRun, w, cs, s).Finished?
    requires var items := Migrate(DryRun, w, cs, s).items;
             |items| == |cs| && AsFound(w, cs, items, t) && NoConflicts(w, cs, items) && !NoneEmpty(w, cs, items)
    ensures Migrate(Execute, w, cs, t).Aborted?
  {
    var items := Migrate(DryRun, w, cs, s).items;
    DryRunFinds(w, cs, s);
    PredictStep(w, cs[0], s, t);
    assert FoundAt(w, cs, items, t, 0);
    if WouldBeEmpty(w, cs[0], items[0]) {
    } else {
      NoneEmptyShifts(w, cs, items);
      AsFoundShifts(w, cs, items, t);
      assert items[1..] == Migrate(DryRun, w, cs[1..], s).items;
      EmptyFilesThrow(w, cs[1..], s, NextStores(w, cs[0], items[0], t));
    }
  }

  /** Over reliable stores a dry run that returns predicts execute item for item, with `would_migrate` for
      `migrated`, exactly when, by its own report, no file to migrate is empty and no file to migrate gets
      in the way of another candidate.  An execute run throws where the dry run throws, and otherwise only
      on empty files; with nothing in the way, exactly when there is one. */
  lemma DryRunPredictsExecute(w: World, cs: seq<Candidate>, s: Stores)
    requires Reliable(w)
    ensures var dry, exec := Migrate(DryRun, w, cs, s), Migrate(Execute, w, cs, s);
            if dry.Aborted? then exec.Aborted?
            else
              && |dry.items| == |cs|
              && (Predicts(dry.items, exec) <==> NoneEmpty(w, cs, dry.items) && NoConflicts(w, cs, dry.items))
              && (exec.Aborted? ==> !NoneEmpty(w, cs, dry.items))
              && (NoConflicts(w, cs, dry.items) ==> (exec.Finished? <==> NoneEmpty(w, cs, dry.items)))
  {
    var dry := Migrate(DryRun, w, cs, s);
    if dry.Aborted? {
      ThrowsAreShared(w, cs, s, s);
    } else {
      DryRunFinds(w, cs, s);
      assert AsFound(w, cs, dry.items, s);
      PredictsFrom(w, cs, s, s);
      OnlyEmptyFilesThrow(w, cs, s, s);
      if NoConflicts(w, cs, dry.items) && !NoneEmpty(w, cs, dry.items) {
        EmptyFilesThrow(w, cs, s, s);
      }
    }
  }

  /** Without side files only a shared key gets in the way: then the condition is that no two files to
      migrate share (kind, key). */
  lemma ConflictsWithoutSideFiles(w: World, cs: seq<Candidate>, items: seq<Item>)
    requires NoSideFiles(w) && |items| == |cs|
    ensures NoConflicts(w, cs, items) <==>
            forall i, j | 0 <= i < j < |cs| && items[i].status.WouldMigrate? && items[j].status.WouldMigrate? ::
              cs[i].kind != cs[j].kind || cs[i].storageKey != cs[j].storageKey
  {
    forall i, j | 0 <= i < j < |cs| ensures !SideFalls(w, cs[i], cs[j]) {}
  }

  // ---- Bounds --------------------------------------------------------------------------------------

  lemma {:induction false} CountFirst(item: Item, rest: seq<Item>, status: Status)
    ensures Count([item] + rest, status) == (if item.status == status then 1 else 0) + Count(rest, status)
  {
    var all := [item] + rest;
    if rest == [] {
      assert all[..0] == [];
    } else {
      assert all[..|all| - 1] == [item] + rest[..|rest| - 1];
      CountFirst(item, rest[..|rest| - 1], status);
    }
  }

  ghost predicate AlwaysBounds(dry: seq<Item>, exec: seq<Item>) {
    Count(exec, Migrated) <= Count(dry, WouldMigrate) && Count(exec, MissingSource) == Count(dry, MissingSource)
  }

  ghost predicate Bounds(dry: seq<Item>, exec: seq<Item>) {
    && AlwaysBounds(dry, exec)
    && Count(dry, Mismatch) <= Count(exec, Mismatch)
    && Count(dry, SkippedExisting) <= Count(exec, SkippedExisting)
  }

  lemma BoundsExtend(d: Item, dry: seq<Item>, e: Item, exec: seq<Item>)
    requires !e.status.WouldMigrate? && !d.status.Migrated?
    requires d.status.MissingSource? <==> e.status.MissingSource?
    requires e.status.Migrated? ==> d.status.WouldMigrate?
    ensures AlwaysBounds(dry, exec) ==> AlwaysBounds([d] + dry, [e] + exec)
    ensures Bounds(dry, exec) && (d.status == e.status || d.status.WouldMigrate?) ==> Bounds([d] + dry, [e] + exec)
  {
    CountFirst(e, exec, Migrated);
    CountFirst(d, dry, WouldMigrate);
    CountFirst(e, exec, MissingSource);
    CountFirst(d, dry, MissingSource);
    CountFirst(e, exec, Mismatch);
    CountFirst(d, dry, Mismatch);
    CountFirst(e, exec, SkippedExisting);
    CountFirst(d, dry, SkippedExisting);
  }

  lemma BoundsStep(w: World, later: World, c: Candidate, s: Stores, t: Stores)
    requires SameSources(w, later) && KeysWithin(s, t)
    requires MigrateOne(DryRun, w, c, s).Reported? && MigrateOne(Execute, later, c, t).Reported?
    ensures var d, e := MigrateOne(DryRun, w, c, s), MigrateOne(Execute, later, c, t);
            && d.stores == s && KeysWithin(s, e.stores)
            && !e.item.status.WouldMigrate? && !d.item.status.Migrated?
            && (d.item.status.MissingSource? <==> e.item.status.MissingSource?)
            && (e.item.status.Migrated? ==> d.item.status.WouldMigrate?)
            && (ReportsObject(c, d.item) ==> c.storageKey in s.Of(c.kind) && Stands(w, c, d.item, s))
            && (!d.item.status.WouldMigrate? ==> (e.item == d.item <==> Stands(w, c, d.item, t)))
  {
    StepStores(Execute, later, c, t);
  }

  /** Execute repeats whatever the dry run did not want to migrate. */
  ghost predicate Repeats(dry: seq<Item>, exec: seq<Item>) {
    |dry| == |exec| && forall i | 0 <= i < |dry| && !dry[i].status.WouldMigrate? :: exec[i] == dry[i]
  }

  lemma RepeatsFirst(d: Item, dry: seq<Item>, e: Item, exec: seq<Item>)
    requires Repeats([d] + dry, [e] + exec)
    ensures Repeats(dry, exec) && (d.status.WouldMigrate? || e == d)
  {
    var longDry, longExec := [d] + dry, [e] + exec;
    assert forall i | 0 <= i < |dry| :: dry[i] == longDry[i + 1] && exec[i] == longExec[i + 1];
    assert longDry[0] == d && longExec[0] == e;
  }

  lemma {:induction false} DryRunBoundsFrom(w: World, later: World, cs: seq<Candidate>, s: Stores, t: Stores)
    requires SameSources(w, later) && KeysWithin(s, t)
    requires Migrate(DryRun, w, cs, s).Finished? && Migrate(Execute, later, cs, t).Finished?
    ensures var dry, exec := Migrate(DryRun, w, cs, s).items, Migrate(Execute, later, cs, t).items;
            AlwaysBounds(dry, exec) && (Repeats(dry, exec) ==> Bounds(dry, exec))
  {
    if cs == [] {
    } else {
      var d, e := MigrateOne(DryRun, w, cs[0], s), MigrateOne(Execute, later, cs[0], t);
      BoundsStep(w, later, cs[0], s, t);
      DryRunBoundsFrom(w, later, cs[1..], s, e.stores);
      var dry, exec := Migrate(DryRun, w, cs[1..], s).items, Migrate(Execute, later, cs[1..], e.stores).items;
      if Repeats([d.item] + dry, [e.item] + exec) {
        RepeatsFirst(d.item, dry, e.item, exec);
      }
      BoundsExtend(d.item, dry, e.item, exec);
    }
  }

  /** Every earlier put that wrote its side file over the object reported for candidate i brought the hash
      that was reported. */
  ghost predicate HitsAgree(
    w: World, cs: seq<Candidate>, puts: seq<Option<PutEffect>>, i: nat, item: Item)
  {
    && i < |cs| == |puts|
    && forall j | 0 <= j < i && SideHits(cs[j], puts[j], cs[i].kind, cs[i].storageKey) ::
         item.destinationSha256 == Some(w.hash(puts[j].value.side.value))
  }

  ghost predicate AnyHit(cs: seq<Candidate>, puts: seq<Option<PutEffect>>, i: nat)
  {
    && i < |cs| == |puts|
    && exists j | 0 <= j < i :: SideHits(cs[j], puts[j], cs[i].kind, cs[i].storageKey)
  }

  lemma HitsAgreeShifts(
    w: World, cs: seq<Candidate>, puts: seq<Option<PutEffect>>, i: nat, item: Item)
    requires 0 < i < |cs| == |puts|
    ensures var hit := SideHits(cs[0], puts[0], cs[i].kind, cs[i].storageKey);
            && (HitsAgree(w, cs, puts, i, item) <==>
                HitsAgree(w, cs[1..], puts[1..], i - 1, item) &&
                (hit ==> item.destinationSha256 == Some(w.hash(puts[0].value.side.value))))
            && (AnyHit(cs, puts, i) <==> AnyHit(cs[1..], puts[1..], i - 1) || hit)
  {
    var rest, restPuts := cs[1..], puts[1..];
    assert forall j | 0 < j < |cs| :: cs[j] == rest[j - 1] && puts[j] == restPuts[j - 1];
    assert forall j | 0 <= j < |rest| :: rest[j] == cs[j + 1] && restPuts[j] == puts[j + 1];
    if j :| 0 <= j < i && SideHits(cs[j], puts[j], cs[i].kind, cs[i].storageKey) {
      assert j > 0 ==> SideHits(rest[j - 1], restPuts[j - 1], rest[i - 1].kind, rest[i - 1].storageKey);
    }
    if j :| 0 <= j < i - 1 && SideHits(rest[j], restPuts[j], rest[i - 1].kind, rest[i - 1].storageKey) {
      assert SideHits(cs[j + 1], puts[j + 1], cs[i].kind, cs[i].storageKey);
    }
  }

  /** The dry item of candidate i, as execute from t will find it. */
  ghost predicate WillStand(w: World, cs: seq<Candidate>, puts: seq<Option<PutEffect>>, i: nat, item: Item, t: Stores)
  {
    && i < |cs| == |puts|
    && (ReportsObject(cs[i], item) ==>
          HitsAgree(w, cs, puts, i, item) && (AnyHit(cs, puts, i) || Stands(w, cs[i], item, t)))
  }

  lemma WillStandShifts(w: World, later: World, cs: seq<Candidate>, i: nat, item: Item, t: Stores)
    requires SameSources(w, later) && Migrate(Execute, later, cs, t).Finished? && 0 < i < |cs|
    requires ReportsObject(cs[i], item) ==> cs[i].storageKey in t.Of(cs[i].kind)
    ensures var puts, t' := Puts(Execute, later, cs, t), MigrateOne(Execute, later, cs[0], t).stores;
            var rest := Puts(Execute, later, cs[1..], t');
            && |puts| == |cs| && |rest| == |cs| - 1
            && (WillStand(w, cs, puts, i, item, t) <==> WillStand(w, cs[1..], rest, i - 1, item, t'))
  {
    var puts, t' := Puts(Execute, later, cs, t), MigrateOne(Execute, later, cs[0], t).stores;
    var rest, kind, key := Puts(Execute, later, cs[1..], t'), cs[i].kind, cs[i].storageKey;
    PutsFollowCandidates(Execute, later, cs, t);
    HitsShift(Execute, later, cs, t, kind, key);
    HitsAgreeShifts(w, cs, puts, i, item);
    assert cs[1..][i - 1] == cs[i];
    if ReportsObject(cs[i], item) {
      StepObject(Execute, later, cs[0], t, kind, key);
      if SideHits(cs[0], puts[0], kind, key) {
        HitsOnce(Execute, later, cs, t, kind, key);
        assert !AnyHit(cs[1..], rest, i - 1);
      }
    }
  }

  lemma {:induction false} ItemsRepeatFrom(w: World, later: World, cs: seq<Candidate>, s: Stores, t: Stores)
    requires SameSources(w, later) && KeysWithin(s, t)
    requires Migrate(DryRun, w, cs, s).Finished? && Migrate(Execute, later, cs, t).Finished?
    ensures var dry, exec := Migrate(DryRun, w, cs, s).items, Migrate(Execute, later, cs, t).items;
            var puts := Puts(Execute, later, cs, t);
            && |dry| == |exec| == |puts| == |cs|
            && forall i | 0 <= i < |cs| ::
                 && (ReportsObject(cs[i], dry[i]) ==> Stands(w, cs[i], dry[i], s))
                 && (!dry[i].status.WouldMigrate? ==>
                       (exec[i] == dry[i] <==> WillStand(w, cs, puts, i, dry[i], t)))
  {
    PutsFollowCandidates(DryRun, w, cs, s);
    PutsFollowCandidates(Execute, later, cs, t);
    if cs == [] {
    } else {
      var e := MigrateOne(Execute, later, cs[0], t);
      BoundsStep(w, later, cs[0], s, t);
      ItemsRepeatFrom(w, later, cs[1..], s, e.stores);
      var dry, exec := Migrate(DryRun, w, cs, s).items, Migrate(Execute, later, cs, t).items;
      var puts := Puts(Execute, later, cs, t);
      assert !AnyHit(cs, puts, 0);
      forall i | 0 < i < |cs|
        ensures ReportsObject(cs[i], dry[i]) ==> Stands(w, cs[i], dry[i], s)
        ensures !dry[i].status.WouldMigrate? ==>
                  (exec[i] == dry[i] <==> WillStand(w, cs, puts, i, dry[i], t))
      {
        assert cs[i] == cs[1..][i - 1] && dry[i] == dry[1..][i - 1] && exec[i] == exec[1..][i - 1];
        assert dry[1..] == Migrate(DryRun, w, cs[1..], s).items;
        assert exec[1..] == Migrate(Execute, later, cs[1..], e.stores).items;
        WillStandShifts(w, later, cs, i, dry[i], t);
      }
    }
  }

  /** No earlier put of the execute run wrote a side file of another hash over an object that the dry run
      reported for candidate i. */
  ghost predicate Undisturbed(
    w: World, cs: seq<Candidate>, dry: seq<Item>, puts: seq<Option<PutEffect>>, i: nat)
  {
    && i < |cs| == |dry| == |puts|
    && (ReportsObject(cs[i], dry[i]) ==> HitsAgree(w, cs, puts, i, dry[i]))
  }

  lemma ItemsRepeatIff(w: World, later: World, cs: seq<Candidate>, s: Stores)
    requires SameSources(w, later)
    requires Migrate(DryRun, w, cs, s).Finished? && Migrate(Execute, later, cs, s).Finished?
    ensures var dry, exec := Migrate(DryRun, w, cs, s).items, Migrate(Execute, later, cs, s).items;
            var puts := Puts(Execute, later, cs, s);
            && |dry| == |exec| == |puts| == |cs|
            && forall i | 0 <= i < |cs| && !dry[i].status.WouldMigrate? ::
                 exec[i] == dry[i] <==> Undisturbed(w, cs, dry, puts, i)
  {
    ItemsRepeatFrom(w, later, cs, s, s);
    var dry, puts := Migrate(DryRun, w, cs, s).items, Puts(Execute, later, cs, s);
    forall i | 0 <= i < |cs| ensures WillStand(w, cs, puts, i, dry[i], s) <==> Undisturbed(w, cs, dry, puts, i) {}
  }

  lemma NothingOverwrittenNothingDisturbed(w: World, later: World, cs: seq<Candidate>, s: Stores)
    requires SameSources(w, later)
    requires Migrate(DryRun, w, cs, s).Finished? && Migrate(Execute, later, cs, s).Finished?
    requires Under(s, Migrate(Execute, later, cs, s).stores)
    ensures var dry, puts := Migrate(DryRun, w, cs, s).items, Puts(Execute, later, cs, s);
            && |dry| == |puts| == |cs|
            && forall i | 0 <= i < |cs| :: Undisturbed(w, cs, dry, puts, i)
  {
    ItemsRepeatFrom(w, later, cs, s, s);
    UnderMeans(s, Migrate(Execute, later, cs, s).stores);
    var dry, puts := Migrate(DryRun, w, cs, s).items, Puts(Execute, later, cs, s);
    forall i | 0 <= i < |cs| ensures Undisturbed(w, cs, dry, puts, i) {
      if ReportsObject(cs[i], dry[i]) {
        FinalObject(Execute, later, cs, s, cs[i].kind, cs[i].storageKey);
      }
    }
  }

  /** With shared targets, faulty backends or side files, a dry run still bounds an execute run that returns.
      Item by item, execute repeats what the dry run did not want to migrate exactly where no side file of
      another hash came first.  What is migrated and missing is bounded always; the rest is if every such
      item is repeated, and in particular if execute overwrote nothing. */
  lemma DryRunBoundsExecute(w: World, later: World, cs: seq<Candidate>, s: Stores)
    requires SameSources(w, later)
    requires Migrate(DryRun, w, cs, s).Finished? && Migrate(Execute, later, cs, s).Finished?
    ensures var dry, exec := Migrate(DryRun, w, cs, s).items, Migrate(Execute, later, cs, s);
            var puts := Puts(Execute, later, cs, s);
            && |dry| == |exec.items| == |puts| == |cs|
            && (forall i | 0 <= i < |cs| && !dry[i].status.WouldMigrate? ::
                  exec.items[i] == dry[i] <==> Undisturbed(w, cs, dry, puts, i))
            && AlwaysBounds(dry, exec.items)
            && ((forall i | 0 <= i < |cs| :: Undisturbed(w, cs, dry, puts, i)) ==> Bounds(dry, exec.items))
            && (Under(s, exec.stores) ==> forall i | 0 <= i < |cs| :: Undisturbed(w, cs, dry, puts, i))
  {
    ItemsRepeatIff(w, later, cs, s);
    DryRunBoundsFrom(w, later, cs, s, s);
    if Under(s, Migrate(Execute, later, cs, s).stores) {
      NothingOverwrittenNothingDisturbed(w, later, cs, s);
    }
  }

  /** How a bound fails: "a" is to be migrated, and its side file falls on the key of the next candidate,
      whose object is there.  The dry run judges that object, execute the side file. */
  lemma SideFileBreaksBounds(w: World, c: Candidate, d: Candidate, before: Bytes)
    requires Reliable(w) && ValidKey(c.storageKey) && ValidKey(d.storageKey)
    requires d.storageKey == SideKey(c.storageKey) && c.kind.Photo? && d.kind.Photo?
    requires c.expectedSha256.None? && d.expectedSha256.None?
    requires SourceOf(w, c).Some? && SourceOf(w, c) != Some([]) && SourceOf(w, d).Some? && SideOf(w, c).Some?
    ensures var s := Stores(map[d.storageKey := before], map[]);
            var dry, exec := Migrate(DryRun, w, [c, d], s), Migrate(Execute, w, [c, d], s);
            var source, side := w.hash(SourceOf(w, d).value), w.hash(SideOf(w, c).value);
            && dry.Finished? && exec.Finished? && |dry.items| == |exec.items| == 2
            && dry.items[0].status.WouldMigrate? && exec.items[0].status.Migrated?
            && dry.items[1].status == (if w.hash(before) == source then SkippedExisting else Mismatch)
            && exec.items[1].status == (if side == source then SkippedExisting else Mismatch)
            && ((w.hash(before) == source) != (side == source) ==> !Bounds(dry.items, exec.items))
  {
    var s := Stores(map[d.storageKey := before], map[]);
    assert [c, d][0] == c && [c, d][1..] == [d];
    SideKeyInjective(c.storageKey, c.storageKey);
    var first := MigrateOne(Execute, w, c, s);
    StepStores(Execute, w, c, s);
    RunOfOne(Execute, w, d, first.stores);
    RunOfOne(DryRun, w, d, s);
    var dry, exec := Migrate(DryRun, w, [c, d], s), Migrate(Execute, w, [c, d], s);
    assert dry.items == [dry.items[0], dry.items[1]] && exec.items == [exec.items[0], exec.items[1]];
    CountOfTwo(dry.items[0], dry.items[1], Mismatch);
    CountOfTwo(dry.items[0], dry.items[1], SkippedExisting);
    CountOfTwo(exec.items[0], exec.items[1], Mismatch);
    CountOfTwo(exec.items[0], exec.items[1], SkippedExisting);
  }

  lemma CountOfTwo(a: Item, b: Item, status: Status)
    ensures Count([a, b], status) == (if a.status == status then 1 else 0) + if b.status == status then 1 else 0
  {
    assert [a] + [b] == [a, b] && [b] + [] == [b];
    CountFirst(a, [b], status);
    CountFirst(b, [], status);
  }

  /** Two files for one key both would migrate, yet only one does. */
  lemma SharedTargetDiverges(w: World, c: Candidate, d: Candidate)
    requires Reliable(w) && c.kind == d.kind && c.storageKey == d.storageKey && ValidKey(c.storageKey)
    requires c.expectedSha256.None? && d.expectedSha256.None?
    requires SourceOf(w, c).Some? && SourceOf(w, d).Some? && SourceOf(w, c) != Some([])
    requires w.hash(SourceOf(w, c).value) != w.hash(SourceOf(w, d).value)
    ensures var none := Stores(map[], map[]);
            var dry, exec := Migrate(DryRun, w, [c, d], none), Migrate(Execute, w, [c, d], none);
            && dry.Finished? && exec.Finished? && |dry.items| == |exec.items| == 2
            && dry.items[0].status == dry.items[1].status == WouldMigrate
            && exec.items[0].status == Migrated && exec.items[1].status == Mismatch
  {
    assert [c, d][1..] == [d] && [d][1..] == [];
    var none := Stores(map[], map[]);
    SideKeyInjective(c.storageKey, c.storageKey);
    var first := MigrateOne(Execute, w, c, none);
    var second := MigrateOne(Execute, w, d, first.stores);
    assert Migrate(Execute, w, [d], first.stores) == Finished([second.item], second.stores);
    assert Migrate(DryRun, w, [d], none).Finished?;
  }
}
