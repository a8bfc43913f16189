/**
 * service/audio_store.rs and the import and reconcile paths of service.rs, run one at a time: the stored names, what
 * an import leaves behind when a step fails, and exactly which files a reconcile keeps.
 */
module AudioStore {
  import opened Domain
  import opened MachineInts
  import opened ManifestPaths

  type Bytes = seq<int>

  // Names

  const IMPORT_TEMP_PREFIX := ".lifesub-import-"
  const IMPORT_TEMP_SUFFIX := ".tmp"
  const AUDIO_DIRECTORY := "audio"
  const DEFAULT_AUDIO_EXTENSION := "audio"
  const MAX_AUDIO_EXTENSION_BYTES := 16

  predicate LowerOrDigit(c: char) {
    'a' <= c <= 'z' || '0' <= c <= '9'
  }

  predicate IsDigest(text: string) {
    |text| == 64 && AllHex(text)
  }

  predicate IsChunkId(text: string) {
    "chk_" <= text && |text| == 36 && AllHex(text[4..])
  }

  predicate IsCanonicalExtension(text: string) {
    0 < |text| <= MAX_AUDIO_EXTENSION_BYTES && forall i :: 0 <= i < |text| ==> LowerOrDigit(text[i])
  }

  function AsciiLowercase(text: string): (r: string)
    ensures |r| == |text|
  {
    seq(|text|, i requires 0 <= i < |text| => if 'A' <= text[i] <= 'Z' then text[i] - 'A' + 'a' else text[i])
  }

  function CanonicalExtension(extension: Option<string>): (r: string)
    ensures IsCanonicalExtension(r)
  {
    if extension.Some? && IsCanonicalExtension(AsciiLowercase(extension.value)) then AsciiLowercase(extension.value)
    else DEFAULT_AUDIO_EXTENSION
  }

  function TempName(id: string): string {
    IMPORT_TEMP_PREFIX + id + IMPORT_TEMP_SUFFIX
  }

  function FinalName(digest: string, id: string, extension: string): string {
    digest + "-" + id + "." + extension
  }

  /** str::split_once. */
  function SplitOnce(text: string, c: char): Option<(string, string)> {
    if text == "" then None
    else if text[0] == c then Some(("", text[1..]))
    else match SplitOnce(text[1..], c)
      case None => None
      case Some((before, after)) => Some(([text[0]] + before, after))
  }

  /** str::rsplit_once. */
  function RSplitOnce(text: string, c: char): Option<(string, string)> {
    if text == "" then None
    else
      var last := |text| - 1;
      if text[last] == c then Some((text[..last], ""))
      else match RSplitOnce(text[..last], c)
        case None => None
        case Some((before, after)) => Some((before, after + [text[last]]))
  }

  /** A stored final name taken apart: digest, chunk id, extension. */
  function ParseFinal(name: string): Option<(string, string, string)> {
    match SplitOnce(name, '-')
    case None => None
    case Some((digest, remainder)) =>
      match RSplitOnce(remainder, '.')
      case None => None
      case Some((id, extension)) =>
        if IsDigest(digest) && IsChunkId(id) && IsCanonicalExtension(extension)
        then Some((digest, id, extension)) else None
  }

  predicate IsImportFinal(name: string) {
    ParseFinal(name).Some?
  }

  predicate IsImportTemp(name: string) {
    && |name| == |IMPORT_TEMP_PREFIX| + 36 + |IMPORT_TEMP_SUFFIX|
    && IMPORT_TEMP_PREFIX <= name
    && name[|name| - |IMPORT_TEMP_SUFFIX|..] == IMPORT_TEMP_SUFFIX
    && IsChunkId(name[|IMPORT_TEMP_PREFIX|..|name| - |IMPORT_TEMP_SUFFIX|])
  }

  predicate IsRecognizedImporterName(name: string) {
    IsImportTemp(name) || IsImportFinal(name)
  }

  predicate IsNativeFinalName(name: string) {
    match RSplitOnce(name, '.')
    case None => false
    case Some((id, extension)) =>
      && "chk_" <= id && 0 < |id| - 4 <= 64 && IsCanonicalExtension(extension)
      && forall i :: 4 <= i < |id| ==> LowerOrDigit(id[i]) || id[i] == '_'
  }

  lemma {:induction false} SplitOnceParts(text: string, c: char)
    ensures match SplitOnce(text, c)
            case None => c !in text
            case Some((before, after)) => c !in before && text == before + [c] + after
  {
    if text != "" && text[0] != c {
      SplitOnceParts(text[1..], c);
      assert text == [text[0]] + text[1..];
    }
  }

  lemma {:induction false} RSplitOnceParts(text: string, c: char)
    ensures match RSplitOnce(text, c)
            case None => c !in text
            case Some((before, after)) => c !in after && text == before + [c] + after
    decreases |text|
  {
    if text != "" && text[|text| - 1] != c {
      RSplitOnceParts(text[..|text| - 1], c);
      assert text == text[..|text| - 1] + [text[|text| - 1]];
    }
  }

  lemma {:induction false} SplitOnceAt(before: string, c: char, after: string)
    requires c !in before
    ensures SplitOnce(before + [c] + after, c) == Some((before, after))
  {
    var text := before + [c] + after;
    if before == "" {
      assert text[1..] == after;
    } else {
      SplitOnceAt(before[1..], c, after);
      assert text[1..] == before[1..] + [c] + after;
      assert before == [before[0]] + before[1..];
    }
  }

  lemma {:induction false} RSplitOnceAt(before: string, c: char, after: string)
    requires c !in after
    ensures RSplitOnce(before + [c] + after, c) == Some((before, after))
    decreases |after|
  {
    var text := before + [c] + after;
    if after == "" {
      assert text[..|text| - 1] == before;
    } else {
      var front := after[..|after| - 1];
      RSplitOnceAt(before, c, front);
      assert text[..|text| - 1] == before + [c] + front;
      assert after == front + [after[|after| - 1]];
    }
  }

  lemma HexHasNoSeparators(text: string)
    requires AllHex(text)
    ensures '-' !in text && '.' !in text
  {
    assert forall i :: 0 <= i < |text| ==> LowercaseHex(text[i]);
  }

  lemma FinalNameParses(digest: string, id: string, extension: string)
    requires IsDigest(digest) && IsChunkId(id) && IsCanonicalExtension(extension)
    ensures ParseFinal(FinalName(digest, id, extension)) == Some((digest, id, extension))
  {
    var remainder := id + "." + extension;
    HexHasNoSeparators(digest);
    SplitOnceAt(digest, '-', remainder);
    assert FinalName(digest, id, extension) == digest + ['-'] + remainder;
    RSplitOnceAt(id, '.', extension);
    assert remainder == id + ['.'] + extension;
  }

  lemma ParsedNamesAreFinal(name: string)
    requires IsImportFinal(name)
    ensures var (digest, id, extension) := ParseFinal(name).value;
            && IsDigest(digest) && IsChunkId(id) && IsCanonicalExtension(extension)
            && name == FinalName(digest, id, extension)
  {
    SplitOnceParts(name, '-');
    var (_, remainder) := SplitOnce(name, '-').value;
    RSplitOnceParts(remainder, '.');
  }

  lemma ChunkIdsAreSixteenBytes(id: string)
    ensures IsChunkId(id) <==> exists uuid: seq<Byte> :: |uuid| == 16 && id == "chk_" + Hex(uuid)
  {
    if IsChunkId(id) {
      HexTexts(id[4..], 16);
      var uuid: seq<Byte> :| |uuid| == 16 && Hex(uuid) == id[4..];
      assert id == "chk_" + Hex(uuid);
    }
    if uuid: seq<Byte> :| |uuid| == 16 && id == "chk_" + Hex(uuid) {
      HexPrintsHex(uuid);
      assert id[4..] == Hex(uuid);
    }
  }

  /** The stored names an import may have: the prints of 32 and of 16 bytes, and an extension, in this order. */
  lemma ImportFinalsAre(name: string)
    ensures IsImportFinal(name) <==> exists digest: seq<Byte>, uuid: seq<Byte>, extension ::
              && |digest| == 32 && |uuid| == 16 && IsCanonicalExtension(extension)
              && name == Hex(digest) + "-" + ("chk_" + Hex(uuid)) + "." + extension
  {
    if IsImportFinal(name) {
      ParsedNamesAreFinal(name);
      var (text, id, extension) := ParseFinal(name).value;
      HexTexts(text, 32);
      ChunkIdsAreSixteenBytes(id);
      var digest: seq<Byte> :| |digest| == 32 && Hex(digest) == text;
      var uuid: seq<Byte> :| |uuid| == 16 && id == "chk_" + Hex(uuid);
      assert name == Hex(digest) + "-" + ("chk_" + Hex(uuid)) + "." + extension;
    }
    if digest: seq<Byte>, uuid: seq<Byte>, extension :|
        && |digest| == 32 && |uuid| == 16 && IsCanonicalExtension(extension)
        && name == Hex(digest) + "-" + ("chk_" + Hex(uuid)) + "." + extension
    {
      HexPrintsHex(digest);
      ChunkIdsAreSixteenBytes("chk_" + Hex(uuid));
      FinalNameParses(Hex(digest), "chk_" + Hex(uuid), extension);
    }
  }

  /** And the temporary ones. */
  lemma ImportTempsAre(name: string)
    ensures IsImportTemp(name) <==> exists uuid: seq<Byte> ::
              |uuid| == 16 && name == ".lifesub-import-" + ("chk_" + Hex(uuid)) + ".tmp"
  {
    if IsImportTemp(name) {
      var id := name[|IMPORT_TEMP_PREFIX|..|name| - |IMPORT_TEMP_SUFFIX|];
      ChunkIdsAreSixteenBytes(id);
      var uuid: seq<Byte> :| |uuid| == 16 && id == "chk_" + Hex(uuid);
      assert name == IMPORT_TEMP_PREFIX + id + IMPORT_TEMP_SUFFIX;
    }
    if uuid: seq<Byte> :| |uuid| == 16 && name == ".lifesub-import-" + ("chk_" + Hex(uuid)) + ".tmp" {
      var id := "chk_" + Hex(uuid);
      ChunkIdsAreSixteenBytes(id);
      assert name[|IMPORT_TEMP_PREFIX|..|name| - |IMPORT_TEMP_SUFFIX|] == id;
      assert name[|name| - |IMPORT_TEMP_SUFFIX|..] == IMPORT_TEMP_SUFFIX;
    }
  }

  predicate NativeStem(stem: string) {
    0 < |stem| <= 64 && forall i :: 0 <= i < |stem| ==> 'a' <= stem[i] <= 'z' || '0' <= stem[i] <= '9' || stem[i] == '_'
  }

  /** And those of natively captured files. */
  lemma NativeFinalsAre(name: string)
    ensures IsNativeFinalName(name) <==> exists stem, extension ::
              NativeStem(stem) && IsCanonicalExtension(extension) && name == "chk_" + stem + "." + extension
  {
    if IsNativeFinalName(name) {
      RSplitOnceParts(name, '.');
      var (id, extension) := RSplitOnce(name, '.').value;
      assert id == "chk_" + id[4..];
      assert NativeStem(id[4..]);
      assert name == "chk_" + id[4..] + "." + extension;
    }
    if stem, extension :|
        NativeStem(stem) && IsCanonicalExtension(extension) && name == "chk_" + stem + "." + extension
    {
      RSplitOnceAt("chk_" + stem, '.', extension);
      assert name == ("chk_" + stem) + ['.'] + extension;
      assert ("chk_" + stem)[..4] == "chk_";
      assert forall i :: 4 <= i < |"chk_" + stem| ==> ("chk_" + stem)[i] == stem[i - 4];
    }
  }

  predicate Alphanumeric(c: char) {
    'a' <= c <= 'z' || 'A' <= c <= 'Z' || '0' <= c <= '9'
  }

  /**
   * A source's extension is kept, in lower case, exactly if it is one to sixteen letters and digits; otherwise the
   * stored file is called `.audio`.
   */
  lemma ExtensionsKept(text: string)
    ensures var r := CanonicalExtension(Some(text));
            if 1 <= |text| <= 16 && forall i :: 0 <= i < |text| ==> Alphanumeric(text[i]) then
              && |r| == |text|
              && forall i :: 0 <= i < |text| ==>
                   if 'A' <= text[i] <= 'Z' then r[i] as int == text[i] as int + 32 else r[i] == text[i]
            else r == "audio"
    ensures CanonicalExtension(None) == "audio"
    ensures IsCanonicalExtension(text) <==> CanonicalExtension(Some(text)) == text
  {
    var lower := AsciiLowercase(text);
    assert forall i :: 0 <= i < |text| ==> (LowerOrDigit(lower[i]) <==> Alphanumeric(text[i]));
  }

  /** Every final name an import writes is one the sweep recognizes, and it gives back what it was made of. */
  lemma StoredNameRoundTrip(digest: string, id: string, extension: Option<string>)
    requires IsDigest(digest) && IsChunkId(id)
    ensures ParseFinal(FinalName(digest, id, CanonicalExtension(extension)))
        == Some((digest, id, CanonicalExtension(extension)))
  {
    FinalNameParses(digest, id, CanonicalExtension(extension));
  }

  /** So two imports never share a final name. */
  lemma FinalNamesAreDistinct(digest: string, id: string, extension: Option<string>,
                              digest': string, id': string, extension': Option<string>)
    requires IsDigest(digest) && IsChunkId(id) && IsDigest(digest') && IsChunkId(id') && id != id'
    ensures FinalName(digest, id, CanonicalExtension(extension))
        != FinalName(digest', id', CanonicalExtension(extension'))
  {
    StoredNameRoundTrip(digest, id, extension);
    StoredNameRoundTrip(digest', id', extension');
  }

  lemma TempNameIsRecognized(id: string)
    requires IsChunkId(id)
    ensures IsImportTemp(TempName(id)) && !IsImportFinal(TempName(id))
  {
    var name := TempName(id);
    assert name[|IMPORT_TEMP_PREFIX|..|name| - |IMPORT_TEMP_SUFFIX|] == id;
    assert name[|name| - |IMPORT_TEMP_SUFFIX|..] == IMPORT_TEMP_SUFFIX;
    var rest := "import-" + id + IMPORT_TEMP_SUFFIX;
    SplitOnceAt(".lifesub", '-', rest);
    assert name == ".lifesub" + ['-'] + rest;
  }

  lemma TempIsNotNative(id: string)
    requires IsChunkId(id)
    ensures !IsNativeFinalName(TempName(id))
  {
    var front := IMPORT_TEMP_PREFIX + id;
    RSplitOnceAt(front, '.', "tmp");
    assert TempName(id) == front + ['.'] + "tmp";
    assert front[0] == '.';
  }

  /** No name an import writes is mistaken for a natively captured file. */
  lemma ImportNamesAreNotNative(digest: string, id: string, extension: Option<string>)
    requires IsDigest(digest) && IsChunkId(id)
    ensures !IsNativeFinalName(FinalName(digest, id, CanonicalExtension(extension)))
  {
    var ext := CanonicalExtension(extension);
    RSplitOnceAt(digest + "-" + id, '.', ext);
    assert FinalName(digest, id, ext) == (digest + "-" + id) + ['.'] + ext;
    assert LowercaseHex(digest[0]) && LowercaseHex(digest[1]);
    assert (digest + "-" + id)[1] == digest[1];
  }

  // Rows and files

  datatype File = Regular(bytes: Bytes, modified: nat) | Irregular

  datatype Chunk = Chunk(id: string, sessionId: string, path: string, sha256: string, byteLength: nat)

  datatype Integrity = Available | Missing | Corrupted

  datatype Row = Row(chunk: Chunk, integrity: Integrity)

  datatype ImportStep = Writing | Renaming | Syncing | Checking | Committing

  datatype ImportError = StepFailed(step: ImportStep) | CleanupFailed(step: ImportStep)

  datatype StoreError = UnsafeLayout

  /** Which step of an import fails, if any, and whether the cleanup after it fails too. */
  datatype ImportFaults = ImportFaults(failing: Option<ImportStep>, cleanupFails: bool)

  function PathOf(name: string): string {
    "audio/" + name
  }

  /** What Path::components keeps of the names below a directory. */
  function Kept(names: seq<string>): seq<string> {
    if names == [] then []
    else if names[0] == "" || names[0] == "." then Kept(names[1..])
    else [names[0]] + Kept(names[1..])
  }

  /** safe_chunk_name: one normal component below the audio directory. */
  function StoredName(path: string): Option<string> {
    var names := Split(path);
    if names[0] != AUDIO_DIRECTORY then None
    else
      var kept := Kept(names[1..]);
      if |kept| == 1 && kept[0] != ".." then Some(kept[0]) else None
  }

  lemma {:induction false} WithoutParentsWalksDown(at: seq<string>, names: seq<string>)
    requires ".." !in names
    ensures Walk(at, names) == at + Kept(names)
    decreases |names|
  {
    if names != [] {
      WithoutParentsWalksDown(Enter(at, names[0]), names[1..]);
    }
  }

  lemma {:induction false} ParentsAreKept(names: seq<string>)
    requires ".." in names
    ensures ".." in Kept(names)
  {
    if names[0] != ".." {
      ParentsAreKept(names[1..]);
    }
  }

  ghost predicate LeadsTo(names: seq<string>, place: seq<string>) {
    forall root :: Walk(root, names) == root + place
  }

  /** The name a chunk path stands for is where the path leads, from any data directory, without going back up. */
  lemma StoredNameIsWhereThePathLeads(path: string, name: string)
    ensures StoredName(path) == Some(name)
        <==> Split(path)[0] == "audio" && ".." !in Split(path) && LeadsTo(Split(path), ["audio", name])
  {
    var names := Split(path);
    if names[0] == "audio" {
      var rest := names[1..];
      assert names == ["audio"] + rest;
      if ".." in names {
        ParentsAreKept(rest);
      } else {
        assert Kept(names) == ["audio"] + Kept(rest);
        forall root
          ensures Walk(root, names) == root + Kept(names)
        {
          WithoutParentsWalksDown(root, names);
        }
        KeptHasNoParents(rest);
        var kept := Kept(rest);
        if StoredName(path) == Some(name) {
          assert kept == [name];
        }
        if LeadsTo(names, ["audio", name]) {
          assert Walk([], names) == [] + ["audio", name] == ["audio", name];
          assert ["audio"] + kept == ["audio", name];
          assert kept == (["audio"] + kept)[1..] == [name];
          assert kept[0] in kept;
        }
      }
    }
  }

  lemma {:induction false} KeptHasNoParents(names: seq<string>)
    requires ".." !in names
    ensures ".." !in Kept(names)
  {
    if names != [] {
      KeptHasNoParents(names[1..]);
    }
  }

  /** Every directory entry has a path that stands for it. */
  lemma EntriesHavePaths(name: string)
    requires Ordinary(name) && '/' !in name
    ensures StoredName(PathOf(name)) == Some(name)
  {
    SplitName(AUDIO_DIRECTORY);
    SplitName(name);
    SplitConcat(AUDIO_DIRECTORY, name);
    assert PathOf(name) == AUDIO_DIRECTORY + ['/'] + name;
    assert Split(PathOf(name))[1..] == [name];
    assert Kept([name]) == [name];
  }

  /** validate_chunk_bytes, in a data directory that has an audio directory. */
  function Validated(files: map<string, File>, chunk: Chunk, hash: Bytes -> string): Integrity {
    match StoredName(chunk.path)
    case None => Corrupted
    case Some(name) =>
      if name !in files then Missing
      else match files[name]
        case Regular(bytes, _) =>
          if hash(bytes) == chunk.sha256 && |bytes| == chunk.byteLength then Available else Corrupted
        case Irregular => Corrupted
  }

  predicate Referenced(rows: map<string, Row>, name: string) {
    exists id :: id in rows && rows[id].chunk.path == "audio/" + name
  }

  function ReferencedPaths(rows: map<string, Row>): set<string> {
    set id | id in rows :: rows[id].chunk.path
  }

  /** An entry the sweep knows how to treat. */
  predicate Familiar(name: string, file: File, referenced: set<string>) {
    PathOf(name) in referenced || (file.Regular? && (IsNativeFinalName(name) || IsRecognizedImporterName(name)))
  }

  /** An importer's file without a row, not modified since. */
  predicate Orphan(name: string, file: File, referenced: set<string>, staleBefore: nat) {
    && PathOf(name) !in referenced && file.Regular? && !IsNativeFinalName(name) && IsRecognizedImporterName(name)
    && file.modified <= staleBefore
  }

  /** What the sweep has done after these entries. */
  predicate SweptUpTo(
      before: map<string, File>, after: map<string, File>, entries: seq<string>, i: nat, referenced: set<string>,
      staleBefore: nat)
    requires i <= |entries| && forall k :: 0 <= k < |entries| ==> entries[k] in before
  {
    && (forall name :: name in after ==> name in before && after[name] == before[name])
    && (forall name :: name in before && name !in after ==> Orphan(name, before[name], referenced, staleBefore))
    && (forall k :: 0 <= k < i ==> Familiar(entries[k], before[entries[k]], referenced))
    && (forall k :: 0 <= k < i ==>
          (Orphan(entries[k], before[entries[k]], referenced, staleBefore) <==> entries[k] !in after))
    && (forall k :: i <= k < |entries| ==> entries[k] in after)
  }

  lemma SweptOneMore(
      before: map<string, File>, after: map<string, File>, entries: seq<string>, i: nat, referenced: set<string>,
      staleBefore: nat)
    requires i < |entries| && forall k :: 0 <= k < |entries| ==> entries[k] in before
    requires forall j, k :: 0 <= j < k < |entries| ==> entries[j] != entries[k]
    requires SweptUpTo(before, after, entries, i, referenced, staleBefore)
    requires Familiar(entries[i], before[entries[i]], referenced)
    ensures var next := if Orphan(entries[i], before[entries[i]], referenced, staleBefore) then after - {entries[i]}
                        else after;
            SweptUpTo(before, next, entries, i + 1, referenced, staleBefore)
  {
  }

  lemma SweepLeavesTheRest(
      before: map<string, File>, after: map<string, File>, entries: seq<string>, i: nat, referenced: set<string>,
      staleBefore: nat)
    requires i <= |entries| && forall k :: 0 <= k < |entries| ==> entries[k] in before
    requires SweptUpTo(before, after, entries, i, referenced, staleBefore)
    ensures forall name :: name in after ==> name in before && after[name] == before[name]
    ensures forall name :: name in before && name !in after ==>
              && "audio/" + name !in referenced && !IsNativeFinalName(name)
              && before[name].Regular? && before[name].modified <= staleBefore
  {
  }

  lemma SweepTakesOrphans(
      before: map<string, File>, after: map<string, File>, entries: seq<string>, referenced: set<string>,
      staleBefore: nat)
    requires forall name :: name in entries <==> name in before
    requires SweptUpTo(before, after, entries, |entries|, referenced, staleBefore)
    ensures forall name :: name in before && "audio/" + name !in referenced ==>
              before[name].Regular? && (IsNativeFinalName(name) || IsImportTemp(name) || IsImportFinal(name))
    ensures forall name :: name in before && "audio/" + name !in referenced ==>
              !IsNativeFinalName(name) && before[name].modified <= staleBefore ==> name !in after
  {
    forall name | name in before
      ensures Familiar(name, before[name], referenced)
      ensures Orphan(name, before[name], referenced, staleBefore) <==> name !in after
    {
      var k :| 0 <= k < |entries| && entries[k] == name;
    }
  }

  class EvidenceStore {
    var rows: map<string, Row>
    var files: map<string, File>

    constructor ()
      ensures rows == map[] && files == map[]
    {
      rows := map[];
      files := map[];
    }

    /** cleanup_regular_file on a file only this call knows: gone, unless the cleanup itself fails. */
    method Cleanup(name: string, cleanupFails: bool) returns (cleaned: bool)
      modifies this`files
      ensures cleaned == !cleanupFails
      ensures files == if cleanupFails then old(files) else old(files) - {name}
    {
      if cleanupFails {
        return false;
      }
      files := files - {name};
      return true;
    }

    /** import_audio_core. A failed import leaves no row, and no file unless its cleanup failed too. */
    method ImportAudio(
        id: string, sessionId: string, source: Bytes, extension: Option<string>, hash: Bytes -> string, now: nat,
        faults: ImportFaults)
      returns (r: Result<Chunk, ImportError>)
      requires IsChunkId(id) && IsDigest(hash(source)) && TempName(id) !in files && id !in rows
      requires forall name :: name in files && ParseFinal(name).Some? ==> ParseFinal(name).value.1 != id
      modifies this
      ensures r.Ok? <==> faults.failing.None?
      ensures r.Ok? ==>
                var name := FinalName(hash(source), id, CanonicalExtension(extension));
                && r.value == Chunk(id, sessionId, PathOf(name), hash(source), |source|)
                && name !in old(files)
                && files == old(files)[name := Regular(source, now)]
                && rows == old(rows)[id := Row(r.value, Available)]
                && IsRecognizedImporterName(name)
      ensures r.Err? ==> rows == old(rows)
      ensures r.Err? ==>
          r.error
          == if faults.cleanupFails then CleanupFailed(faults.failing.value) else StepFailed(faults.failing.value)
      ensures r.Err? && !faults.cleanupFails ==> files == old(files)
      ensures r.Err? ==> forall name :: name in old(files) ==> name in files && files[name] == old(files)[name]
    {
      var tempName := TempName(id);
      var finalName := FinalName(hash(source), id, CanonicalExtension(extension));
      StoredNameRoundTrip(hash(source), id, extension);
      TempNameIsRecognized(id);
      files := files[tempName := Regular(source, now)];
      if faults.failing == Some(Writing) || faults.failing == Some(Renaming) {
        var cleaned := Cleanup(tempName, faults.cleanupFails);
        return Err(if cleaned then StepFailed(faults.failing.value) else CleanupFailed(faults.failing.value));
      }
      files := (files - {tempName})[finalName := files[tempName]];
      if faults.failing.Some? {
        var cleaned := Cleanup(finalName, faults.cleanupFails);
        return Err(if cleaned then StepFailed(faults.failing.value) else CleanupFailed(faults.failing.value));
      }
      var chunk := Chunk(id, sessionId, PathOf(finalName), hash(source), |source|);
      rows := rows[id := Row(chunk, Available)];
      return Ok(chunk);
    }
  
    /**
     * reconcile_orphans over one directory listing. It only ever removes, and never what is referenced, native or
     * young; it removes everything else, up to the first entry it cannot place.
     */
    method ReconcileOrphans(entries: seq<string>, referenced: set<string>, staleBefore: nat)
      returns (r: Result<(), StoreError>)
      requires forall name :: name in entries <==> name in files
      requires forall i, j :: 0 <= i < j < |entries| ==> entries[i] != entries[j]
      modifies this`files
      ensures r.Ok? <==> forall name :: name in old(files) && "audio/" + name !in referenced ==>
                old(files)[name].Regular? && (IsNativeFinalName(name) || IsImportTemp(name) || IsImportFinal(name))
      ensures forall name :: name in files ==> name in old(files) && files[name] == old(files)[name]
      ensures forall name :: name in old(files) && name !in files ==>
                && "audio/" + name !in referenced && !IsNativeFinalName(name)
                && old(files)[name].Regular? && old(files)[name].modified <= staleBefore
      ensures r.Ok? ==> forall name :: name in old(files) && "audio/" + name !in referenced ==>
                !IsNativeFinalName(name) && old(files)[name].modified <= staleBefore ==> name !in files
      ensures r.Err? ==> exists k ::
                && 0 <= k < |entries| && !Familiar(entries[k], old(files)[entries[k]], referenced)
                && (forall i :: 0 <= i < k ==> Familiar(entries[i], old(files)[entries[i]], referenced))
                && (forall i :: 0 <= i < k ==>
                      (Orphan(entries[i], old(files)[entries[i]], referenced, staleBefore) <==> entries[i] !in files))
                && (forall i :: k <= i < |entries| ==> entries[i] in files)
    {
      for i := 0 to |entries|
        invariant SweptUpTo(old(files), files, entries, i, referenced, staleBefore)
      {
        var name := entries[i];
        SweepLeavesTheRest(old(files), files, entries, i, referenced, staleBefore);
        assert name in files && files[name] == old(files)[name];
        if Familiar(name, files[name], referenced) {
          SweptOneMore(old(files), files, entries, i, referenced, staleBefore);
        }
        if PathOf(name) !in referenced {
          if files[name].Irregular? {
            return Err(UnsafeLayout);
          }
          if !IsNativeFinalName(name) {
            if !IsRecognizedImporterName(name) {
              return Err(UnsafeLayout);
            }
            if files[name].modified <= staleBefore {
              files := files - {name};
            }
          }
        }
      }
      SweepLeavesTheRest(old(files), files, entries, |entries|, referenced, staleBefore);
      SweepTakesOrphans(old(files), files, entries, referenced, staleBefore);
      return Ok(());
    }

    /** reconcile_audio_before: sweep, then record for every row whether its file is intact. */
    method ReconcileAudio(entries: seq<string>, ids: seq<string>, hash: Bytes -> string, staleBefore: nat)
      returns (r: Result<(), StoreError>)
      requires forall name :: name in entries <==> name in files
      requires forall i, j :: 0 <= i < j < |entries| ==> entries[i] != entries[j]
      requires forall id :: id in ids <==> id in rows
      modifies this
      ensures r.Ok? <==> forall name :: name in old(files) && !Referenced(old(rows), name) ==>
                old(files)[name].Regular? && (IsNativeFinalName(name) || IsImportTemp(name) || IsImportFinal(name))
      ensures forall name :: name in files ==> name in old(files) && files[name] == old(files)[name]
      ensures forall name :: name in old(files) && name !in files ==>
                && !Referenced(old(rows), name) && !IsNativeFinalName(name)
                && old(files)[name].Regular? && old(files)[name].modified <= staleBefore
      ensures r.Ok? ==> forall name :: name in old(files) && !Referenced(old(rows), name) ==>
                !IsNativeFinalName(name) && old(files)[name].modified <= staleBefore ==> name !in files
      ensures r.Err? ==> rows == old(rows)
      ensures rows.Keys == old(rows).Keys && forall id :: id in rows ==> rows[id].chunk == old(rows)[id].chunk
      ensures r.Ok? ==> forall id :: id in rows ==>
                var chunk, stored := rows[id].chunk, StoredName(rows[id].chunk.path);
                && (rows[id].integrity == Missing <==> stored.Some? && stored.value !in files)
                && (rows[id].integrity == Available <==>
                      && stored.Some? && stored.value in files && files[stored.value].Regular?
                      && hash(files[stored.value].bytes) == chunk.sha256
                      && |files[stored.value].bytes| == chunk.byteLength)
    {
      ReferencedIsByPath(rows);
      var swept := ReconcileOrphans(entries, ReferencedPaths(rows), staleBefore);
      if swept.Err? {
        return swept;
      }
      ghost var remaining := files;
      for i := 0 to |ids|
        invariant rows.Keys == old(rows).Keys
        invariant forall id :: id in rows ==> rows[id].chunk == old(rows)[id].chunk
        invariant files == remaining
        invariant forall k :: 0 <= k < i ==> rows[ids[k]].integrity == Validated(files, rows[ids[k]].chunk, hash)
      {
        var row := rows[ids[i]];
        rows := rows[ids[i] := row.(integrity := Validated(files, row.chunk, hash))];
      }
      forall id | id in rows
        ensures rows[id].integrity == Validated(files, rows[id].chunk, hash)
      {
        var k :| 0 <= k < |ids| && ids[k] == id;
      }
      return Ok(());
    }
  }

  lemma ReferencedIsByPath(rows: map<string, Row>)
    ensures forall name :: Referenced(rows, name) <==> "audio/" + name in ReferencedPaths(rows)
  {
  }

  /**
   * What a sweep removes, files now and swept afterwards, changes the verdict on a row exactly if it takes the row's
   * file, and then the file is missing.
   */
  lemma VerdictChangesExactly(files: map<string, File>, swept: map<string, File>, chunk: Chunk, hash: Bytes -> string)
    requires forall name :: name in swept ==> name in files && swept[name] == files[name]
    ensures Validated(swept, chunk, hash) != Validated(files, chunk, hash)
        <==> StoredName(chunk.path).Some? && StoredName(chunk.path).value in files.Keys - swept.Keys
    ensures Validated(swept, chunk, hash) in {Validated(files, chunk, hash), Missing}
  {
  }

  /** With the path an import or a capture writes, a row keeps its file through every sweep, hence its verdict. */
  lemma SweepLeavesReferenced(
      files: map<string, File>, swept: map<string, File>, rows: map<string, Row>, id: string, name: string,
      hash: Bytes -> string)
    requires id in rows && rows[id].chunk.path == PathOf(name) && Ordinary(name) && '/' !in name
    requires forall name :: name in swept ==> name in files && swept[name] == files[name]
    requires forall name :: name in files && name !in swept ==> !Referenced(rows, name)
    ensures Validated(swept, rows[id].chunk, hash) == Validated(files, rows[id].chunk, hash)
  {
    EntriesHavePaths(name);
    assert Referenced(rows, name);
  }

  /** So an imported chunk validates from then on, however often the store is swept with its row listed. */
  lemma ImportedChunkStaysAvailable(
      files: map<string, File>, swept: map<string, File>, rows: map<string, Row>, id: string, name: string,
      hash: Bytes -> string)
    requires id in rows && rows[id].chunk.path == PathOf(name) && IsImportFinal(name)
    requires name in files && files[name].Regular? && rows[id].chunk.sha256 == hash(files[name].bytes)
    requires rows[id].chunk.byteLength == |files[name].bytes|
    requires forall name :: name in swept ==> name in files && swept[name] == files[name]
    requires forall name :: name in files && name !in swept ==> !Referenced(rows, name)
    ensures Validated(swept, rows[id].chunk, hash) == Available
  {
    ImportFinalsAreEntries(name);
    EntriesHavePaths(name);
    SweepLeavesReferenced(files, swept, rows, id, name, hash);
  }

  lemma ImportFinalsAreEntries(name: string)
    requires IsImportFinal(name)
    ensures Ordinary(name) && '/' !in name
  {
    ParsedNamesAreFinal(name);
    var (digest, id, extension) := ParseFinal(name).value;
    assert '/' !in digest by {
      assert forall i :: 0 <= i < |digest| ==> LowercaseHex(digest[i]);
    }
    assert '/' !in id by {
      assert id == "chk_" + id[4..];
      assert forall i :: 0 <= i < |id[4..]| ==> LowercaseHex(id[4..][i]);
    }
    assert '/' !in extension;
  }

  lemma DoubledSlashIsSkipped(name: string)
    requires Ordinary(name) && '/' !in name
    ensures StoredName("audio//" + name) == Some(name)
  {
    SplitName("audio");
    SplitName("");
    SplitName(name);
    SplitConcat("", name);
    assert "" + ['/'] + name == "/" + name;
    SplitConcat("audio", "/" + name);
    assert "audio//" + name == "audio" + ['/'] + ("/" + name);
    assert Split("audio//" + name) == ["audio", "", name];
    assert Kept([name]) == [name];
    assert ["audio", "", name][1..] == ["", name] && ["", name][1..] == [name];
  }

  /** But a row may name its file in other words: then it reads the file, and the sweep takes it for an orphan. */
  lemma AliasedPathsLoseTheirFile(digest: string, id: string, modified: nat, bytes: Bytes, hash: Bytes -> string)
    returns (chunk: Chunk, name: string)
    requires IsDigest(digest) && IsChunkId(id)
    ensures var files := map[name := Regular(bytes, modified)];
            && Validated(files, chunk, hash) == Available
            && Orphan(name, files[name], {chunk.path}, modified)
  {
    var extension := CanonicalExtension(None);
    name := FinalName(digest, id, extension);
    chunk := Chunk(id, "ses", "audio//" + name, hash(bytes), |bytes|);
    FinalNameParses(digest, id, extension);
    ImportNamesAreNotNative(digest, id, None);
    ImportFinalsAreEntries(name);
    DoubledSlashIsSkipped(name);
    assert LowercaseHex(digest[0]) && PathOf(name)[6] == digest[0];
    assert chunk.path[6] == '/';
  }
}
