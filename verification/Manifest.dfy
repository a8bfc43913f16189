/** asr/manifest.rs: which model bundles are accepted, and what acceptance guarantees an installer. */
module Manifest {
  import opened Domain
  import opened MachineInts
  import opened ManifestPaths
  import opened StableSort

  datatype InstallMode = Direct | ExtractTarBz2

  /** `wellFormed` is the outcome of the blank, URL and redirect-host checks; `rest` the remaining payload fields. */
  datatype Artifact = Artifact(
    artifactId: string, bytes: u64, sha256: string, requiredPath: string, required: bool, installMode: InstallMode,
    wellFormed: bool, rest: string)

  datatype RequiredFile = RequiredFile(path: string, bytes: u64, sha256: string)

  datatype InstallConstraints =
    | ArchiveInstall(
        maxScannedEntries: u64, maxWrittenFileBytes: u64, maxTotalWrittenBytes: u64, requiredFiles: seq<RequiredFile>)
    | DirectInstall(maxWrittenFileBytes: u64, maxTotalWrittenBytes: u64, requiredFiles: seq<RequiredFile>)

  datatype Bundle = Bundle(
    artifacts: seq<Artifact>, requiredPaths: seq<string>, identitySha256: string, constraints: InstallConstraints)

  datatype BundleError =
    | InvalidBundleIdentity
    | DuplicateArtifactId
    | InvalidArtifact
    | InvalidRequiredPath
    | OverlappingRequiredPath
    | InvalidInstallConstraints

  predicate IsSha256(text: string) {
    |text| == 64 && AllHex(text) && exists i :: 0 <= i < 64 && text[i] != '0'
  }

  lemma ZeroDigits(bytes: seq<Byte>, k: nat)
    requires k < 2 * |bytes|
    ensures Hex(bytes)[k] != '0' ==> bytes[k / 2] != 0
    ensures bytes[k / 2] != 0 ==> Hex(bytes)[2 * (k / 2)] != '0' || Hex(bytes)[2 * (k / 2) + 1] != '0'
  {
    HexAt(bytes, k / 2);
    HexDigitsAreHex(bytes[k / 2] / 16);
    HexDigitsAreHex(bytes[k / 2] % 16);
    assert k == 2 * (k / 2) || k == 2 * (k / 2) + 1;
  }

  predicate AllZero(bytes: seq<Byte>) {
    forall i :: 0 <= i < |bytes| ==> bytes[i] == 0
  }

  lemma ZeroDigests(text: string, bytes: seq<Byte>)
    requires |bytes| == 32 && Hex(bytes) == text
    ensures AllZero(bytes) <==> forall k :: 0 <= k < 64 ==> text[k] == '0'
  {
    if k :| 0 <= k < 64 && text[k] != '0' {
      ZeroDigits(bytes, k);
    }
    if i :| 0 <= i < 32 && bytes[i] != 0 {
      ZeroDigits(bytes, 2 * i);
    }
  }

  /** What a digest field accepts: the print of 32 bytes that are not all zero. */
  lemma DigestsAreThirtyTwoBytes(text: string)
    ensures IsSha256(text) <==> exists bytes: seq<Byte> :: |bytes| == 32 && Hex(bytes) == text && !AllZero(bytes)
  {
    HexTexts(text, 32);
    forall bytes: seq<Byte> | |bytes| == 32 && Hex(bytes) == text
      ensures AllZero(bytes) <==> forall k :: 0 <= k < 64 ==> text[k] == '0'
    {
      ZeroDigests(text, bytes);
    }
  }

  predicate ValidArtifact(artifact: Artifact) {
    && artifact.wellFormed && artifact.bytes > 0 && IsSha256(artifact.sha256)
    && ValidRelativePath(artifact.requiredPath) && artifact.required
  }

  /** What an artifact delivers, in the terms of a required file. */
  function Delivered(artifact: Artifact): RequiredFile {
    RequiredFile(artifact.requiredPath, artifact.bytes, artifact.sha256)
  }

  function AllDelivered(artifacts: seq<Artifact>): (r: seq<RequiredFile>)
    ensures |r| == |artifacts| && forall i :: 0 <= i < |artifacts| ==> r[i] == Delivered(artifacts[i])
  {
    seq(|artifacts|, i requires 0 <= i < |artifacts| => Delivered(artifacts[i]))
  }

  function TotalBytes(files: seq<RequiredFile>): nat {
    if files == [] then 0 else TotalBytes(files[..|files| - 1]) + files[|files| - 1].bytes
  }

  predicate IsLargest(files: seq<RequiredFile>, bytes: nat) {
    && (forall i :: 0 <= i < |files| ==> files[i].bytes <= bytes)
    && (exists i :: 0 <= i < |files| && files[i].bytes == bytes)
  }

  // What acceptance means

  predicate DistinctFilePaths(files: seq<RequiredFile>) {
    forall i, j :: 0 <= i < j < |files| ==> files[i].path != files[j].path
  }

  predicate ValidFile(file: RequiredFile) {
    ValidRelativePath(file.path) && file.bytes != 0 && IsSha256(file.sha256)
  }

  predicate HasPath(files: seq<RequiredFile>, path: string) {
    exists i :: 0 <= i < |files| && files[i].path == path
  }

  predicate FilesAccepted(constraints: InstallConstraints) {
    var files := constraints.requiredFiles;
    && files != [] && (forall i :: 0 <= i < |files| ==> ValidFile(files[i])) && DistinctFilePaths(files)
    && TotalBytes(files) == constraints.maxTotalWrittenBytes && IsLargest(files, constraints.maxWrittenFileBytes)
  }

  predicate PathsAreFiles(bundle: Bundle) {
    var files := bundle.constraints.requiredFiles;
    && |bundle.requiredPaths| == |files|
    && forall i :: 0 <= i < |bundle.requiredPaths| ==> HasPath(files, bundle.requiredPaths[i])
  }

  /** Exactly one artifact delivers each file and each artifact delivers one. */
  predicate OneDeliveryEach(artifacts: seq<Artifact>, files: seq<RequiredFile>) {
    && |artifacts| == |files|
    && (forall i :: 0 <= i < |artifacts| ==> Delivered(artifacts[i]) in files)
    && (forall i :: 0 <= i < |files| ==> Deliveries(artifacts, files[i]) == 1)
  }

  function Deliveries(artifacts: seq<Artifact>, file: RequiredFile): nat {
    if artifacts == [] then 0
    else
      Deliveries(artifacts[..|artifacts| - 1], file) + if Delivered(artifacts[|artifacts| - 1]) == file then 1 else 0
  }

  predicate ModeAccepted(bundle: Bundle) {
    var files := bundle.constraints.requiredFiles;
    if bundle.constraints.ArchiveInstall? then
      && bundle.constraints.maxScannedEntries >= |files|
      && forall i :: 0 <= i < |bundle.artifacts| ==> bundle.artifacts[i].installMode == ExtractTarBz2
    else
      && (forall i :: 0 <= i < |bundle.artifacts| ==> bundle.artifacts[i].installMode == Direct)
      && OneDeliveryEach(bundle.artifacts, files)
  }

  predicate ConstraintsAccepted(bundle: Bundle) {
    FilesAccepted(bundle.constraints) && PathsAreFiles(bundle) && ModeAccepted(bundle)
  }

  predicate DuplicateAt(artifacts: seq<Artifact>, i: nat)
    requires i < |artifacts|
  {
    exists j :: 0 <= j < i && artifacts[j].artifactId == artifacts[i].artifactId
  }

  predicate ArtifactsAcceptedUpTo(artifacts: seq<Artifact>, n: nat) {
    n <= |artifacts| && forall i :: 0 <= i < n ==> ValidArtifact(artifacts[i]) && !DuplicateAt(artifacts, i)
  }

  predicate OverlapsLater(paths: seq<string>, i: nat)
    requires i < |paths|
  {
    exists j :: i < j < |paths| && PathsOverlap(paths[i], paths[j])
  }

  predicate PathsAcceptedUpTo(paths: seq<string>, n: nat) {
    n <= |paths| && forall i :: 0 <= i < n ==> ValidRelativePath(paths[i]) && !OverlapsLater(paths, i)
  }

  predicate HeaderAccepted(bundle: Bundle) {
    bundle.artifacts != [] && bundle.requiredPaths != [] && IsSha256(bundle.identitySha256)
  }

  predicate BundleAccepted(bundle: Bundle) {
    && HeaderAccepted(bundle)
    && ArtifactsAcceptedUpTo(bundle.artifacts, |bundle.artifacts|)
    && PathsAcceptedUpTo(bundle.requiredPaths, |bundle.requiredPaths|)
    && ConstraintsAccepted(bundle)
  }

  /** The paths a bundle names: where its artifacts go, what it requires, which files it lists. */
  ghost predicate Names(bundle: Bundle, path: string) {
    || (exists artifact :: artifact in bundle.artifacts && artifact.requiredPath == path)
    || path in bundle.requiredPaths
    || (exists file :: file in bundle.constraints.requiredFiles && file.path == path)
  }

  /** Whatever directory a bundle is installed under, each path it names lies below it, one level for each component. */
  lemma AcceptedPathsLeadDown(bundle: Bundle, path: string, root: seq<string>)
    requires BundleAccepted(bundle) && Names(bundle, path)
    ensures Walk(root, Split(path)) == root + Split(path)
    ensures root < Walk(root, Split(path))
  {
    assert ValidRelativePath(path);
    ValidPathsLeadDown(path);
  }

  // Acceptance written out

  /** Text that leads, from any directory, down through each of its components. */
  ghost predicate PlainPath(path: string) {
    '\\' !in path && (forall i :: 0 <= i < |path| ==> Printable(path[i])) && LeadsDown(Split(path))
  }

  /** The lower-case hexadecimal print of 32 bytes that are not all zero. */
  ghost predicate PrintsDigest(text: string) {
    exists bytes: seq<Byte> :: |bytes| == 32 && Hex(bytes) == text && !AllZero(bytes)
  }

  ghost predicate PlainArtifact(artifact: Artifact) {
    && artifact.wellFormed && artifact.required && artifact.bytes >= 1 && PrintsDigest(artifact.sha256)
    && PlainPath(artifact.requiredPath)
  }

  ghost predicate PlainFile(file: RequiredFile) {
    file.bytes >= 1 && PrintsDigest(file.sha256) && PlainPath(file.path)
  }

  lemma ValidMeansPlain(artifact: Artifact, file: RequiredFile)
    ensures ValidArtifact(artifact) <==> PlainArtifact(artifact)
    ensures ValidFile(file) <==> PlainFile(file)
  {
    ValidPathsLeadDown(artifact.requiredPath);
    ValidPathsLeadDown(file.path);
    DigestsAreThirtyTwoBytes(artifact.sha256);
    DigestsAreThirtyTwoBytes(file.sha256);
  }

  ghost predicate PlainArtifacts(artifacts: seq<Artifact>) {
    && artifacts != [] && (forall i :: 0 <= i < |artifacts| ==> PlainArtifact(artifacts[i]))
    && forall i, j :: 0 <= i < j < |artifacts| ==> artifacts[i].artifactId != artifacts[j].artifactId
  }

  /** None lies at or above another. */
  ghost predicate SeparatePaths(paths: seq<string>) {
    && paths != [] && (forall i :: 0 <= i < |paths| ==> PlainPath(paths[i]))
    && forall i, j :: 0 <= i < |paths| && 0 <= j < |paths| && i != j ==> !(Split(paths[i]) <= Split(paths[j]))
  }

  /** Files that add up to the declared total, the largest of the declared size. */
  ghost predicate DeclaredFiles(constraints: InstallConstraints) {
    var files := constraints.requiredFiles;
    && files != [] && (forall i :: 0 <= i < |files| ==> PlainFile(files[i]))
    && (forall i, j :: 0 <= i < j < |files| ==> files[i].path != files[j].path)
    && TotalBytes(files) == constraints.maxTotalWrittenBytes
    && (forall i :: 0 <= i < |files| ==> files[i].bytes <= constraints.maxWrittenFileBytes)
    && (exists i :: 0 <= i < |files| && files[i].bytes == constraints.maxWrittenFileBytes)
  }

  lemma ArtifactsAcceptedExactly(artifacts: seq<Artifact>)
    ensures artifacts != [] && ArtifactsAcceptedUpTo(artifacts, |artifacts|) <==> PlainArtifacts(artifacts)
  {
    forall i | 0 <= i < |artifacts|
      ensures ValidArtifact(artifacts[i]) <==> PlainArtifact(artifacts[i])
    {
      ValidMeansPlain(artifacts[i], Delivered(artifacts[i]));
    }
    if ArtifactsAcceptedUpTo(artifacts, |artifacts|) {
      forall i, j | 0 <= i < j < |artifacts|
        ensures artifacts[i].artifactId != artifacts[j].artifactId
      {
        assert !DuplicateAt(artifacts, j);
      }
    }
  }

  lemma PathsAcceptedExactly(paths: seq<string>)
    ensures paths != [] && PathsAcceptedUpTo(paths, |paths|) <==> SeparatePaths(paths)
  {
    forall i | 0 <= i < |paths|
      ensures ValidRelativePath(paths[i]) <==> PlainPath(paths[i])
    {
      ValidPathsLeadDown(paths[i]);
    }
    forall i, j | 0 <= i < j < |paths|
      ensures PathsOverlap(paths[i], paths[j])
          <==> Split(paths[i]) <= Split(paths[j]) || Split(paths[j]) <= Split(paths[i])
    {
      OverlapIsComponentPrefix(paths[i], paths[j]);
    }
    if PathsAcceptedUpTo(paths, |paths|) {
      forall i, j | 0 <= i < j < |paths|
        ensures !PathsOverlap(paths[i], paths[j])
      {
        assert !OverlapsLater(paths, i);
      }
    }
  }

  lemma FilesAcceptedExactly(constraints: InstallConstraints)
    ensures FilesAccepted(constraints) <==> DeclaredFiles(constraints)
  {
    var files := constraints.requiredFiles;
    forall i | 0 <= i < |files|
      ensures ValidFile(files[i]) <==> PlainFile(files[i])
    {
      ValidMeansPlain(Artifact("", 0, "", "", false, InstallMode.Direct, false, ""), files[i]);
    }
  }

  /** In a direct bundle the artifacts are the required files, in some order. */
  lemma DeliveriesAcceptedExactly(artifacts: seq<Artifact>, files: seq<RequiredFile>)
    requires DistinctFilePaths(files)
    ensures OneDeliveryEach(artifacts, files) <==> multiset(AllDelivered(artifacts)) == multiset(files)
  {
    var delivered := AllDelivered(artifacts);
    forall file
      ensures Deliveries(artifacts, file) == multiset(delivered)[file]
      ensures multiset(files)[file] == if file in files then 1 else 0
    {
      DeliveriesCounts(artifacts, file);
      DistinctOnce(files, file);
    }
    if OneDeliveryEach(artifacts, files) {
      OneDeliveryMeansSame(artifacts, files);
    }
    if multiset(delivered) == multiset(files) {
      assert |delivered| == |multiset(delivered)| == |multiset(files)| == |files|;
      assert forall i :: 0 <= i < |delivered| ==> delivered[i] in multiset(files);
    }
  }

  lemma OneDeliveryMeansSame(artifacts: seq<Artifact>, files: seq<RequiredFile>)
    requires DistinctFilePaths(files) && OneDeliveryEach(artifacts, files)
    ensures multiset(AllDelivered(artifacts)) == multiset(files)
  {
    var delivered := AllDelivered(artifacts);
    assert forall i :: 0 <= i < |delivered| ==> delivered[i] in files;
    forall file
      ensures multiset(delivered)[file] == multiset(files)[file]
    {
      DeliveriesCounts(artifacts, file);
      DistinctOnce(files, file);
      if file in files {
        var i :| 0 <= i < |files| && files[i] == file;
        assert Deliveries(artifacts, files[i]) == 1;
      }
    }
  }

  /** The install rules of the two modes. */
  ghost predicate ModeRules(bundle: Bundle) {
    var artifacts, files := bundle.artifacts, bundle.constraints.requiredFiles;
    match bundle.constraints
    case ArchiveInstall(maxScannedEntries, _, _, _) =>
      |files| <= maxScannedEntries && forall i :: 0 <= i < |artifacts| ==> artifacts[i].installMode == ExtractTarBz2
    case DirectInstall(_, _, _) =>
      && (forall i :: 0 <= i < |artifacts| ==> artifacts[i].installMode == InstallMode.Direct)
      && multiset(AllDelivered(artifacts)) == multiset(files)
  }

  /**
   * Which bundles are accepted, without any of the validators: plain artifacts with distinct ids; plain required paths,
   * none at or above another; plain files with distinct paths, among them all required paths, that add up to the
   * declared total with the declared largest; and the rules of the install mode.
   */
  lemma BundlesAcceptedExactly(bundle: Bundle)
    ensures var paths, files := bundle.requiredPaths, bundle.constraints.requiredFiles;
            BundleAccepted(bundle)
            <==> && PrintsDigest(bundle.identitySha256) && PlainArtifacts(bundle.artifacts) && SeparatePaths(paths)
                 && DeclaredFiles(bundle.constraints) && |paths| == |files|
                 && (forall i :: 0 <= i < |paths| ==> HasPath(files, paths[i]))
                 && ModeRules(bundle)
  {
    HeadersAcceptedExactly(bundle);
    ConstraintsAcceptedExactly(bundle);
  }

  lemma HeadersAcceptedExactly(bundle: Bundle)
    ensures && HeaderAccepted(bundle) && ArtifactsAcceptedUpTo(bundle.artifacts, |bundle.artifacts|)
            && PathsAcceptedUpTo(bundle.requiredPaths, |bundle.requiredPaths|)
       <==> && PrintsDigest(bundle.identitySha256) && PlainArtifacts(bundle.artifacts)
            && SeparatePaths(bundle.requiredPaths)
  {
    DigestsAreThirtyTwoBytes(bundle.identitySha256);
    ArtifactsAcceptedExactly(bundle.artifacts);
    PathsAcceptedExactly(bundle.requiredPaths);
  }

  lemma ConstraintsAcceptedExactly(bundle: Bundle)
    ensures var paths, files := bundle.requiredPaths, bundle.constraints.requiredFiles;
            ConstraintsAccepted(bundle)
            <==> && DeclaredFiles(bundle.constraints) && |paths| == |files|
                 && (forall i :: 0 <= i < |paths| ==> HasPath(files, paths[i]))
                 && ModeRules(bundle)
  {
    FilesAcceptedExactly(bundle.constraints);
    if DistinctFilePaths(bundle.constraints.requiredFiles) {
      DeliveriesAcceptedExactly(bundle.artifacts, bundle.constraints.requiredFiles);
    }
  }

  // The validators

  lemma {:induction false} TotalGrows(files: seq<RequiredFile>, n: nat)
    requires n <= |files|
    ensures TotalBytes(files[..n]) <= TotalBytes(files)
    decreases |files| - n
  {
    if n == |files| {
      assert files[..n] == files;
    } else {
      TotalGrows(files, n + 1);
      assert files[..n + 1][..n] == files[..n];
    }
  }

  function PathsOf(files: seq<RequiredFile>): set<string> {
    set i | 0 <= i < |files| :: files[i].path
  }

  /** What the loop knows after these files. */
  predicate FilesCounted(files: seq<RequiredFile>, paths: set<string>, total: nat, maxFile: nat) {
    && DistinctFilePaths(files) && paths == PathsOf(files) && total == TotalBytes(files)
    && if files == [] then maxFile == 0 else IsLargest(files, maxFile)
  }

  lemma PathsOneMore(files: seq<RequiredFile>, k: nat)
    requires k < |files| && DistinctFilePaths(files[..k]) && files[k].path !in PathsOf(files[..k])
    ensures DistinctFilePaths(files[..k + 1]) && PathsOf(files[..k + 1]) == PathsOf(files[..k]) + {files[k].path}
  {
    var before, after := files[..k], files[..k + 1];
    assert after[k] == files[k];
    assert forall i :: 0 <= i < k ==> after[i] == before[i] && before[i].path in PathsOf(before);
    forall path | path in PathsOf(before) + {files[k].path}
      ensures path in PathsOf(after)
    {
      var i :| 0 <= i <= k && (if i < k then before[i].path == path else i == k && files[k].path == path);
      assert after[i].path == path;
    }
  }

  lemma CountOneMore(files: seq<RequiredFile>, k: nat, paths: set<string>, total: nat, maxFile: nat)
    requires k < |files| && FilesCounted(files[..k], paths, total, maxFile) && files[k].path !in paths
    ensures FilesCounted(files[..k + 1], paths + {files[k].path}, total + files[k].bytes,
                         if files[k].bytes > maxFile then files[k].bytes else maxFile)
  {
    PathsOneMore(files, k);
    assert files[..k + 1][..k] == files[..k];
    LargestSoFar(files, k, if files[k].bytes > maxFile then files[k].bytes else maxFile);
  }

  lemma RepeatedPathIsRefused(constraints: InstallConstraints, k: nat)
    requires k < |constraints.requiredFiles|
        && constraints.requiredFiles[k].path in PathsOf(constraints.requiredFiles[..k])
    ensures !FilesAccepted(constraints)
  {
    var files := constraints.requiredFiles;
    var i :| 0 <= i < k && files[..k][i].path == files[k].path;
    assert files[i].path == files[k].path;
  }

  lemma TooManyBytesAreRefused(constraints: InstallConstraints, n: nat)
    requires n <= |constraints.requiredFiles| && TotalBytes(constraints.requiredFiles[..n]) > U64_MAX
    ensures !FilesAccepted(constraints)
  {
    TotalGrows(constraints.requiredFiles, n);
  }

  /** Once all files are valid and counted, only the declared total and maximum decide. */
  lemma CountedFilesDecide(constraints: InstallConstraints, paths: set<string>, total: nat, maxFile: nat)
    requires constraints.requiredFiles != [] && FilesCounted(constraints.requiredFiles, paths, total, maxFile)
    requires forall i :: 0 <= i < |constraints.requiredFiles| ==> ValidFile(constraints.requiredFiles[i])
    ensures FilesAccepted(constraints)
        <==> maxFile == constraints.maxWrittenFileBytes && total == constraints.maxTotalWrittenBytes
  {
    OneLargest(constraints.requiredFiles, maxFile, constraints.maxWrittenFileBytes);
  }

  /** The loop over required files; the byte total never needs its overflow check once the total is compared. */
  method CheckRequiredFiles(constraints: InstallConstraints) returns (r: Result<set<string>, BundleError>)
    ensures r.Ok? <==> FilesAccepted(constraints)
    ensures r.Ok? ==> r.value == PathsOf(constraints.requiredFiles)
    ensures r.Err? ==> r.error == InvalidInstallConstraints
  {
    var files := constraints.requiredFiles;
    if files == [] {
      return Err(InvalidInstallConstraints);
    }
    var paths: set<string> := {};
    var total: u64 := 0;
    var maxFile: u64 := 0;
    for k := 0 to |files|
      invariant forall i :: 0 <= i < k ==> ValidFile(files[i])
      invariant FilesCounted(files[..k], paths, total, maxFile)
    {
      var file := files[k];
      if !ValidFile(file) {
        return Err(InvalidInstallConstraints);
      }
      if file.path in paths {
        RepeatedPathIsRefused(constraints, k);
        return Err(InvalidInstallConstraints);
      }
      CountOneMore(files, k, paths, total, maxFile);
      if total + file.bytes > U64_MAX {
        TooManyBytesAreRefused(constraints, k + 1);
        return Err(InvalidInstallConstraints);
      }
      paths, total := paths + {file.path}, total + file.bytes;
      maxFile := if file.bytes > maxFile then file.bytes else maxFile;
    }
    assert files[..|files|] == files;
    CountedFilesDecide(constraints, paths, total, maxFile);
    if maxFile != constraints.maxWrittenFileBytes || total != constraints.maxTotalWrittenBytes {
      return Err(InvalidInstallConstraints);
    }
    return Ok(paths);
  }

  lemma LargestSoFar(files: seq<RequiredFile>, k: nat, bytes: nat)
    requires k < |files|
    requires bytes >= files[k].bytes
    requires k == 0 ==> bytes == files[k].bytes
    requires k > 0 ==> exists before ::
        IsLargest(files[..k], before) && bytes == if files[k].bytes > before then files[k].bytes else before
    ensures IsLargest(files[..k + 1], bytes)
  {
    if k > 0 {
      var before :|
        IsLargest(files[..k], before) && bytes == if files[k].bytes > before then files[k].bytes else before;
      var i :| 0 <= i < k && files[..k][i].bytes == before;
      assert files[..k + 1][i] == files[i] && files[..k + 1][k] == files[k];
      assert forall j :: 0 <= j < k ==> files[..k + 1][j] == files[..k][j];
    } else {
      assert files[..k + 1] == [files[k]];
    }
  }

  lemma OneLargest(files: seq<RequiredFile>, a: nat, b: nat)
    requires IsLargest(files, a)
    ensures IsLargest(files, b) <==> a == b
  {
  }

  /** required_paths, each of which must be a required file's path. */
  method CheckPathsAreFiles(bundle: Bundle, paths: set<string>) returns (ok: bool)
    requires paths == PathsOf(bundle.constraints.requiredFiles)
    ensures ok == PathsAreFiles(bundle)
  {
    var files := bundle.constraints.requiredFiles;
    if |bundle.requiredPaths| != |files| {
      return false;
    }
    assert forall path :: path in paths <==> HasPath(files, path);
    for i := 0 to |bundle.requiredPaths|
      invariant forall k :: 0 <= k < i ==> HasPath(files, bundle.requiredPaths[k])
    {
      if bundle.requiredPaths[i] !in paths {
        return false;
      }
    }
    return true;
  }

  /** The two passes over a direct bundle: every artifact delivers a file, every file has exactly one delivery. */
  method CheckDeliveries(artifacts: seq<Artifact>, files: seq<RequiredFile>) returns (ok: bool)
    ensures ok == OneDeliveryEach(artifacts, files)
  {
    if |artifacts| != |files| {
      return false;
    }
    for i := 0 to |artifacts|
      invariant forall k :: 0 <= k < i ==> Delivered(artifacts[k]) in files
    {
      if Delivered(artifacts[i]) !in files {
        return false;
      }
    }
    for i := 0 to |files|
      invariant forall k :: 0 <= k < i ==> Deliveries(artifacts, files[k]) == 1
    {
      var count := 0;
      for j := 0 to |artifacts|
        invariant count == Deliveries(artifacts[..j], files[i])
      {
        assert artifacts[..j + 1][..j] == artifacts[..j];
        if Delivered(artifacts[j]) == files[i] {
          count := count + 1;
        }
      }
      assert artifacts[..|artifacts|] == artifacts;
      if count != 1 {
        return false;
      }
    }
    return true;
  }

  method CheckModes(artifacts: seq<Artifact>, mode: InstallMode) returns (ok: bool)
    ensures ok <==> forall i :: 0 <= i < |artifacts| ==> artifacts[i].installMode == mode
  {
    for i := 0 to |artifacts|
      invariant forall k :: 0 <= k < i ==> artifacts[k].installMode == mode
    {
      if artifacts[i].installMode != mode {
        return false;
      }
    }
    return true;
  }

  method ValidateInstallConstraints(bundle: Bundle) returns (r: Result<(), BundleError>)
    ensures r.Ok? <==> ConstraintsAccepted(bundle)
    ensures r.Err? ==> r.error == InvalidInstallConstraints
  {
    var paths :- CheckRequiredFiles(bundle.constraints);
    var named := CheckPathsAreFiles(bundle, paths);
    if !named {
      return Err(InvalidInstallConstraints);
    }
    match bundle.constraints {
      case ArchiveInstall(maxScannedEntries, _, _, files) =>
        var modes := CheckModes(bundle.artifacts, ExtractTarBz2);
        if maxScannedEntries < |files| || !modes {
          return Err(InvalidInstallConstraints);
        }
      case DirectInstall(_, _, files) =>
        var modes := CheckModes(bundle.artifacts, InstallMode.Direct);
        var delivered := CheckDeliveries(bundle.artifacts, files);
        if !modes || !delivered {
          return Err(InvalidInstallConstraints);
        }
    }
    return Ok(());
  }

  /** The loop over artifacts: the first one that repeats an id or is invalid decides the error. */
  method CheckArtifacts(artifacts: seq<Artifact>) returns (r: Result<(), BundleError>)
    ensures r.Ok? <==> ArtifactsAcceptedUpTo(artifacts, |artifacts|)
    ensures r.Err? ==> exists i ::
              && 0 <= i < |artifacts| && ArtifactsAcceptedUpTo(artifacts, i)
              && if DuplicateAt(artifacts, i) then r.error == DuplicateArtifactId
                 else !ValidArtifact(artifacts[i]) && r.error == InvalidArtifact
  {
    var ids: set<string> := {};
    for i := 0 to |artifacts|
      invariant ArtifactsAcceptedUpTo(artifacts, i)
      invariant ids == set k | 0 <= k < i :: artifacts[k].artifactId
    {
      assert artifacts[i].artifactId in ids <==> DuplicateAt(artifacts, i);
      if artifacts[i].artifactId in ids {
        return Err(DuplicateArtifactId);
      }
      if !ValidArtifact(artifacts[i]) {
        return Err(InvalidArtifact);
      }
      ids := ids + {artifacts[i].artifactId};
    }
    return Ok(());
  }

  /** The loop over required paths, each compared with all later ones. */
  method CheckRequiredPaths(paths: seq<string>) returns (r: Result<(), BundleError>)
    ensures r.Ok? <==> PathsAcceptedUpTo(paths, |paths|)
    ensures r.Err? ==> exists i ::
              && 0 <= i < |paths| && PathsAcceptedUpTo(paths, i)
              && if !ValidRelativePath(paths[i]) then r.error == InvalidRequiredPath
                 else OverlapsLater(paths, i) && r.error == OverlappingRequiredPath
  {
    for i := 0 to |paths|
      invariant PathsAcceptedUpTo(paths, i)
    {
      if !ValidRelativePath(paths[i]) {
        return Err(InvalidRequiredPath);
      }
      for j := i + 1 to |paths|
        invariant forall k :: i < k < j ==> !PathsOverlap(paths[i], paths[k])
      {
        if PathsOverlap(paths[i], paths[j]) {
          assert OverlapsLater(paths, i);
          return Err(OverlappingRequiredPath);
        }
      }
    }
    return Ok(());
  }

  method ValidateBundle(bundle: Bundle) returns (r: Result<(), BundleError>)
    ensures r.Ok? <==> BundleAccepted(bundle)
    ensures r == Err(InvalidBundleIdentity) <==> !HeaderAccepted(bundle)
    ensures r == Err(InvalidInstallConstraints) <==>
              && HeaderAccepted(bundle) && ArtifactsAcceptedUpTo(bundle.artifacts, |bundle.artifacts|)
              && PathsAcceptedUpTo(bundle.requiredPaths, |bundle.requiredPaths|) && !ConstraintsAccepted(bundle)
    ensures r == Err(DuplicateArtifactId) || r == Err(InvalidArtifact) <==>
              HeaderAccepted(bundle) && !ArtifactsAcceptedUpTo(bundle.artifacts, |bundle.artifacts|)
    ensures r.Ok? ==> forall path, root :: Names(bundle, path) ==> root < Walk(root, Split(path))
  {
    if bundle.artifacts == [] || bundle.requiredPaths == [] || !IsSha256(bundle.identitySha256) {
      return Err(InvalidBundleIdentity);
    }
    var artifacts := CheckArtifacts(bundle.artifacts);
    if artifacts.Err? {
      return artifacts;
    }
    var paths := CheckRequiredPaths(bundle.requiredPaths);
    if paths.Err? {
      return paths;
    }
    r := ValidateInstallConstraints(bundle);
    if r.Ok? {
      forall path, root | Names(bundle, path)
        ensures root < Walk(root, Split(path))
      {
        AcceptedPathsLeadDown(bundle, path, root);
      }
    }
  }

  // What acceptance guarantees

  lemma {:induction false} DeliveriesCounts(artifacts: seq<Artifact>, file: RequiredFile)
    ensures Deliveries(artifacts, file) == multiset(AllDelivered(artifacts))[file]
  {
    if artifacts != [] {
      var front := artifacts[..|artifacts| - 1];
      DeliveriesCounts(front, file);
      assert AllDelivered(artifacts) == AllDelivered(front) + [Delivered(artifacts[|artifacts| - 1])];
    }
  }

  lemma {:induction false} DistinctOnce(files: seq<RequiredFile>, file: RequiredFile)
    requires DistinctFilePaths(files)
    ensures multiset(files)[file] == if file in files then 1 else 0
  {
    if files != [] {
      var front, last := files[..|files| - 1], files[|files| - 1];
      DistinctOnce(front, file);
      assert files == front + [last];
      assert forall i :: 0 <= i < |front| ==> front[i] == files[i] && files[i].path != last.path;
    }
  }

  /** In an accepted direct bundle artifacts and required files are in bijection on path, bytes and digest. */
  lemma DirectBundleIsABijection(bundle: Bundle)
    requires ConstraintsAccepted(bundle) && bundle.constraints.DirectInstall?
    ensures multiset(AllDelivered(bundle.artifacts)) == multiset(bundle.constraints.requiredFiles)
  {
    OneDeliveryMeansSame(bundle.artifacts, bundle.constraints.requiredFiles);
  }

  lemma {:induction false} TotalBytesConcat(front: seq<RequiredFile>, back: seq<RequiredFile>)
    ensures TotalBytes(front + back) == TotalBytes(front) + TotalBytes(back)
  {
    if back == [] {
      assert front + back == front;
    } else {
      TotalBytesConcat(front, back[..|back| - 1]);
      assert (front + back)[..|front + back| - 1] == front + back[..|back| - 1];
    }
  }

  /** Each file counts with its own bytes and nothing else. */
  lemma TotalBytesOfUpdate(files: seq<RequiredFile>, i: nat, file: RequiredFile)
    requires i < |files|
    ensures TotalBytes(files[i := file]) == TotalBytes(files) - files[i].bytes + file.bytes
    ensures TotalBytes([file]) == file.bytes && TotalBytes([]) == 0
  {
    var before, after := files[..i], files[i + 1..];
    assert files == before + ([files[i]] + after) && files[i := file] == before + ([file] + after);
    TotalBytesConcat(before, [files[i]] + after);
    TotalBytesConcat([files[i]], after);
    TotalBytesConcat(before, [file] + after);
    TotalBytesConcat([file], after);
    assert [files[i]][..0] == [] && [file][..0] == [];
  }

  lemma TakeOut(files: seq<RequiredFile>, i: nat) returns (rest: seq<RequiredFile>)
    requires i < |files|
    ensures multiset(files) == multiset(rest) + multiset{files[i]}
    ensures TotalBytes(files) == TotalBytes(rest) + files[i].bytes
  {
    var before, after := files[..i], files[i + 1..];
    rest := before + after;
    assert files == before + ([files[i]] + after);
    assert multiset(files) == multiset(before) + (multiset{files[i]} + multiset(after));
    TotalBytesConcat(before, after);
    TotalBytesConcat(before, [files[i]] + after);
    TotalBytesConcat([files[i]], after);
    assert [files[i]][..0] == [];
  }

  lemma {:induction false} TotalBytesOfPermutation(files: seq<RequiredFile>, others: seq<RequiredFile>)
    requires multiset(files) == multiset(others)
    ensures TotalBytes(files) == TotalBytes(others)
    decreases |files|
  {
    if files == [] {
      assert |multiset(others)| == 0;
    } else {
      var front, last := files[..|files| - 1], files[|files| - 1];
      assert files == front + [last];
      assert last in multiset(others);
      var i :| 0 <= i < |others| && others[i] == last;
      var rest := TakeOut(others, i);
      assert multiset(files) == multiset(front) + multiset{last};
      assert multiset(front) == multiset(others) - multiset{last} == multiset(rest);
      TotalBytesOfPermutation(front, rest);
    }
  }

  lemma LargestOfPermutation(files: seq<RequiredFile>, others: seq<RequiredFile>, bytes: nat)
    requires multiset(files) == multiset(others) && IsLargest(files, bytes)
    ensures IsLargest(others, bytes)
  {
    forall i | 0 <= i < |others|
      ensures others[i].bytes <= bytes
    {
      assert others[i] in multiset(files);
    }
    var i :| 0 <= i < |files| && files[i].bytes == bytes;
    assert files[i] in multiset(others);
  }

  /** So what is downloaded adds up to the declared total, and its largest part is the declared largest file. */
  lemma DirectBundleSizesAddUp(bundle: Bundle)
    requires ConstraintsAccepted(bundle) && bundle.constraints.DirectInstall?
    ensures TotalBytes(AllDelivered(bundle.artifacts)) == bundle.constraints.maxTotalWrittenBytes
    ensures IsLargest(AllDelivered(bundle.artifacts), bundle.constraints.maxWrittenFileBytes)
  {
    DirectBundleIsABijection(bundle);
    TotalBytesOfPermutation(AllDelivered(bundle.artifacts), bundle.constraints.requiredFiles);
    LargestOfPermutation(bundle.constraints.requiredFiles, AllDelivered(bundle.artifacts),
      bundle.constraints.maxWrittenFileBytes);
  }

  function Elements(paths: seq<string>): set<string> {
    set i | 0 <= i < |paths| :: paths[i]
  }

  lemma {:induction false} DistinctElements(paths: seq<string>)
    requires forall i, j :: 0 <= i < j < |paths| ==> paths[i] != paths[j]
    ensures |Elements(paths)| == |paths|
  {
    if paths != [] {
      var front, last := paths[..|paths| - 1], paths[|paths| - 1];
      DistinctElements(front);
      assert Elements(paths) == Elements(front) + {last} by {
        assert forall i :: 0 <= i < |front| ==> front[i] == paths[i];
      }
      assert last !in Elements(front);
    }
  }

  lemma SubsetOfSameSize(a: set<string>, b: set<string>)
    requires a <= b && |a| == |b|
    ensures a == b
  {
    assert b == a + (b - a);
    assert |b - a| == 0;
  }

  function FilePaths(files: seq<RequiredFile>): (r: seq<string>)
    ensures |r| == |files| && forall i :: 0 <= i < |files| ==> r[i] == files[i].path
  {
    seq(|files|, i requires 0 <= i < |files| => files[i].path)
  }

  /** No required path is, or lies above, another, in terms of path components. */
  lemma NoRequiredPathIsAnAncestor(paths: seq<string>, i: nat, j: nat)
    requires PathsAcceptedUpTo(paths, |paths|) && i < |paths| && j < |paths| && i != j
    ensures !(Split(paths[i]) <= Split(paths[j]))
  {
    OverlapIsComponentPrefix(paths[i], paths[j]);
    assert i < j ==> !OverlapsLater(paths, i);
    assert j < i ==> !OverlapsLater(paths, j);
  }

  /** By counting, the required paths of an accepted bundle are exactly the paths of its required files. */
  lemma RequiredPathsAreTheFiles(bundle: Bundle)
    requires BundleAccepted(bundle)
    ensures Elements(bundle.requiredPaths) == Elements(FilePaths(bundle.constraints.requiredFiles))
  {
    var paths, files := bundle.requiredPaths, bundle.constraints.requiredFiles;
    forall i, j | 0 <= i < j < |paths|
      ensures paths[i] != paths[j]
    {
      NoRequiredPathIsAnAncestor(paths, i, j);
    }
    DistinctElements(paths);
    DistinctElements(FilePaths(files));
    forall path | path in Elements(paths)
      ensures path in Elements(FilePaths(files))
    {
      var i :| 0 <= i < |paths| && paths[i] == path;
      assert HasPath(files, paths[i]);
      var k :| 0 <= k < |files| && files[k].path == path;
      assert FilePaths(files)[k] == path;
    }
    SubsetOfSameSize(Elements(paths), Elements(FilePaths(files)));
  }

  /** Hence installing the files of an accepted bundle never needs one path as both a file and a directory. */
  lemma FilesFormATree(bundle: Bundle, i: nat, j: nat)
    requires BundleAccepted(bundle)
    requires i < |bundle.constraints.requiredFiles| && j < |bundle.constraints.requiredFiles| && i != j
    ensures !(Split(bundle.constraints.requiredFiles[i].path) <= Split(bundle.constraints.requiredFiles[j].path))
  {
    var files := bundle.constraints.requiredFiles;
    RequiredPathsAreTheFiles(bundle);
    assert FilePaths(files)[i] in Elements(bundle.requiredPaths)
        && FilePaths(files)[j] in Elements(bundle.requiredPaths);
    var k :| 0 <= k < |bundle.requiredPaths| && bundle.requiredPaths[k] == files[i].path;
    var l :| 0 <= l < |bundle.requiredPaths| && bundle.requiredPaths[l] == files[j].path;
    assert files[i].path != files[j].path;
    NoRequiredPathIsAnAncestor(bundle.requiredPaths, k, l);
  }

  // The canonical payload

  predicate IdBefore(left: Artifact, right: Artifact) {
    TextBefore(left.artifactId, right.artifactId)
  }

  /** The artifacts in the order canonical_bundle_payload serializes them. */
  function CanonicalOrder(artifacts: seq<Artifact>): seq<Artifact> {
    Sort(artifacts, IdBefore)
  }

  lemma IdOrderIsWeak()
    ensures WeakOrder(IdBefore)
  {
    forall a: Artifact, b: Artifact
      ensures IdBefore(a, b) ==> !IdBefore(b, a)
    {
      TextOrderIsStrict(a.artifactId, b.artifactId);
    }
    forall a: Artifact, b: Artifact, c: Artifact | !IdBefore(b, a) && !IdBefore(c, b)
      ensures !IdBefore(c, a)
    {
      TextOrderChains(a.artifactId, b.artifactId, c.artifactId);
    }
  }

  lemma AcceptedIdsAreSeparated(artifacts: seq<Artifact>)
    requires ArtifactsAcceptedUpTo(artifacts, |artifacts|)
    ensures Separated(artifacts, IdBefore)
  {
    forall i, j | 0 <= i < j < |artifacts|
      ensures IdBefore(artifacts[i], artifacts[j]) || IdBefore(artifacts[j], artifacts[i])
    {
      assert !DuplicateAt(artifacts, j);
      TextOrderIsStrict(artifacts[i].artifactId, artifacts[j].artifactId);
    }
  }

  /** What is hashed as the identity of an accepted bundle does not depend on the order its artifacts are listed in. */
  lemma IdentityIgnoresListingOrder(artifacts: seq<Artifact>, relisted: seq<Artifact>)
    requires ArtifactsAcceptedUpTo(artifacts, |artifacts|) && multiset(relisted) == multiset(artifacts)
    ensures CanonicalOrder(relisted) == CanonicalOrder(artifacts)
  {
    IdOrderIsWeak();
    AcceptedIdsAreSeparated(artifacts);
    SortIsSorted(artifacts, IdBefore);
    SortIsSorted(relisted, IdBefore);
    SeparatedIsUnordered(artifacts, CanonicalOrder(artifacts), IdBefore);
    SortedIsUnique(CanonicalOrder(artifacts), CanonicalOrder(relisted), IdBefore);
  }
}
