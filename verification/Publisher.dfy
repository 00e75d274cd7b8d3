/**
  The asset publisher. Uploads add immutable files and then a receipt; activation moves the current
  release by compare-and-swap. Commands hold a lock, so they do not overlap, but any of them can die
  between two effects on the file system: each takes the number of effects it will still complete.
 */
module Publisher {
  import opened Prelude
  import opened Manifest
  import opened Archive

  /** Foreign code: digests, the manifest reader and the compressor. Nothing is assumed of digests. */
  datatype Codec = Codec(
    sha: Bytes -> Digest, shaArchive: seq<Member> -> Digest, parse: Bytes -> Option<Manifest>,
    gzip: Bytes -> Bytes, gunzip: Bytes -> Option<Bytes>)

  ghost predicate Lossless(c: Codec) { forall data :: c.gunzip(c.gzip(data)) == Some(data) }

  // ---------------------------------------------------------------- the disk

  datatype Receipt = Receipt(release: Digest, manifest: Manifest)

  datatype Active = Active(release: Digest, sourceCommit: string, htmlSha256: Digest, fileCount: nat)

  function ActiveOf(r: Receipt): Active {
    Active(r.release, r.manifest.sourceCommit, r.manifest.htmlSha256, |r.manifest.files|)
  }

  datatype Disk = Disk(files: map<Path, Bytes>, receipts: map<Digest, Receipt>, current: Option<Active>)

  function ReleaseOf(current: Option<Active>): Option<Digest> {
    if current.Some? then Some(current.value.release) else None
  }

  /** A row of a manifest is served: with its digest, and compressed where that pays. */
  ghost predicate Served(c: Codec, files: map<Path, Bytes>, row: Row) {
    && row.path in files && c.sha(files[row.path]) == row.sha256
    && (Compressible(row) ==> Compressed(row.path) in files)
  }

  ghost predicate Prepared(c: Codec, files: map<Path, Bytes>, m: Manifest) {
    ManifestOk(m) && forall i :: 0 <= i < |m.files| ==> Served(c, files, m.files[i])
  }

  /** Every compressed copy belongs to a file and expands to it. */
  ghost predicate CopiesOk(c: Codec, files: map<Path, Bytes>) {
    forall p :: AssetPath(p) && Compressed(p) in files ==>
      p in files && c.gunzip(files[Compressed(p)]) == Some(files[p])
  }

  ghost predicate DiskOk(c: Codec, d: Disk) {
    && CopiesOk(c, d.files) && OnlyPublic(d.files)
    && (forall r :: r in d.receipts ==>
          IsHex(r, 64) && d.receipts[r].release == r && Prepared(c, d.files, d.receipts[r].manifest))
    && (d.current.Some? ==>
          d.current.value.release in d.receipts && d.current.value == ActiveOf(d.receipts[d.current.value.release]))
  }

  /** Public files are never changed or removed. */
  ghost predicate Keeps(a: map<Path, Bytes>, b: map<Path, Bytes>) {
    forall p :: p in a && !Hidden(p) ==> p in b && b[p] == a[p]
  }

  /** Assets and compressed copies of assets. */
  ghost predicate Public(p: Path) { AssetPath(p) || exists q :: AssetPath(q) && p == Compressed(q) }

  /** Whatever is visible and new is an asset or a copy of one. */
  ghost predicate OnlyPublicAdded(a: map<Path, Bytes>, b: map<Path, Bytes>) {
    forall p :: p in b && p !in a && !Hidden(p) ==> Public(p)
  }

  ghost predicate OnlyPublic(files: map<Path, Bytes>) { forall p :: p in files && !Hidden(p) ==> Public(p) }

  /** A successful compare-and-swap of the current release. */
  datatype Activation = Activation(previous: Option<Digest>, release: Digest)

  /** What one command may do to the disk, whether it finishes or dies. */
  ghost predicate DiskStep(c: Codec, a: Disk, b: Disk, act: Option<Activation>) {
    && Keeps(a.files, b.files) && CopiesOk(c, b.files) && OnlyPublicAdded(a.files, b.files)
    && (b.receipts == a.receipts
        || exists r: Receipt :: AddsReceipt(c, a, b, r))
    && (match act
        case None => b.current == a.current
        case Some(Activation(previous, release)) =>
          && b.receipts == a.receipts
          && ReleaseOf(a.current) == previous && previous != Some(release)
          && release in a.receipts && b.current == Some(ActiveOf(a.receipts[release])))
  }

  ghost predicate AddsReceipt(c: Codec, a: Disk, b: Disk, r: Receipt) {
    r.release !in a.receipts && IsHex(r.release, 64) && b.receipts == a.receipts[r.release := r]
    && Prepared(c, b.files, r.manifest)
  }

  // ---------------------------------------------------------------- runs

  lemma PreparedLasts(c: Codec, a: map<Path, Bytes>, b: map<Path, Bytes>, m: Manifest)
    requires Prepared(c, a, m) && Keeps(a, b)
    ensures Prepared(c, b, m)
  {
    hide ManifestOk, AssetPath;
    forall i | 0 <= i < |m.files| ensures Served(c, b, m.files[i]) {
      assert Served(c, a, m.files[i]);
      RowsAreVisible(m, i);
    }
  }

  lemma RowsAreVisible(m: Manifest, i: nat)
    requires ManifestOk(m) && i < |m.files|
    ensures AssetPath(m.files[i].path) && !Hidden(m.files[i].path) && !Hidden(Compressed(m.files[i].path))
  {
    assert RowOk(m.files[i]);
    CompressedIsApart(m.files[i].path);
  }

  lemma StepKeepsDisk(c: Codec, a: Disk, b: Disk, act: Option<Activation>)
    requires DiskOk(c, a) && DiskStep(c, a, b, act)
    ensures DiskOk(c, b)
  {
    hide Keeps, Prepared, CopiesOk, IsHex;
    forall r | r in a.receipts ensures Prepared(c, b.files, a.receipts[r].manifest) {
      PreparedLasts(c, a.files, b.files, a.receipts[r].manifest);
    }
  }

  /** The release that the latest successful swap put in place. */
  function Latest(acts: seq<Option<Activation>>): Option<Digest> {
    if acts == [] then None
    else if acts[|acts| - 1].Some? then Some(acts[|acts| - 1].value.release)
    else Latest(acts[..|acts| - 1])
  }

  const EMPTY := Disk(map[], map[], None)

  ghost predicate IsRun(c: Codec, disks: seq<Disk>, acts: seq<Option<Activation>>) {
    && |disks| == |acts| + 1 && disks[0] == EMPTY
    && forall k :: 0 <= k < |acts| ==> DiskStep(c, disks[k], disks[k + 1], acts[k])
  }

  /** In every run the disk stays sound, and current names the release of the latest swap. */
  lemma {:induction false} RunsAreSafe(c: Codec, disks: seq<Disk>, acts: seq<Option<Activation>>)
    requires IsRun(c, disks, acts)
    ensures DiskOk(c, disks[|acts|]) && ReleaseOf(disks[|acts|].current) == Latest(acts)
  {
    hide DiskStep;
    if acts != [] {
      var n := |acts| - 1;
      RunsAreSafe(c, disks[..n + 1], acts[..n]);
      assert DiskStep(c, disks[n], disks[n + 1], acts[n]);
      StepKeepsDisk(c, disks[n], disks[n + 1], acts[n]);
      SwapsSetCurrent(c, disks[n], disks[n + 1], acts[n]);
      hide DiskOk;
    }
  }

  lemma SwapsSetCurrent(c: Codec, a: Disk, b: Disk, act: Option<Activation>)
    requires DiskOk(c, a) && DiskStep(c, a, b, act)
    ensures ReleaseOf(b.current) == if act.Some? then Some(act.value.release) else ReleaseOf(a.current)
    ensures act.Some? ==> act.value.previous == ReleaseOf(a.current) && act.value.release in a.receipts
  {
    hide CopiesOk, Prepared, Keeps;
  }

  /** The swaps form a chain: each replaces the release of the one before, by one that was prepared by then. */
  lemma SwapsFormAChain(c: Codec, disks: seq<Disk>, acts: seq<Option<Activation>>, k: nat)
    requires IsRun(c, disks, acts) && k < |acts| && acts[k].Some?
    ensures acts[k].value.previous == Latest(acts[..k])
    ensures acts[k].value.release in disks[k].receipts
    ensures Prepared(c, disks[k].files, disks[k].receipts[acts[k].value.release].manifest)
  {
    hide DiskStep, Prepared;
    assert IsRun(c, disks[..k + 1], acts[..k]);
    RunsAreSafe(c, disks[..k + 1], acts[..k]);
    assert DiskStep(c, disks[k], disks[k + 1], acts[k]);
    SwapsSetCurrent(c, disks[k], disks[k + 1], acts[k]);
  }

  lemma KeepsReflexive(a: map<Path, Bytes>)
    ensures Keeps(a, a)
  {
  }

  lemma PublicTransitive(a: map<Path, Bytes>, b: map<Path, Bytes>, d: map<Path, Bytes>)
    requires OnlyPublicAdded(a, b) && OnlyPublicAdded(b, d)
    ensures OnlyPublicAdded(a, d)
  {
    hide Public, Hidden;
  }

  lemma KeepsTransitive(a: map<Path, Bytes>, b: map<Path, Bytes>, d: map<Path, Bytes>)
    requires Keeps(a, b) && Keeps(b, d)
    ensures Keeps(a, d)
  {
  }

  /** From any point of a run on, public files and receipts stay exactly as they are. */
  lemma {:induction false} PublishedIsForever(c: Codec, disks: seq<Disk>, acts: seq<Option<Activation>>, j: nat, k: nat)
    requires IsRun(c, disks, acts) && j <= k <= |acts|
    ensures Keeps(disks[j].files, disks[k].files)
    ensures forall r :: r in disks[j].receipts ==> r in disks[k].receipts && disks[k].receipts[r] == disks[j].receipts[r]
    decreases k
  {
    hide CopiesOk, Prepared, Keeps;
    if j == k {
      KeepsReflexive(disks[j].files);
    } else {
      PublishedIsForever(c, disks, acts, j, k - 1);
      assert DiskStep(c, disks[k - 1], disks[k], acts[k - 1]);
      KeepsTransitive(disks[j].files, disks[k - 1].files, disks[k].files);
    }
  }

  // ---------------------------------------------------------------- what an upload must satisfy

  /** The files of the archive are exactly the rows of the manifest, with their sizes and digests. */
  ghost predicate Matches(c: Codec, members: seq<Member>, m: Manifest) {
    && AssetNames(members) == PathsOf(m.files)
    && forall i, j :: 0 <= i < |members| && members[i].IsAsset() && 0 <= j < |m.files| && m.files[j].path == members[i].name ==>
         |members[i].content.data| == m.files[j].bytes && c.sha(members[i].content.data) == m.files[j].sha256
  }

  /** No file that is already published has another digest than the manifest declares for its name. */
  ghost predicate NoCollision(c: Codec, files: map<Path, Bytes>, m: Manifest) {
    forall j :: 0 <= j < |m.files| && m.files[j].path in files ==> c.sha(files[m.files[j].path]) == m.files[j].sha256
  }

  ghost predicate Acceptable(c: Codec, d: Disk, release: Digest, members: seq<Member>) {
    && IsHex(release, 64) && c.shaArchive(members) == release
    && (release !in d.receipts ==>
          && ArchiveOk(members)
          && var m := ManifestOf(c, members);
             m.Some? && ManifestOk(m.value) && Matches(c, members, m.value) && NoCollision(c, d.files, m.value))
  }

  /** The manifest in an archive with distinct names. */
  ghost function ManifestOf(c: Codec, members: seq<Member>): Option<Manifest> {
    if i :| 0 <= i < |members| && members[i].name == MANIFEST_NAME && members[i].content.File? then
      c.parse(members[i].content.data)
    else None
  }

  lemma NextAsset(members: seq<Member>, i: nat)
    requires i < |members|
    ensures AssetNames(members[..i + 1]) == AssetNames(members[..i]) + if members[i].IsAsset() then {members[i].name} else {}
  {
    forall name | name in AssetNames(members[..i]) ensures name in AssetNames(members[..i + 1]) {
      var j :| 0 <= j < i && members[..i][j].IsAsset() && members[..i][j].name == name;
      assert members[..i + 1][j].name == name;
    }
    if members[i].IsAsset() { assert members[..i + 1][i].name in AssetNames(members[..i + 1]); }
  }

  // ---------------------------------------------------------------- the publisher

  class Publisher {
    const c: Codec
    var files: map<Path, Bytes>
    var receipts: map<Digest, Receipt>
    var current: Option<Active>

    ghost function View(): Disk reads this { Disk(files, receipts, current) }

    constructor (codec: Codec)
      ensures c == codec && View() == EMPTY && DiskOk(c, View())
    {
      c := codec;
      files, receipts, current := map[], map[], None;
    }

    /** Stage a file under a hidden name, then rename it into place; either effect may be the last. */
    method Replace(staging: Path, target: Path, data: Bytes, budget: nat) returns (ok: bool, left: nat)
      requires Hidden(staging) && !Hidden(target) && target !in files
      modifies this`files
      ensures Adds(old(files), files, target, data)
      ensures ok ==> target in files
      ensures budget >= 2 ==> ok && left == budget - 2
    {
      if budget == 0 {
        var torn :| 0 <= torn <= |data|;
        files := files[staging := data[..torn]];
        return false, 0;
      }
      files := files[staging := data];
      if budget == 1 { return false, 0; }
      files := (files - {staging})[target := data];
      ok, left := true, budget - 2;
    }

    /** The second pass: unpacks every asset, checked against its row and against what is published. */
    method Unpack(members: seq<Member>, m: Manifest, index: map<Path, Row>)
      returns (r: Result<map<Path, Bytes>, PublishError>)
      requires AssetNames(members) == PathsOf(m.files) && index.Keys == PathsOf(m.files)
      requires forall i :: 0 <= i < |m.files| ==> m.files[i].path in index && index[m.files[i].path] == m.files[i]
      ensures r.Ok? <==> Matches(c, members, m) && NoCollision(c, files, m)
      ensures r.Ok? ==> r.value.Keys == PathsOf(m.files)
      ensures r.Ok? ==> forall row :: row in m.files ==> row.path in r.value && c.sha(r.value[row.path]) == row.sha256
    {
      hide AssetNames, PathsOf;
      var unpacked: map<Path, Bytes> := map[];
      NoAssets(members);
      for i := 0 to |members|
        invariant unpacked.Keys == AssetNames(members[..i])
        invariant forall p :: p in unpacked ==> p in index && c.sha(unpacked[p]) == index[p].sha256
        invariant forall p :: p in unpacked && p in files ==> c.sha(files[p]) == index[p].sha256
        invariant forall j :: 0 <= j < i && members[j].IsAsset() ==>
                    members[j].name in index && |members[j].content.data| == index[members[j].name].bytes
                    && c.sha(members[j].content.data) == index[members[j].name].sha256
      {
        var member := members[i];
        NextAsset(members, i);
        if member.IsAsset() {
          AssetHasRow(members, m, i);
          var row := index[member.name];
          if |member.content.data| != row.bytes { return Err(AssetSizeMismatch); }
          if c.sha(member.content.data) != row.sha256 { return Err(AssetDigestMismatch); }
          unpacked := unpacked[member.name := member.content.data];
          if member.name in files && c.sha(files[member.name]) != row.sha256 { return Err(FilenameCollision); }
        }
      }
      assert members[..|members|] == members;
      forall j | 0 <= j < |m.files| ensures m.files[j].path in unpacked { RowHasPath(m.files, j); }
      r := Ok(unpacked);
    }

    /** Serve one row: its file, unless already there, and its compressed copy where that pays. */
    method PublishRow(row: Row, data: Bytes, release: Digest, budget: nat) returns (ok: bool, left: nat)
      requires Lossless(c) && CopiesOk(c, files) && AssetPath(row.path) && c.sha(data) == row.sha256
      requires row.path in files ==> c.sha(files[row.path]) == row.sha256
      modifies this`files
      ensures Keeps(old(files), files) && CopiesOk(c, files) && OnlyPublicAdded(old(files), files)
      ensures forall p :: AssetPath(p) && p in files && p !in old(files) ==> p == row.path && c.sha(files[p]) == row.sha256
      ensures ok ==> Served(c, files, row)
      ensures ok && row.bytes >= 1024 && (EndsWith(row.path, ".js") || EndsWith(row.path, ".css") || EndsWith(row.path, ".svg")) ==>
                Compressed(row.path) in files
      ensures !(row.bytes >= 1024 && (EndsWith(row.path, ".js") || EndsWith(row.path, ".css") || EndsWith(row.path, ".svg"))) ==>
                (Compressed(row.path) in files ==> Compressed(row.path) in old(files))
      ensures budget >= 4 ==> ok && left >= budget - 4
    {
      hide AssetPath, Hidden;
      CompressedIsApart(row.path);
      AssetsAreVisible(row.path);
      ok, left := true, budget;
      ghost var before := files;
      if row.path !in files {
        StagingIsHidden(row.path, ".upload-", release);
        ok, left := Replace(Staging(row.path, ".upload-", release), row.path, data, left);
        AssetAdded(c, before, files, row.path, data);
        PublicAdded(before, files, row.path, row.path, data);
        if !ok { return; }
      }
      ghost var between := files;
      if Compressible(row) {
        var copy := Compressed(row.path);
        // A copy that exists expands to its file, so it is never written again.
        if copy !in files || c.gunzip(files[copy]) != Some(files[row.path]) {
          StagingIsHidden(row.path, ".gzip-", release);
          var compressed := c.gzip(files[row.path]);
          ok, left := Replace(Staging(row.path, ".gzip-", release), copy, compressed, left);
          CopyAdded(c, between, files, row.path, compressed);
          PublicAdded(between, files, row.path, copy, compressed);
          KeepsTransitive(before, between, files);
          PublicTransitive(before, between, files);
        }
      }
    }

    /** Add every missing file and compressed copy, in the order of the manifest. */
    method PublishRows(m: Manifest, unpacked: map<Path, Bytes>, release: Digest, budget: nat)
      returns (ok: bool, left: nat)
      requires Lossless(c) && ManifestOk(m) && CopiesOk(c, files) && NoCollision(c, files, m)
      requires forall row :: row in m.files ==> row.path in unpacked && c.sha(unpacked[row.path]) == row.sha256
      modifies this`files
      ensures Keeps(old(files), files) && CopiesOk(c, files) && OnlyPublicAdded(old(files), files)
      ensures ok ==> Prepared(c, files, m)
      ensures budget >= 4 * |m.files| ==> ok && left >= budget - 4 * |m.files|
    {
      hide AssetPath, Hidden, Keeps, CopiesOk, Served, Lossless;
      KeepsReflexive(files);
      ok, left := true, budget;
      for i := 0 to |m.files|
        invariant ok
        invariant Keeps(old(files), files) && CopiesOk(c, files) && NoCollision(c, files, m)
        invariant OnlyPublicAdded(old(files), files)
        invariant forall j :: 0 <= j < i ==> Served(c, files, m.files[j])
        invariant budget >= 4 * |m.files| ==> left >= budget - 4 * i
      {
        ghost var before := files;
        assert RowOk(m.files[i]);
        ok, left := PublishRow(m.files[i], unpacked[m.files[i].path], release, left);
        KeepsTransitive(old(files), before, files);
        PublicTransitive(old(files), before, files);
        if !ok { return; }
        RowsStayServed(c, before, files, m, i);
        StillNoCollision(c, before, files, m, i);
      }
    }

    /**
      Publish an archive. It is rejected exactly when the archive is not acceptable, and fails otherwise
      only if the process dies before the receipt is written; then it can be repeated.
     */
    method Upload(release: Digest, members: seq<Member>, budget: nat) returns (r: Result<Receipt, Failure>)
      requires Lossless(c) && DiskOk(c, View())
      modifies this`files, this`receipts
      ensures DiskStep(c, old(View()), View(), None)
      ensures r.Ok? || r.error == WriteFailed <==> Acceptable(c, old(View()), release, members)
      ensures r.Ok? ==> release in receipts && receipts[release] == r.value
      ensures r.Ok? && release !in old(receipts) ==>
                Some(r.value.manifest) == ManifestOf(c, members) && receipts == old(receipts)[release := r.value]
      ensures r.Ok? && release in old(receipts) ==> View() == old(View())
      ensures r.Err? ==> receipts == old(receipts)
      ensures Acceptable(c, old(View()), release, members) && budget >= 4 * MAX_FILES + 1 ==> r.Ok?
    {
      hide IsHex, CopiesOk, Prepared, Keeps, ArchiveOk, Matches, NoCollision, ManifestOf, Lossless, PathsOf, AssetNames;
      KeepsReflexive(files);
      if !IsHex(release, 64) || c.shaArchive(members) != release { return Err(Rejected(ArchiveDigestMismatch)); }
      if release in receipts { return Ok(receipts[release]); }
      var scan := ScanArchive(members);
      if scan.Err? { return Err(Rejected(scan.error)); }
      var parsed := c.parse(members[scan.value].content.data);
      ManifestIsRead(c, members, scan.value);
      if parsed.None? { return Err(Rejected(UnsupportedManifest)); }
      var m := parsed.value;
      MatchedNames(c, members, m);
      var index := ValidateManifest(m);
      if index.Err? { return Err(Rejected(index.error)); }
      if AssetNames(members) != index.value.Keys { return Err(Rejected(ManifestMismatch)); }
      var unpacked := Unpack(members, m, index.value);
      if unpacked.Err? { return Err(Rejected(unpacked.error)); }
      var ok, left := PublishRows(m, unpacked.value, release, budget);
      if !ok || left == 0 { return Err(WriteFailed); }
      var receipt := Receipt(release, m);
      receipts := receipts[release := receipt];
      assert AddsReceipt(c, old(View()), View(), receipt);
      r := Ok(receipt);
    }

    /**
      Move current from the previous release to a prepared one. Succeeds exactly when the release is prepared
      and current is still the previous release, or already this one; a release that is already active stays.
     */
    method Activate(release: Digest, previous: Option<Digest>, budget: nat)
      returns (r: Result<Active, Failure>, ghost act: Option<Activation>)
      requires DiskOk(c, View())
      modifies this`current
      ensures DiskStep(c, old(View()), View(), act)
      ensures r.Ok? || r.error == WriteFailed
              <==> release in receipts && (ReleaseOf(old(current)) == Some(release) || ReleaseOf(old(current)) == previous)
      ensures r.Ok? ==> current == Some(r.value) && r.value == ActiveOf(receipts[release]) && r.value.release == release
      ensures r.Ok? ==>
                && r.value.sourceCommit == receipts[release].manifest.sourceCommit
                && r.value.htmlSha256 == receipts[release].manifest.htmlSha256
                && r.value.fileCount == |receipts[release].manifest.files|
      ensures r.Ok? && act.None? ==> current == old(current)
      ensures r.Err? ==> current == old(current)
      ensures budget > 0 ==> r != Err(WriteFailed)
    {
      hide CopiesOk, Keeps;
      KeepsReflexive(files);
      act := None;
      if !IsHex(release, 64) || release !in receipts { return Err(Rejected(NotPrepared)), None; }
      var receipt := receipts[release];
      if ReleaseOf(current) == Some(release) { return Ok(current.value), None; }
      if ReleaseOf(current) != previous { return Err(Rejected(ActiveReleaseChanged)), None; }
      var rows := receipt.manifest.files;
      for i := 0 to |rows| {
        // Every prepared asset still has its digest, so this check never fails.
        assert Served(c, files, rows[i]);
        if rows[i].path !in files || c.sha(files[rows[i].path]) != rows[i].sha256 {
          assert false;
        }
      }
      if budget == 0 { return Err(WriteFailed), None; }
      current := Some(ActiveOf(receipt));
      act := Some(Activation(previous, release));
      r := Ok(ActiveOf(receipt));
    }

    /** One command under the lock. */
    method Dispatch(command: Command, budget: nat) returns (r: Result<Reply, Failure>, ghost act: Option<Activation>)
      requires Lossless(c) && DiskOk(c, View())
      modifies this
      ensures DiskStep(c, old(View()), View(), act) && DiskOk(c, View())
      ensures command.Status? ==> r == Ok(Current(current)) && View() == old(View())
      ensures command.UploadArchive? ==> act.None? && (r.Ok? ==> r.value == PreparedRelease(command.release) && command.release in receipts)
      ensures command.ActivateRelease? && r.Ok? ==> ReleaseOf(current) == Some(command.release)
    {
      hide DiskOk, DiskStep, Acceptable, Lossless;
      act := None;
      match command {
        case Status =>
          NothingHappened(c, View());
          r := Ok(Current(current));
        case UploadArchive(release, members) =>
          var up := Upload(release, members, budget);
          r := if up.Ok? then Ok(PreparedRelease(release)) else Err(up.error);
        case ActivateRelease(release, previous) =>
          var active, done := Activate(release, previous, budget);
          act := done;
          r := if active.Ok? then Ok(Current(Some(active.value))) else Err(active.error);
      }
      StepKeepsDisk(c, old(View()), View(), act);
    }
  }

  datatype Failure = Rejected(reason: PublishError) | WriteFailed

  datatype Command =
    | Status
    | UploadArchive(release: Digest, members: seq<Member>)
    | ActivateRelease(release: Digest, previous: Option<Digest>)

  datatype Reply = Current(active: Option<Active>) | PreparedRelease(release: Digest)

  lemma NothingHappened(c: Codec, d: Disk)
    requires DiskOk(c, d)
    ensures DiskStep(c, d, d, None)
  {
  }

  lemma ManifestIsRead(c: Codec, members: seq<Member>, i: nat)
    requires i < |members| && members[i].name == MANIFEST_NAME && members[i].content.File? && ArchiveOk(members)
    ensures ManifestOf(c, members) == c.parse(members[i].content.data)
  {
  }

  lemma MatchedNames(c: Codec, members: seq<Member>, m: Manifest)
    ensures Matches(c, members, m) ==> AssetNames(members) == PathsOf(m.files)
  {
  }

  lemma AssetsAreVisible(p: Path)
    requires AssetPath(p)
    ensures !Hidden(p)
  {
  }

  /** One public file at most has been added. */
  ghost predicate Adds(a: map<Path, Bytes>, b: map<Path, Bytes>, target: Path, data: Bytes) {
    Keeps(a, b) && forall p :: !Hidden(p) && p in b && p !in a ==> p == target && b[p] == data
  }

  lemma AssetAdded(c: Codec, a: map<Path, Bytes>, b: map<Path, Bytes>, path: Path, data: Bytes)
    requires CopiesOk(c, a) && Adds(a, b, path, data) && AssetPath(path)
    ensures CopiesOk(c, b)
    ensures forall p :: AssetPath(p) && p in b && p !in a ==> p == path && b[p] == data
  {
    hide AssetPath, Hidden;
    forall p | AssetPath(p) && Compressed(p) in b
      ensures p in b && c.gunzip(b[Compressed(p)]) == Some(b[p])
    {
      CompressedIsApart(p);
      AssetsAreVisible(p);
    }
    forall p | AssetPath(p) && p in b && p !in a ensures p == path && b[p] == data { AssetsAreVisible(p); }
  }

  lemma PublicAdded(a: map<Path, Bytes>, b: map<Path, Bytes>, path: Path, target: Path, data: Bytes)
    requires Adds(a, b, target, data) && AssetPath(path) && (target == path || target == Compressed(path))
    ensures OnlyPublicAdded(a, b)
  {
    hide AssetPath, Hidden;
  }

  lemma CopyAdded(c: Codec, a: map<Path, Bytes>, b: map<Path, Bytes>, path: Path, compressed: Bytes)
    requires CopiesOk(c, a) && Adds(a, b, Compressed(path), compressed) && AssetPath(path) && path in a
    requires c.gunzip(compressed) == Some(a[path])
    ensures CopiesOk(c, b)
    ensures forall p :: AssetPath(p) && p in b ==> p in a
  {
    hide AssetPath, Hidden;
    CompressedIsApart(path);
    AssetsAreVisible(path);
    forall p | AssetPath(p) ensures p in b ==> p in a { AssetsAreVisible(p); }
    forall p | AssetPath(p) && Compressed(p) in b
      ensures p in b && c.gunzip(b[Compressed(p)]) == Some(b[p])
    {
      CompressedIsApart(p);
      AssetsAreVisible(p);
    }
  }

  lemma RowsStayServed(c: Codec, a: map<Path, Bytes>, b: map<Path, Bytes>, m: Manifest, i: nat)
    requires ManifestOk(m) && i <= |m.files| && Keeps(a, b)
    requires forall j :: 0 <= j < i ==> Served(c, a, m.files[j])
    ensures forall j :: 0 <= j < i ==> Served(c, b, m.files[j])
  {
    hide ManifestOk, AssetPath, Hidden;
    forall j | 0 <= j < i ensures Served(c, b, m.files[j]) {
      assert Served(c, a, m.files[j]);
      RowsAreVisible(m, j);
    }
  }

  lemma StillNoCollision(c: Codec, a: map<Path, Bytes>, b: map<Path, Bytes>, m: Manifest, i: nat)
    requires ManifestOk(m) && i < |m.files| && NoCollision(c, a, m) && Keeps(a, b)
    requires forall p :: AssetPath(p) && p in b && p !in a ==> p == m.files[i].path && c.sha(b[p]) == m.files[i].sha256
    ensures NoCollision(c, b, m)
  {
    hide AssetPath, Hidden;
    forall j | 0 <= j < |m.files| && m.files[j].path in b ensures c.sha(b[m.files[j].path]) == m.files[j].sha256 {
      RowsAreVisible(m, j);
    }
  }

  lemma NoAssets(members: seq<Member>)
    ensures AssetNames(members[..0]) == {}
  {
  }

  lemma AssetHasRow(members: seq<Member>, m: Manifest, i: nat)
    requires i < |members| && members[i].IsAsset() && AssetNames(members) == PathsOf(m.files)
    ensures members[i].name in PathsOf(m.files)
    ensures exists j :: 0 <= j < |m.files| && m.files[j].path == members[i].name
  {
    assert members[i].name in AssetNames(members);
  }

  lemma RowHasPath(rows: seq<Row>, j: nat)
    requires j < |rows|
    ensures rows[j].path in PathsOf(rows)
  {
  }
}
