/** Release manifests: asset names and the checks a manifest passes before anything is published. */
module Manifest {
  import opened Prelude

  type Bytes = seq<bv8>
  type Digest = string
  type Path = string

  const MAX_UNPACKED := 128 * 1024 * 1024
  const MAX_FILES := 10000

  datatype PublishError =
    | InvalidCommit | InvalidHtmlDigest | InvalidFileCount | InvalidAssetPath | DuplicateAsset | InvalidAssetSize
    | InvalidAssetDigest | UnpackedLimitExceeded | HtmlReferencesMissing
    | ArchiveDigestMismatch | TooManyMembers | SpecialFile | UnexpectedMember | ExpandedLimitExceeded
    | InvalidManifestSize | ManifestMissing | UnsupportedManifest | ManifestMismatch
    | AssetSizeMismatch | AssetDigestMismatch | FilenameCollision
    | NotPrepared | ActiveReleaseChanged | PreparedAssetChanged

  datatype Row = Row(path: Path, bytes: int, sha256: Digest)

  datatype Manifest = Manifest(sourceCommit: string, htmlSha256: Digest, files: seq<Row>, htmlAssets: seq<Path>)

  // ---------------------------------------------------------------- names

  predicate IsHex(s: string, length: nat) {
    |s| == length && forall i :: 0 <= i < |s| ==> '0' <= s[i] <= '9' || 'a' <= s[i] <= 'f'
  }

  predicate AssetChar(c: char) {
    'A' <= c <= 'Z' || 'a' <= c <= 'z' || '0' <= c <= '9' || c in {'_', '@', '+', '.', '/', '-'}
  }

  predicate EndsWith(s: string, suffix: string) { |suffix| <= |s| && s[|s| - |suffix|..] == suffix }

  /** Some component of the path begins with a dot. */
  predicate Hidden(path: Path) {
    exists i :: 0 <= i < |path| && path[i] == '.' && (i == 0 || path[i - 1] == '/')
  }

  /** No component is empty. */
  predicate Canonical(path: Path) {
    path != "" && path[|path| - 1] != '/' && forall i :: 0 <= i < |path| && path[i] == '/' ==> i > 0 && path[i - 1] != '/'
  }

  predicate AssetPath(path: Path) {
    && |"assets/"| < |path| && "assets/" <= path && (forall i :: 0 <= i < |path| ==> AssetChar(path[i]))
    && !Hidden(path) && Canonical(path) && !EndsWith(path, ".map") && !EndsWith(path, ".gz")
  }

  function Compressed(path: Path): Path { path + ".gz" }

  predicate Compressible(row: Row) {
    row.bytes >= 1024 && (EndsWith(row.path, ".js") || EndsWith(row.path, ".css") || EndsWith(row.path, ".svg"))
  }

  /** The directory part of a path, with its slash. */
  function Directory(path: Path): (d: Path)
    ensures d <= path && (d == "" || d[|d| - 1] == '/')
  {
    if path == "" then "" else if path[|path| - 1] == '/' then path else Directory(path[..|path| - 1])
  }

  function Staging(path: Path, tag: string, release: Digest): Path
    requires tag != "" && tag[0] == '.'
  {
    Directory(path) + tag + release
  }

  /** Staging files are hidden, so they are neither assets nor compressed copies of assets. */
  lemma StagingIsHidden(path: Path, tag: string, release: Digest)
    requires tag != "" && tag[0] == '.'
    ensures Hidden(Staging(path, tag, release)) && !AssetPath(Staging(path, tag, release))
  {
    var d := Directory(path);
    assert Staging(path, tag, release)[|d|] == '.';
    assert d != "" ==> Staging(path, tag, release)[|d| - 1] == d[|d| - 1];
  }

  /** The compressed copy of an asset is visible, is no asset, and belongs to that asset alone. */
  lemma CompressedIsApart(path: Path)
    requires AssetPath(path)
    ensures !Hidden(Compressed(path)) && !AssetPath(Compressed(path))
    ensures forall other: Path :: Compressed(other) == Compressed(path) ==> other == path
  {
    var z := Compressed(path);
    assert z[|z| - 3..] == ".gz";
    forall i | 0 <= i < |z| && z[i] == '.' ensures i > 0 && z[i - 1] != '/' {
      if i < |path| { assert path[i] == '.'; }
    }
    forall other: Path | Compressed(other) == z ensures other == path {
      assert Compressed(other)[..|z| - 3] == other && z[..|z| - 3] == path;
    }
  }

  // ---------------------------------------------------------------- paths by their components

  predicate NameChar(c: char) {
    'a' <= c <= 'z' || 'A' <= c <= 'Z' || '0' <= c <= '9' || c == '_' || c == '@' || c == '+' || c == '.' || c == '-'
  }

  /** One name of a path: not empty, not hidden, of letters, digits and five other characters. */
  predicate Component(name: string) {
    name != "" && name[0] != '.' && forall i :: 0 <= i < |name| ==> NameChar(name[i])
  }

  function Join(names: seq<string>): Path
    requires names != []
  {
    if |names| == 1 then names[0] else Join(names[..|names| - 1]) + "/" + names[|names| - 1]
  }

  ghost predicate Joined(path: Path, names: seq<string>) {
    names != [] && path == Join(names) && forall i :: 0 <= i < |names| ==> Component(names[i])
  }

  predicate Clean(path: Path) {
    (forall i :: 0 <= i < |path| ==> AssetChar(path[i])) && !Hidden(path) && Canonical(path)
  }

  lemma LongerIsClean(path: Path, name: string)
    requires Component(name)
    ensures Clean(path) ==> Clean(path + "/" + name)
    ensures Clean(name)
  {
    var z := path + "/" + name;
    assert z[|path|] == '/' && forall i :: 0 <= i < |name| ==> z[|path| + 1 + i] == name[i];
    assert forall i :: 0 <= i < |path| ==> z[i] == path[i];
    if Clean(path) {
      forall i | 0 <= i < |z| ensures AssetChar(z[i]) && (z[i] == '.' ==> i > 0 && z[i - 1] != '/')
                                      && (z[i] == '/' ==> i > 0 && z[i - 1] != '/')
      {
        if i < |path| { assert z[i] == path[i]; }
        else if i > |path| { assert z[i] == name[i - |path| - 1]; }
      }
    }
  }

  lemma {:induction false} JoinedIsClean(path: Path, names: seq<string>)
    requires Joined(path, names)
    ensures Clean(path)
    decreases |names|
  {
    hide Clean, Component;
    var init, last := names[..|names| - 1], names[|names| - 1];
    if |names| == 1 {
      LongerIsClean("", last);
    } else {
      JoinedIsClean(Join(init), init);
      LongerIsClean(Join(init), last);
    }
  }

  lemma DirectoryIsClean(path: Path)
    requires Clean(path)
    ensures var d := Directory(path);
            && |d| < |path| && Component(path[|d|..])
            && (d != "" ==> Clean(d[..|d| - 1]) && path == d[..|d| - 1] + "/" + path[|d|..])
  {
    var d := Directory(path);
    NothingAfterDirectory(path);
    CleanIsSpaced(path);
    hide Clean, Directory;
    LastName(path, |d|);
    if d != "" {
      FrontIsClean(path, |d|);
      assert d == path[..|d|] && d[..|d| - 1] == path[..|d| - 1];
    }
  }

  /** What follows the last slash of a clean path is a name. */
  lemma LastName(path: Path, n: nat)
    requires n <= |path| && path != "" && path[|path| - 1] != '/' && Spaced(path)
    requires (n == 0 || path[n - 1] == '/') && forall i :: n <= i < |path| ==> path[i] != '/'
    requires forall i :: 0 <= i < |path| ==> AssetChar(path[i])
    ensures n < |path| && Component(path[n..])
  {
    var name := path[n..];
    forall i | 0 <= i < |name| ensures NameChar(name[i]) { assert name[i] == path[n + i] && AssetChar(path[n + i]); }
    assert path[n] != '.';
  }

  /** What precedes it, without the slash, is a clean path. */
  lemma FrontIsClean(path: Path, n: nat)
    requires 0 < n < |path| && path[n - 1] == '/' && Spaced(path)
    requires forall i :: 0 <= i < |path| ==> AssetChar(path[i])
    ensures Clean(path[..n - 1]) && path == path[..n - 1] + "/" + path[n..]
  {
    hide AssetChar;
    var front := path[..n - 1];
    assert n - 1 > 0 && path[n - 2] != '/';
    assert forall i :: 0 <= i < |front| ==> front[i] == path[i];
    assert Spaced(front);
    CleanIsSpaced(front);
  }

  lemma {:induction false} NothingAfterDirectory(path: Path)
    ensures forall i :: |Directory(path)| <= i < |path| ==> path[i] != '/'
  {
    if path != "" && path[|path| - 1] != '/' { NothingAfterDirectory(path[..|path| - 1]); }
  }

  lemma {:induction false} CleanIsJoined(path: Path) returns (names: seq<string>)
    requires Clean(path)
    ensures Joined(path, names)
    decreases |path|
  {
    hide Clean, Component;
    var d := Directory(path);
    DirectoryIsClean(path);
    if d == "" {
      names := [path];
      assert path[0..] == path;
    } else {
      var init := CleanIsJoined(d[..|d| - 1]);
      names := init + [path[|d|..]];
      assert names[..|names| - 1] == init;
    }
  }

  /** Asset paths are the names below assets, each made of allowed characters and not hidden, other than maps and archives. */
  lemma AssetPathsAreJoined(path: Path)
    ensures AssetPath(path) <==>
              && "assets/" <= path && !EndsWith(path, ".map") && !EndsWith(path, ".gz")
              && exists names :: Joined(path[|"assets/"|..], names)
  {
    if "assets/" <= path {
      var rest := path[|"assets/"|..];
      RestIsClean(path, rest);
      if Clean(rest) { var names := CleanIsJoined(rest); }
      if names :| Joined(rest, names) { JoinedIsClean(rest, names); }
    }
  }

  /** Every dot and every slash comes after something other than a slash. */
  predicate Spaced(path: Path) {
    forall i :: 0 <= i < |path| && (path[i] == '.' || path[i] == '/') ==> i > 0 && path[i - 1] != '/'
  }

  lemma CleanIsSpaced(path: Path)
    ensures Clean(path) <==>
              path != "" && path[|path| - 1] != '/' && Spaced(path) && forall i :: 0 <= i < |path| ==> AssetChar(path[i])
  {
    hide AssetChar;
  }

  lemma RestIsSpaced(path: Path, rest: Path)
    requires path == "assets/" + rest && rest != ""
    ensures Spaced(path) <==> Spaced(rest)
    ensures path[|path| - 1] == rest[|rest| - 1]
    ensures (forall i :: 0 <= i < |path| ==> AssetChar(path[i])) <==> forall i :: 0 <= i < |rest| ==> AssetChar(rest[i])
  {
    var top := "assets/";
    assert forall i :: 0 <= i < |top| ==> top[i] != '.' && AssetChar(top[i]) && (top[i] == '/' ==> i == 6);
    assert forall i :: 0 <= i < |path| ==> path[i] == if i < 7 then top[i] else rest[i - 7];
    assert forall i :: 0 <= i < |rest| ==> rest[i] == path[i + 7];
    hide AssetChar;
    if Spaced(rest) {
      forall i | 0 <= i < |path| && (path[i] == '.' || path[i] == '/') ensures i > 0 && path[i - 1] != '/' {}
    }
    if Spaced(path) {
      forall i | 0 <= i < |rest| && (rest[i] == '.' || rest[i] == '/') ensures i > 0 && rest[i - 1] != '/' {
        assert path[i + 7] == rest[i] && path[i + 6] != '/';
      }
    }
  }

  lemma RestIsClean(path: Path, rest: Path)
    requires path == "assets/" + rest
    ensures Clean(path) && rest != "" <==> Clean(rest)
  {
    CleanIsSpaced(path);
    CleanIsSpaced(rest);
    if rest != "" { RestIsSpaced(path, rest); }
    hide Clean, Spaced, AssetChar;
  }

  // ---------------------------------------------------------------- manifests

  predicate RowOk(row: Row) {
    AssetPath(row.path) && 0 <= row.bytes <= MAX_UNPACKED && IsHex(row.sha256, 64)
  }

  function BytesOf(row: Row): int { row.bytes }

  function PathsOf(rows: seq<Row>): set<Path> { set i | 0 <= i < |rows| :: rows[i].path }

  ghost predicate DistinctPaths(rows: seq<Row>) {
    forall i, j :: 0 <= i < j < |rows| ==> rows[i].path != rows[j].path
  }

  ghost predicate ManifestOk(m: Manifest) {
    && IsHex(m.sourceCommit, 40) && IsHex(m.htmlSha256, 64)
    && 0 < |m.files| <= MAX_FILES
    && (forall i :: 0 <= i < |m.files| ==> RowOk(m.files[i]))
    && DistinctPaths(m.files)
    && Sum(m.files, BytesOf) <= MAX_UNPACKED
    && m.htmlAssets != []
    && (forall p :: p in m.htmlAssets ==> p in PathsOf(m.files))
  }

  /** Accepts exactly the well-formed manifests, and indexes their rows by path. */
  method ValidateManifest(m: Manifest) returns (r: Result<map<Path, Row>, PublishError>)
    ensures r.Ok? <==> ManifestOk(m)
    ensures r.Ok? ==> r.value.Keys == PathsOf(m.files)
    ensures r.Ok? ==> forall i :: 0 <= i < |m.files| ==> m.files[i].path in r.value && r.value[m.files[i].path] == m.files[i]
  {
    hide AssetPath, IsHex, PathsOf, Sum, DistinctPaths;
    EmptyRows(m.files);
    if !IsHex(m.sourceCommit, 40) { return Err(InvalidCommit); }
    if !IsHex(m.htmlSha256, 64) { return Err(InvalidHtmlDigest); }
    if !(0 < |m.files| <= MAX_FILES) { return Err(InvalidFileCount); }
    var index: map<Path, Row>, total := map[], 0;
    for i := 0 to |m.files|
      invariant index.Keys == PathsOf(m.files[..i])
      invariant DistinctPaths(m.files[..i])
      invariant forall j :: 0 <= j < i ==> RowOk(m.files[j])
      invariant forall j :: 0 <= j < i ==> m.files[j].path in index && index[m.files[j].path] == m.files[j]
      invariant total == Sum(m.files[..i], BytesOf)
    {
      var row := m.files[i];
      NextRow(m.files, i);
      if !AssetPath(row.path) { return Err(InvalidAssetPath); }
      if row.path in index {
        RepeatedPath(m.files, i);
        return Err(DuplicateAsset);
      }
      if !(0 <= row.bytes <= MAX_UNPACKED) { return Err(InvalidAssetSize); }
      if !IsHex(row.sha256, 64) { return Err(InvalidAssetDigest); }
      index := index[row.path := row];
      total := total + row.bytes;
    }
    assert m.files[..|m.files|] == m.files;
    if total > MAX_UNPACKED { return Err(UnpackedLimitExceeded); }
    if m.htmlAssets == [] || exists p :: p in m.htmlAssets && p !in index { return Err(HtmlReferencesMissing); }
    r := Ok(index);
  }

  lemma EmptyRows(rows: seq<Row>)
    ensures PathsOf(rows[..0]) == {} && Sum(rows[..0], BytesOf) == 0 && DistinctPaths(rows[..0])
  {
  }

  lemma NextRow(rows: seq<Row>, i: nat)
    requires i < |rows|
    ensures PathsOf(rows[..i + 1]) == PathsOf(rows[..i]) + {rows[i].path}
    ensures Sum(rows[..i + 1], BytesOf) == Sum(rows[..i], BytesOf) + rows[i].bytes
    ensures rows[i].path !in PathsOf(rows[..i]) && DistinctPaths(rows[..i]) ==> DistinctPaths(rows[..i + 1])
  {
    assert rows[..i + 1][..i] == rows[..i];
    assert rows[..i + 1] == rows[..i] + [rows[i]];
    forall p | p in PathsOf(rows[..i]) ensures p in PathsOf(rows[..i + 1]) {
      var j :| 0 <= j < i && rows[..i][j].path == p;
      assert rows[..i + 1][j].path == p;
    }
    assert rows[..i + 1][i].path == rows[i].path;
  }

  lemma RepeatedPath(rows: seq<Row>, i: nat)
    requires i < |rows| && rows[i].path in PathsOf(rows[..i])
    ensures !DistinctPaths(rows)
  {
    var j :| 0 <= j < i && rows[..i][j].path == rows[i].path;
    assert rows[j].path == rows[i].path;
  }
}
