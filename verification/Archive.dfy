/** Uploaded archives: a map from names to contents, and the checks made before the manifest is read. */
module Archive {
  import opened Prelude
  import opened Manifest

  const MAX_MEMBERS := 12000
  const MANIFEST_NAME := "release.json"
  const MAX_MANIFEST := 2 * 1024 * 1024

  datatype Content = File(data: Bytes) | Folder | Special

  datatype Member = Member(name: Path, content: Content) {
    predicate IsAsset() { content.File? && name != MANIFEST_NAME }
  }

  function SizeOf(m: Member): int { if m.content.File? then |m.content.data| else 0 }

  predicate MemberName(name: Path) { name == MANIFEST_NAME || name == "assets" || "assets/" <= name }

  predicate MemberOk(m: Member) {
    && !m.content.Special? && !Hidden(m.name) && MemberName(m.name)
    && (m.name == MANIFEST_NAME ==> m.content.File? && |m.content.data| <= MAX_MANIFEST)
  }

  /** An archive holds its manifest, a file of at most two megabytes, and visible files and folders below assets. */
  lemma MembersAre(m: Member)
    ensures MemberOk(m) <==>
              if m.name == "release.json" then m.content.File? && |m.content.data| <= 2_097_152
              else (m.content.File? || m.content.Folder?) && !Hidden(m.name) && (m.name == "assets" || "assets/" <= m.name)
  {
    if m.name == "release.json" {
      assert !Hidden(m.name) by { ManifestIsVisible(); }
    }
  }

  lemma ManifestIsVisible()
    ensures !Hidden("release.json")
  {
    var name := "release.json";
    assert name[0] == 'r' && name[6] == 'e';
    forall i | 0 <= i < |name| && name[i] == '.' ensures i == 7 {}
  }

  ghost predicate DistinctNames(members: seq<Member>) {
    forall i, j :: 0 <= i < j < |members| ==> members[i].name != members[j].name
  }

  ghost predicate ArchiveOk(members: seq<Member>) {
    && |members| <= MAX_MEMBERS
    && (forall i :: 0 <= i < |members| ==> MemberOk(members[i]))
    && DistinctNames(members)
    && Sum(members, SizeOf) <= MAX_UNPACKED + MAX_MANIFEST
    && (exists i :: 0 <= i < |members| && members[i].name == MANIFEST_NAME)
  }

  /** The first pass over an archive: finds the manifest of exactly the acceptable ones. */
  method ScanArchive(members: seq<Member>) returns (r: Result<nat, PublishError>)
    ensures r.Ok? <==> ArchiveOk(members)
    ensures r.Ok? ==> r.value < |members| && members[r.value].name == MANIFEST_NAME && members[r.value].content.File?
  {
    hide Hidden, MemberName, Sum, NamesOf, DistinctNames;
    var seen: set<Path>, total, manifest: Option<nat> := {}, 0, None;
    NoMembers(members);
    for i := 0 to |members|
      invariant i <= MAX_MEMBERS
      invariant forall j :: 0 <= j < i ==> MemberOk(members[j])
      invariant seen == NamesOf(members[..i]) && DistinctNames(members[..i])
      invariant total == Sum(members[..i], SizeOf) <= MAX_UNPACKED + MAX_MANIFEST
      invariant manifest.Some? <==> exists j :: 0 <= j < i && members[j].name == MANIFEST_NAME
      invariant manifest.Some? ==> manifest.value < i && members[manifest.value].name == MANIFEST_NAME
    {
      var m := members[i];
      NextMember(members, i);
      if i >= MAX_MEMBERS { return Err(TooManyMembers); }
      if m.content.Special? { return Err(SpecialFile); }
      if m.name in seen {
        RepeatedName(members, i);
        return Err(UnexpectedMember);
      }
      if Hidden(m.name) || !MemberName(m.name) { return Err(UnexpectedMember); }
      seen := seen + {m.name};
      total := total + SizeOf(m);
      if total > MAX_UNPACKED + MAX_MANIFEST {
        SizeOfPrefix(members, i + 1);
        return Err(ExpandedLimitExceeded);
      }
      if m.name == MANIFEST_NAME {
        if !m.content.File? || |m.content.data| > MAX_MANIFEST { return Err(InvalidManifestSize); }
        manifest := Some(i);
      }
    }
    assert members[..|members|] == members;
    if manifest.None? { return Err(ManifestMissing); }
    r := Ok(manifest.value);
  }

  function NamesOf(members: seq<Member>): set<Path> { set i | 0 <= i < |members| :: members[i].name }

  lemma NoMembers(members: seq<Member>)
    ensures NamesOf(members[..0]) == {} && Sum(members[..0], SizeOf) == 0 && DistinctNames(members[..0])
  {
  }

  lemma NextMember(members: seq<Member>, i: nat)
    requires i < |members|
    ensures Sum(members[..i + 1], SizeOf) == Sum(members[..i], SizeOf) + SizeOf(members[i])
    ensures NamesOf(members[..i + 1]) == NamesOf(members[..i]) + {members[i].name}
    ensures DistinctNames(members[..i]) && members[i].name !in NamesOf(members[..i]) ==> DistinctNames(members[..i + 1])
  {
    assert members[..i + 1][..i] == members[..i];
    assert members[..i + 1] == members[..i] + [members[i]];
    forall name | name in NamesOf(members[..i]) ensures name in NamesOf(members[..i + 1]) {
      var j :| 0 <= j < i && members[..i][j].name == name;
      assert members[..i + 1][j].name == name;
    }
    assert members[..i + 1][i].name == members[i].name;
  }

  lemma RepeatedName(members: seq<Member>, i: nat)
    requires i < |members| && members[i].name in NamesOf(members[..i])
    ensures !DistinctNames(members)
  {
    var j :| 0 <= j < i && members[..i][j].name == members[i].name;
    assert members[j].name == members[i].name;
  }

  lemma SizeOfPrefix(members: seq<Member>, i: nat)
    requires i <= |members|
    ensures Sum(members[..i], SizeOf) <= Sum(members, SizeOf)
  {
    assert members == members[..i] + members[i..];
    SumAppend(members[..i], members[i..], SizeOf);
    SumNonnegative(members[i..], SizeOf);
  }

  /** The regular files of an archive other than its manifest. */
  function AssetNames(members: seq<Member>): set<Path> {
    set i | 0 <= i < |members| && members[i].IsAsset() :: members[i].name
  }
}
