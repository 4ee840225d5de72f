/** The asset list of a draft while the nine files of a release go up. */
module Uploading {
  import opened Text
  import opened Semver
  import opened Publication

  // ---- asset lists under upload ----

  lemma {:induction false} RemoveIdAppend(a: seq<Asset>, b: seq<Asset>, id: nat)
    ensures RemoveId(a + b, id) == RemoveId(a, id) + RemoveId(b, id)
  {
    if a == [] {
      assert a + b == b;
    } else {
      assert (a + b)[1..] == a[1..] + b;
      RemoveIdAppend(a[1..], b, id);
    }
  }

  lemma {:induction false} RemoveIdAbsent(a: seq<Asset>, id: nat)
    requires forall i | 0 <= i < |a| :: a[i].id != id
    ensures RemoveId(a, id) == a
  {
    if a != [] {
      RemoveIdAbsent(a[1..], id);
      assert a == [a[0]] + a[1..];
    }
  }

  /** What `Others` keeps comes from the list and carries none of the names. */
  lemma {:induction false} OthersFrom(l: seq<Asset>, names: set<string>)
    ensures forall i | 0 <= i < |Others(l, names)| :: Others(l, names)[i] in l && Others(l, names)[i].name !in names
  {
    if l != [] {
      OthersFrom(l[1..], names);
      assert forall a | a in l[1..] :: a in l;
    }
  }

  lemma {:induction false} OthersUnique(l: seq<Asset>, names: set<string>)
    requires NamesUnique(l) && IdsUnique(l)
    ensures NamesUnique(Others(l, names)) && IdsUnique(Others(l, names))
  {
    if l != [] {
      OthersUnique(l[1..], names);
      OthersFrom(l[1..], names);
      forall a | a in l[1..] ensures a.name != l[0].name && a.id != l[0].id {
        var i :| 0 <= i < |l[1..]| && l[1..][i] == a;
        assert l[i + 1] == a;
      }
    }
  }

  lemma {:induction false} OthersSame(l: seq<Asset>, names: set<string>, name: string)
    requires forall i | 0 <= i < |l| :: l[i].name != name
    ensures Others(l, names + {name}) == Others(l, names)
  {
    if l != [] {
      OthersSame(l[1..], names, name);
    }
  }

  lemma {:induction false} OthersRemove(l: seq<Asset>, names: set<string>, a: Asset)
    requires NamesUnique(l) && IdsUnique(l) && a in l && a.name !in names
    ensures RemoveId(Others(l, names), a.id) == Others(l, names + {a.name})
  {
    if l[0] == a {
      OthersSame(l[1..], names, a.name);
      OthersFrom(l[1..], names);
      forall i | 0 <= i < |Others(l[1..], names)| ensures Others(l[1..], names)[i].id != a.id {
        var k :| 0 <= k < |l[1..]| && l[1..][k] == Others(l[1..], names)[i];
        assert l[k + 1].id != l[0].id;
      }
      RemoveIdAbsent(Others(l[1..], names), a.id);
      assert Others(l, names)[1..] == Others(l[1..], names);
    } else {
      var k :| 0 <= k < |l| && l[k] == a;
      assert l[1..][k - 1] == a;
      OthersRemove(l[1..], names, a);
      assert l[0].id != a.id && l[0].name != a.name;
      if l[0].name !in names {
        assert Others(l, names)[1..] == Others(l[1..], names);
      }
    }
  }

  lemma {:induction false} OthersNone(l: seq<Asset>, names: set<string>)
    ensures Others(l, names) == [] <==> forall i | 0 <= i < |l| :: l[i].name in names
  {
    if l != [] {
      OthersNone(l[1..], names);
      if l[0].name in names {
        assert forall i | 1 <= i < |l| :: l[i] == l[1..][i - 1];
      }
    }
  }

  predicate FilesDistinct(files: seq<(string, Blob)>)
  {
    forall i, j | 0 <= i < j < |files| :: files[i].0 != files[j].0
  }

  /** The draft's assets while files go up: the untouched part of the listing, then the files so far. */
  ghost predicate Progress(assets: seq<Asset>, l: seq<Asset>, files: seq<(string, Blob)>, k: nat, cleared: bool)
  {
    && k + (if cleared then 1 else 0) <= |files|
    && var others := Others(l, NamesOf(files[..k + if cleared then 1 else 0]));
       && |assets| == |others| + k
       && assets[..|others|] == others
       && Holds(assets[|others|..], files[..k])
       && (forall i, j | |others| <= i < |assets| && 0 <= j < |l| :: assets[i].id != l[j].id)
  }

  lemma NamesNext(files: seq<(string, Blob)>, k: nat)
    requires k < |files|
    ensures NamesOf(files[..k + 1]) == NamesOf(files[..k]) + {files[k].0}
    ensures FilesDistinct(files) ==> files[k].0 !in NamesOf(files[..k])
  {
    assert files[..k + 1] == files[..k] + [files[k]];
  }

  lemma ProgressStart(l: seq<Asset>, files: seq<(string, Blob)>)
    requires |files| > 0
    ensures Progress(l, l, files, 0, false)
  {
    assert NamesOf(files[..0]) == {};
    OthersEmpty(l);
  }

  lemma {:induction false} OthersEmpty(l: seq<Asset>)
    ensures Others(l, {}) == l
  {
    if l != [] {
      OthersEmpty(l[1..]);
      assert l == [l[0]] + l[1..];
    }
  }

  /** Deleting the listed asset of that name, if any, takes it out and nothing else. */
  lemma ProgressClear(assets: seq<Asset>, l: seq<Asset>, files: seq<(string, Blob)>, k: nat)
    requires k < |files| && FilesDistinct(files) && NamesUnique(l) && IdsUnique(l)
    requires Progress(assets, l, files, k, false)
    ensures Progress(Cleared(assets, l, files[k].0), l, files, k, true)
  {
    var names, name := NamesOf(files[..k]), files[k].0;
    var others := Others(l, names);
    var posted := assets[|others|..];
    assert assets == others + posted;
    NamesNext(files, k);
    match Find(l, name)
    case None =>
      OthersSame(l, names, name);
    case Some(a) =>
      RemoveIdAppend(others, posted, a.id);
      OthersRemove(l, names, a);
      var j :| 0 <= j < |l| && l[j] == a;
      RemoveIdAbsent(posted, a.id);
      var left := Others(l, names + {name});
      assert Cleared(assets, l, name) == left + posted;
      assert (left + posted)[|left|..] == posted;
  }

  lemma ProgressPost(assets: seq<Asset>, l: seq<Asset>, files: seq<(string, Blob)>, k: nat, id: nat)
    requires k < |files| && Progress(assets, l, files, k, true) && forall j | 0 <= j < |l| :: l[j].id != id
    ensures Progress(assets + [Asset(id, files[k].0, files[k].1)], l, files, k + 1, false)
  {
    var others := Others(l, NamesOf(files[..k + 1]));
    var more := assets + [Asset(id, files[k].0, files[k].1)];
    assert more[|others|..] == assets[|others|..] + [Asset(id, files[k].0, files[k].1)];
    assert files[..k + 1] == files[..k] + [files[k]];
  }

  /** While files go up no name is ever held twice. */
  lemma ProgressUnique(assets: seq<Asset>, l: seq<Asset>, files: seq<(string, Blob)>, k: nat, cleared: bool)
    requires FilesDistinct(files) && NamesUnique(l) && IdsUnique(l) && Progress(assets, l, files, k, cleared)
    ensures NamesUnique(assets)
  {
    var n := k + if cleared then 1 else 0;
    var names := NamesOf(files[..n]);
    var others := Others(l, names);
    OthersUnique(l, names);
    OthersFrom(l, names);
    var m := |others|;
    forall i | 0 <= i < m ensures assets[i] == others[i] {
      assert assets[..m][i] == others[i];
    }
    forall i | m <= i < |assets| ensures assets[i].name == files[i - m].0 && files[i - m].0 in names {
      assert assets[m..][i - m] == assets[i] && files[..k][i - m] == files[i - m] && files[..n][i - m] == files[i - m];
    }
  }

  /** When all files are up, the draft holds them and whatever foreign names the listing had. */
  lemma ProgressDone(assets: seq<Asset>, l: seq<Asset>, files: seq<(string, Blob)>)
    requires Progress(assets, l, files, |files|, false)
    ensures Holds(assets, files) <==> forall i | 0 <= i < |l| :: l[i].name in NamesOf(files)
  {
    assert files[..|files|] == files;
    var others := Others(l, NamesOf(files));
    OthersNone(l, NamesOf(files));
    if others == [] {
      assert assets[0..] == assets;
    }
  }

  // ---- the nine names ----

  function NineNames(v: Version, base: string): set<string>
  {
    FixedNames(v) + {base}
  }

  lemma ArchiveNamesDiffer(v: Version)
    ensures ArchiveName(v, "amd64") != ArchiveName(v, "arm64")
  {
    var stem := "agent-archivist-" + Render(v) + "-linux-";
    assert ArchiveName(v, "amd64")[|stem| + 1] == 'm';
    assert ArchiveName(v, "arm64")[|stem| + 1] == 'r';
  }

  lemma FirstLetters(v: Version)
    ensures ArchiveName(v, "amd64")[0] == 'a' && ArchiveName(v, "arm64")[0] == 'a'
    ensures SCAN_AMD[0] == 'c' && SCAN_ARM[0] == 'c' && SUMS[0] == 'S' && RECORD[0] == 'r' && BUNDLE[0] == 'r'
    ensures SBOM[0] == 's' && MANIFEST[0] == 'v'
    ensures SCAN_AMD != SCAN_ARM && RECORD != BUNDLE
  {
    assert SCAN_AMD[16] == 'm' && SCAN_ARM[16] == 'r';
    assert |RECORD| != |BUNDLE|;
  }

  /** The names in upload order. */
  function NameList(v: Version, base: string): (names: seq<string>)
    ensures |names| == 9
  {
    [ArchiveName(v, "amd64"), ArchiveName(v, "arm64"), SUMS, RECORD, BUNDLE, base, SBOM, SCAN_AMD, SCAN_ARM]
  }

  lemma NameListDistinct(v: Version, base: string, i: nat, j: nat)
    requires base !in FixedNames(v) && i < j < 9
    ensures NameList(v, base)[i] != NameList(v, base)[j]
  {
    ArchiveNamesDiffer(v);
    FirstLetters(v);
    var names := NameList(v, base);
    if i == 5 || j == 5 {
      var k := if i == 5 then j else i;
      assert names[k] in FixedNames(v);
    } else if names[i][0] == names[j][0] {
      assert (i == 0 && j == 1) || (i == 3 && j == 4) || (i == 7 && j == 8);
    }
  }

  lemma NameListCovers(v: Version, base: string, n: string)
    ensures n in NineNames(v, base) <==> exists i :: 0 <= i < 9 && NameList(v, base)[i] == n
  {
    var names := NameList(v, base);
    assert n in NineNames(v, base) ==>
           n == names[0] || n == names[1] || n == names[2] || n == names[3] || n == names[4]
           || n == names[5] || n == names[6] || n == names[7] || n == names[8];
  }

  lemma UploadsNamed(v: Version, run: Inputs)
    requires RunOk(v, run)
    ensures forall i | 0 <= i < 9 :: Uploads(v, run)[i].0 == NameList(v, run.manifestName)[i]
  {
  }

  lemma UploadNames(v: Version, run: Inputs)
    requires RunOk(v, run) && run.manifestName !in FixedNames(v)
    ensures FilesDistinct(Uploads(v, run)) && NamesOf(Uploads(v, run)) == NineNames(v, run.manifestName)
  {
    UploadsNamed(v, run);
    var files, names := Uploads(v, run), NameList(v, run.manifestName);
    forall i, j | 0 <= i < j < |files| ensures files[i].0 != files[j].0 {
      NameListDistinct(v, run.manifestName, i, j);
    }
    forall n ensures n in NamesOf(files) <==> n in NineNames(v, run.manifestName) {
      NameListCovers(v, run.manifestName, n);
      if i :| 0 <= i < 9 && names[i] == n {
        assert files[i].0 == n;
      }
    }
  }

  lemma ManifestIsTheNinth(v: Version)
    ensures MANIFEST !in FixedNames(v) && NineNames(v, MANIFEST) == RequiredNames(v)
  {
    FirstLetters(v);
  }

  // ---- the upload loop as a whole ----

  /** The assets after the first `k` files of the upload loop; `id` is the forge's counter before it. */
  function UploadAll(listing: seq<Asset>, files: seq<(string, Blob)>, k: nat, id: nat): seq<Asset>
    requires k <= |files|
  {
    if k == 0 then listing
    else Cleared(UploadAll(listing, files, k - 1, id), listing, files[k - 1].0)
         + [Asset(id + k - 1, files[k - 1].0, files[k - 1].1)]
  }

  lemma RoundProgress(assets: seq<Asset>, listing: seq<Asset>, files: seq<(string, Blob)>, k: nat, id: nat)
    requires k < |files| && FilesDistinct(files) && NamesUnique(listing) && IdsUnique(listing)
    requires Progress(assets, listing, files, k, false) && forall j | 0 <= j < |listing| :: listing[j].id < id
    ensures Progress(Cleared(assets, listing, files[k].0) + [Asset(id, files[k].0, files[k].1)], listing, files, k + 1,
                     false)
  {
    ProgressClear(assets, listing, files, k);
    ProgressPost(Cleared(assets, listing, files[k].0), listing, files, k, id);
  }

  lemma {:induction false} UploadAllProgress(listing: seq<Asset>, files: seq<(string, Blob)>, k: nat, id: nat)
    requires k <= |files| && files != [] && FilesDistinct(files) && NamesUnique(listing) && IdsUnique(listing)
    requires forall j | 0 <= j < |listing| :: listing[j].id < id
    ensures Progress(UploadAll(listing, files, k, id), listing, files, k, false)
  {
    if k == 0 {
      ProgressStart(listing, files);
    } else {
      UploadAllProgress(listing, files, k - 1, id);
      UploadAllNext(listing, files, k - 1, id);
    }
  }

  lemma UploadAllNext(listing: seq<Asset>, files: seq<(string, Blob)>, j: nat, id: nat)
    requires j < |files| && FilesDistinct(files) && NamesUnique(listing) && IdsUnique(listing)
    requires forall i | 0 <= i < |listing| :: listing[i].id < id
    requires Progress(UploadAll(listing, files, j, id), listing, files, j, false)
    ensures Progress(UploadAll(listing, files, j + 1, id), listing, files, j + 1, false)
  {
    UploadAllStep(listing, files, j, id);
    RoundProgress(UploadAll(listing, files, j, id), listing, files, j, id + j);
  }

  lemma UploadAllStep(listing: seq<Asset>, files: seq<(string, Blob)>, j: nat, id: nat)
    requires j < |files|
    ensures UploadAll(listing, files, j + 1, id) ==
            Cleared(UploadAll(listing, files, j, id), listing, files[j].0) + [Asset(id + j, files[j].0, files[j].1)]
  {
  }
}
