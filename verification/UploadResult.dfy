/** What the upload loop leaves of any listing, names that repeat included. */
module UploadResult {
  import opened Text
  import opened Publication
  import opened Uploading

  /** The asset the loop deletes for one of the names: the first of the listing that carries it. */
  predicate Deleted(a: Asset, listing: seq<Asset>, names: set<string>)
  {
    a.name in names && Find(listing, a.name) == Some(a)
  }

  function Left(l: seq<Asset>, listing: seq<Asset>, names: set<string>): seq<Asset>
  {
    if l == [] then []
    else (if Deleted(l[0], listing, names) then [] else [l[0]]) + Left(l[1..], listing, names)
  }

  function Posted(files: seq<(string, Blob)>, k: nat, id: nat): (assets: seq<Asset>)
    requires k <= |files|
    ensures |assets| == k
    ensures forall i | 0 <= i < k :: assets[i] == Asset(id + i, files[i].0, files[i].1)
  {
    seq(k, i requires 0 <= i < k => Asset(id + i, files[i].0, files[i].1))
  }

  /** Listed before the counter reached `id`, each under its own id. */
  predicate Issued(listing: seq<Asset>, id: nat)
  {
    IdsUnique(listing) && forall i | 0 <= i < |listing| :: listing[i].id < id
  }

  lemma SameId(listing: seq<Asset>, a: Asset, b: Asset)
    requires IdsUnique(listing) && a in listing && b in listing && a.id == b.id
    ensures a == b
  {
    var i :| 0 <= i < |listing| && listing[i] == a;
    var j :| 0 <= j < |listing| && listing[j] == b;
    assert i == j;
  }

  lemma {:induction false} LeftRemove(l: seq<Asset>, listing: seq<Asset>, names: set<string>, a: Asset)
    requires IdsUnique(listing) && Find(listing, a.name) == Some(a)
    requires forall x | x in l :: x in listing
    ensures RemoveId(Left(l, listing, names), a.id) == Left(l, listing, names + {a.name})
  {
    if l != [] {
      var x, rest := l[0], Left(l[1..], listing, names);
      LeftRemove(l[1..], listing, names, a);
      assert x in l && a in listing;
      if x.id == a.id {
        SameId(listing, x, a);
      }
      assert [] + rest == rest && ([x] + rest)[1..] == rest;
    }
  }

  lemma {:induction false} LeftSame(l: seq<Asset>, listing: seq<Asset>, names: set<string>, name: string)
    requires Find(listing, name).None? && forall x | x in l :: x in listing
    ensures Left(l, listing, names + {name}) == Left(l, listing, names)
  {
    if l != [] {
      LeftSame(l[1..], listing, names, name);
      assert l[0] in l;
      var i :| 0 <= i < |listing| && listing[i] == l[0];
      assert l[0].name != name;
    }
  }

  lemma {:induction false} LeftAll(l: seq<Asset>, listing: seq<Asset>)
    ensures Left(l, listing, {}) == l
  {
    if l != [] {
      LeftAll(l[1..], listing);
      assert l == [l[0]] + l[1..];
    }
  }

  /** The draft after `k` files: what the loop never deleted, then the files in order. */
  lemma {:induction false} UploadIs(listing: seq<Asset>, files: seq<(string, Blob)>, k: nat, id: nat)
    requires k <= |files| && Issued(listing, id)
    ensures UploadAll(listing, files, k, id) == Left(listing, listing, NamesOf(files[..k])) + Posted(files, k, id)
  {
    if k == 0 {
      NothingSent(listing, files, id);
    } else {
      var n := k - 1;
      UploadIs(listing, files, n, id);
      UploadNext(listing, files, n, id, UploadAll(listing, files, n, id));
    }
  }

  lemma NothingSent(listing: seq<Asset>, files: seq<(string, Blob)>, id: nat)
    ensures Left(listing, listing, NamesOf(files[..0])) + Posted(files, 0, id) == listing
  {
    assert NamesOf(files[..0]) == {};
    LeftAll(listing, listing);
  }

  lemma UploadNext(listing: seq<Asset>, files: seq<(string, Blob)>, k: nat, id: nat, assets: seq<Asset>)
    requires k < |files| && Issued(listing, id)
    requires assets == Left(listing, listing, NamesOf(files[..k])) + Posted(files, k, id)
    ensures Cleared(assets, listing, files[k].0) + [Asset(id + k, files[k].0, files[k].1)] ==
            Left(listing, listing, NamesOf(files[..k + 1])) + Posted(files, k + 1, id)
  {
    ClearIs(listing, files, k, id);
    PostIs(Left(listing, listing, NamesOf(files[..k + 1])), files, k, id);
  }

  lemma PostIs(left: seq<Asset>, files: seq<(string, Blob)>, k: nat, id: nat)
    requires k < |files|
    ensures left + Posted(files, k, id) + [Asset(id + k, files[k].0, files[k].1)] == left + Posted(files, k + 1, id)
  {
    assert Posted(files, k + 1, id) == Posted(files, k, id) + [Asset(id + k, files[k].0, files[k].1)];
  }

  lemma ClearIs(listing: seq<Asset>, files: seq<(string, Blob)>, k: nat, id: nat)
    requires k < |files| && Issued(listing, id)
    ensures Cleared(Left(listing, listing, NamesOf(files[..k])) + Posted(files, k, id), listing, files[k].0) ==
            Left(listing, listing, NamesOf(files[..k + 1])) + Posted(files, k, id)
  {
    var names, name := NamesOf(files[..k]), files[k].0;
    NamesNext(files, k);
    match Find(listing, name)
    case None =>
      LeftSame(listing, listing, names, name);
    case Some(a) =>
      RemoveIdAppend(Left(listing, listing, names), Posted(files, k, id), a.id);
      LeftRemove(listing, listing, names, a);
      RemoveIdAbsent(Posted(files, k, id), a.id);
  }

  lemma PostedNames(files: seq<(string, Blob)>, k: nat, id: nat, a: Asset)
    requires k <= |files|
    ensures a in Posted(files, k, id) ==> a.name in NamesOf(files)
  {
    forall i | 0 <= i < k ensures Posted(files, k, id)[i].name in NamesOf(files) {
      assert files[i].0 in NamesOf(files);
    }
  }

  // ---- what is left ----

  lemma {:induction false} LeftHas(l: seq<Asset>, listing: seq<Asset>, names: set<string>, x: Asset)
    ensures x in Left(l, listing, names) <==> x in l && !Deleted(x, listing, names)
  {
    if l != [] {
      LeftHas(l[1..], listing, names, x);
      assert l == [l[0]] + l[1..];
    }
  }

  lemma Twice(assets: seq<Asset>, a: Asset, b: Asset)
    requires a in assets && b in assets && a != b && a.name == b.name
    ensures !NamesUnique(assets)
  {
    var i :| 0 <= i < |assets| && assets[i] == a;
    var j :| 0 <= j < |assets| && assets[j] == b;
    assert i < j || j < i;
  }

  lemma {:induction false} FindFirst(listing: seq<Asset>, i: nat, j: nat)
    requires i < j < |listing| && IdsUnique(listing)
    ensures listing[i].name == listing[j].name ==> Find(listing, listing[j].name) != Some(listing[j])
  {
    assert listing[0].id != listing[j].id;
    if i > 0 {
      FindFirst(listing[1..], i - 1, j - 1);
    }
  }

  lemma {:induction false} FindHeld(assets: seq<Asset>, i: nat)
    requires NamesUnique(assets) && i < |assets|
    ensures Find(assets, assets[i].name) == Some(assets[i])
  {
    if i > 0 {
      assert assets[0].name != assets[i].name;
      FindHeld(assets[1..], i - 1);
    }
  }

  lemma PostedThere(listing: seq<Asset>, files: seq<(string, Blob)>, id: nat, i: nat)
    requires i < |files| && Issued(listing, id)
    ensures Asset(id + i, files[i].0, files[i].1) in UploadAll(listing, files, |files|, id)
  {
    UploadIs(listing, files, |files|, id);
    assert Posted(files, |files|, id)[i] in Posted(files, |files|, id);
  }

  /** A name the listing holds twice is held twice afterwards: the loop deletes only the first. */
  lemma RepeatStays(listing: seq<Asset>, files: seq<(string, Blob)>, id: nat, i: nat, j: nat)
    requires Issued(listing, id) && i < j < |listing| && listing[i].name == listing[j].name
    ensures !NamesUnique(UploadAll(listing, files, |files|, id))
  {
    UploadIs(listing, files, |files|, id);
    var assets, names := UploadAll(listing, files, |files|, id), NamesOf(files[..|files|]);
    var a, b := listing[i], listing[j];
    FindFirst(listing, i, j);
    LeftHas(listing, listing, names, b);
    if b.name in names {
      var k :| 0 <= k < |files| && files[k].0 == b.name;
      PostedThere(listing, files, id, k);
      Twice(assets, b, Asset(id + k, files[k].0, files[k].1));
    } else {
      LeftHas(listing, listing, names, a);
      assert a.id != b.id;
      Twice(assets, a, b);
    }
  }

  /** No name is held twice after the loop if and only if neither the listing nor the files repeat one. */
  lemma UniqueExact(listing: seq<Asset>, files: seq<(string, Blob)>, id: nat)
    requires Issued(listing, id) && files != []
    ensures NamesUnique(UploadAll(listing, files, |files|, id)) <==> NamesUnique(listing) && FilesDistinct(files)
  {
    var assets := UploadAll(listing, files, |files|, id);
    if i, j :| 0 <= i < j < |listing| && listing[i].name == listing[j].name {
      RepeatStays(listing, files, id, i, j);
    } else if i, j :| 0 <= i < j < |files| && files[i].0 == files[j].0 {
      PostedThere(listing, files, id, i);
      PostedThere(listing, files, id, j);
      Twice(assets, Asset(id + i, files[i].0, files[i].1), Asset(id + j, files[j].0, files[j].1));
    } else {
      UploadAllProgress(listing, files, |files|, id);
      ProgressUnique(assets, listing, files, |files|, false);
    }
  }

  /** The draft holds exactly the files if and only if the listing held none but their names, each once. */
  lemma HoldsExact(listing: seq<Asset>, files: seq<(string, Blob)>, id: nat)
    requires Issued(listing, id)
    ensures Holds(UploadAll(listing, files, |files|, id), files) <==>
            NamesUnique(listing) && forall i | 0 <= i < |listing| :: listing[i].name in NamesOf(files)
  {
    UploadIs(listing, files, |files|, id);
    assert files[..|files|] == files;
    var names := NamesOf(files);
    HeldAfter(Left(listing, listing, names), files, id);
    LeftNothing(listing, names);
  }

  lemma HeldAfter(left: seq<Asset>, files: seq<(string, Blob)>, id: nat)
    ensures Holds(left + Posted(files, |files|, id), files) <==> left == []
  {
    if left == [] {
      assert left + Posted(files, |files|, id) == Posted(files, |files|, id);
    }
  }

  lemma LeftNothing(listing: seq<Asset>, names: set<string>)
    requires IdsUnique(listing)
    ensures Left(listing, listing, names) == [] <==>
            NamesUnique(listing) && forall i | 0 <= i < |listing| :: listing[i].name in names
  {
    var left := Left(listing, listing, names);
    if left == [] {
      NothingLeft(listing, names);
    } else {
      LeftHas(listing, listing, names, left[0]);
      var i :| 0 <= i < |listing| && listing[i] == left[0];
      if NamesUnique(listing) {
        FindHeld(listing, i);
      }
    }
  }

  lemma NothingLeft(listing: seq<Asset>, names: set<string>)
    requires IdsUnique(listing) && Left(listing, listing, names) == []
    ensures NamesUnique(listing) && forall i | 0 <= i < |listing| :: listing[i].name in names
  {
    forall i | 0 <= i < |listing| ensures Deleted(listing[i], listing, names) {
      LeftHas(listing, listing, names, listing[i]);
    }
    forall i, j | 0 <= i < j < |listing| ensures listing[i].name != listing[j].name {
      FindFirst(listing, i, j);
    }
  }
}
