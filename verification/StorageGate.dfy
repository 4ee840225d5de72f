/** The storage-profile gate that a release must pass: registry validation with its
    append-only date order, and the newest live record of one release. */
module StorageGate {
  import opened Text
  import Semver

  const B2 := "backblaze-b2"
  const LIVE := "live"
  const OUTCOMES: set<string> := {"qualified", "unqualified"}

  /** One qualification record. `date` is absent when it is no calendar date; `otherOk` says the
      remaining field rules of the record hold. */
  datatype Record = Record(profile: string, outcome: string, date: Option<int>, evidence: string, release: string,
                           otherOk: bool)

  /** `profiles` maps a key to its class; `headerOk` says schema and profile tables are well formed. */
  datatype Registry = Registry(headerOk: bool, profiles: map<string, string>, records: seq<Record>)

  // ---- validation ----

  predicate RecordOk(profiles: map<string, string>, r: Record)
  {
    && r.profile in profiles
    && r.outcome in OUTCOMES
    && r.date.Some?
    && r.otherOk
    && (profiles[r.profile] == "target" ==> r.evidence == LIVE && Semver.IsRelease(r.release))
    && (r.outcome == "unqualified" ==> Semver.IsRelease(r.release))
  }

  predicate HasRecord(records: seq<Record>, key: string)
  {
    exists i :: 0 <= i < |records| && records[i].profile == key
  }

  /** A community profile states its standing; the reference profile has no records. */
  predicate ClassOk(reg: Registry, key: string)
    requires key in reg.profiles
  {
    && (reg.profiles[key] == "community" ==> HasRecord(reg.records, key))
    && (reg.profiles[key] == "reference" ==> !HasRecord(reg.records, key))
  }

  /** Records of one profile are in date order. */
  predicate DatesOrdered(reg: Registry)
  {
    forall i, j | 0 <= i < j < |reg.records| && reg.records[i].profile == reg.records[j].profile ::
      InOrder(reg.records[i].date, reg.records[j].date)
  }

  predicate InOrder(a: Option<int>, b: Option<int>)
  {
    a.Some? && b.Some? ==> a.value <= b.value
  }

  predicate RegistryOk(reg: Registry)
  {
    && reg.headerOk
    && (forall i | 0 <= i < |reg.records| :: RecordOk(reg.profiles, reg.records[i]))
    && (forall key | key in reg.profiles :: ClassOk(reg, key))
    && DatesOrdered(reg)
  }

  datatype Violation =
    | BadHeader
    | BadRecord(index: nat)
    | BadClass(key: string)
    | BadOrder(key: string)
    | BadRelease
    | NotTarget
    | NoLiveRecord
    | NotQualified

  predicate Sorted(ds: seq<int>)
  {
    forall i, j | 0 <= i < j < |ds| :: ds[i] <= ds[j]
  }

  function Insert(x: int, ds: seq<int>): seq<int>
  {
    if ds == [] || x <= ds[0] then [x] + ds else [ds[0]] + Insert(x, ds[1..])
  }

  /** `sorted(dates)`. */
  function SortedCopy(ds: seq<int>): seq<int>
  {
    if ds == [] then [] else Insert(ds[0], SortedCopy(ds[1..]))
  }

  lemma {:induction false} InsertAdds(x: int, ds: seq<int>)
    ensures multiset(Insert(x, ds)) == multiset(ds) + multiset{x}
  {
    if ds != [] && x > ds[0] {
      InsertAdds(x, ds[1..]);
      assert ds == [ds[0]] + ds[1..];
    }
  }

  lemma PrependSorted(d: int, ds: seq<int>)
    requires Sorted(ds) && (ds == [] || d <= ds[0])
    ensures Sorted([d] + ds)
  {
  }

  lemma {:induction false} InsertSorts(x: int, ds: seq<int>)
    requires Sorted(ds)
    ensures Sorted(Insert(x, ds)) && (Insert(x, ds)[0] == x || (ds != [] && Insert(x, ds)[0] == ds[0]))
  {
    if ds == [] || x <= ds[0] {
      PrependSorted(x, ds);
    } else {
      InsertSorts(x, ds[1..]);
      PrependSorted(ds[0], Insert(x, ds[1..]));
    }
  }

  /** The sorted copy is the sorted arrangement of the same dates. */
  lemma {:induction false} CopySorts(ds: seq<int>)
    ensures Sorted(SortedCopy(ds)) && multiset(SortedCopy(ds)) == multiset(ds)
  {
    if ds != [] {
      CopySorts(ds[1..]);
      InsertSorts(ds[0], SortedCopy(ds[1..]));
      InsertAdds(ds[0], SortedCopy(ds[1..]));
      assert ds == [ds[0]] + ds[1..];
    }
  }

  lemma {:induction false} CopyOfSorted(ds: seq<int>)
    requires Sorted(ds)
    ensures SortedCopy(ds) == ds
  {
    if ds != [] {
      CopyOfSorted(ds[1..]);
      assert ds == [ds[0]] + ds[1..];
    }
  }

  /** Dates equal their sorted copy exactly when they are in order. */
  lemma SortedExact(ds: seq<int>)
    ensures ds == SortedCopy(ds) <==> Sorted(ds)
  {
    CopySorts(ds);
    if Sorted(ds) {
      CopyOfSorted(ds);
    }
  }

  /** The dates collected for one profile by the record loop. */
  function DatesOf(records: seq<Record>, profiles: map<string, string>, key: string): seq<int>
  {
    if records == [] then []
    else
      var r, before := records[|records| - 1], DatesOf(records[..|records| - 1], profiles, key);
      if r.profile == key && key in profiles && r.date.Some? then before + [r.date.value] else before
  }

  function Collected(perProfile: map<string, seq<int>>, key: string): seq<int>
  {
    if key in perProfile then perProfile[key] else []
  }

  lemma {:induction false} DatesBound(records: seq<Record>, profiles: map<string, string>, key: string, k: nat)
    requires k < |DatesOf(records, profiles, key)|
    ensures exists i :: 0 <= i < |records| && records[i].profile == key
                     && records[i].date == Some(DatesOf(records, profiles, key)[k])
  {
    var n := |records| - 1;
    var before := DatesOf(records[..n], profiles, key);
    if k < |before| {
      DatesBound(records[..n], profiles, key, k);
      var i :| 0 <= i < n && records[..n][i].profile == key && records[..n][i].date == Some(before[k]);
      assert records[i] == records[..n][i];
    } else {
      assert records[n].profile == key;
    }
  }

  lemma {:induction false} DatesHold(records: seq<Record>, profiles: map<string, string>, key: string, i: nat)
    requires i < |records| && records[i].profile == key && key in profiles && records[i].date.Some?
    ensures records[i].date.value in DatesOf(records, profiles, key)
  {
    var n := |records| - 1;
    if i < n {
      DatesHold(records[..n], profiles, key, i);
    }
  }

  ghost predicate KeyOrdered(records: seq<Record>, key: string)
  {
    forall i, j | 0 <= i < j < |records| && records[i].profile == key && records[j].profile == key ::
      InOrder(records[i].date, records[j].date)
  }

  /** No earlier record of the profile is dated after `d`. */
  ghost predicate NoneAfter(records: seq<Record>, key: string, d: Option<int>)
  {
    forall i | 0 <= i < |records| && records[i].profile == key :: InOrder(records[i].date, d)
  }

  lemma OrderedStep(before: seq<Record>, r: Record, key: string)
    ensures KeyOrdered(before + [r], key) <==>
            KeyOrdered(before, key) && (r.profile == key ==> NoneAfter(before, key, r.date))
  {
    var records, n := before + [r], |before|;
    assert forall i | 0 <= i < n :: records[i] == before[i];
    if KeyOrdered(records, key) {
      forall i, j | 0 <= i < j < n && before[i].profile == key && before[j].profile == key
        ensures InOrder(before[i].date, before[j].date)
      {
        assert InOrder(records[i].date, records[j].date);
      }
      forall i | 0 <= i < n && before[i].profile == key && r.profile == key ensures InOrder(before[i].date, r.date) {
        assert InOrder(records[i].date, records[n].date);
      }
    }
  }

  lemma NoneAfterDates(records: seq<Record>, profiles: map<string, string>, key: string, d: int)
    requires key in profiles
    ensures NoneAfter(records, key, Some(d)) <==> forall x | x in DatesOf(records, profiles, key) :: x <= d
  {
    var ds := DatesOf(records, profiles, key);
    if NoneAfter(records, key, Some(d)) {
      forall x | x in ds ensures x <= d {
        var k :| 0 <= k < |ds| && ds[k] == x;
        DatesBound(records, profiles, key, k);
        var i :| 0 <= i < |records| && records[i].profile == key && records[i].date == Some(ds[k]);
      }
    } else {
      var i :| 0 <= i < |records| && records[i].profile == key && !InOrder(records[i].date, Some(d));
      DatesHold(records, profiles, key, i);
    }
  }

  lemma SortedStep(ds: seq<int>, d: int)
    ensures Sorted(ds + [d]) <==> Sorted(ds) && forall x | x in ds :: x <= d
  {
    var all := ds + [d];
    assert forall i | 0 <= i < |ds| :: all[i] == ds[i];
    if Sorted(all) {
      forall i, j | 0 <= i < j < |ds| ensures ds[i] <= ds[j] {
        assert all[i] <= all[j];
      }
      forall x | x in ds ensures x <= d {
        var k :| 0 <= k < |ds| && ds[k] == x;
        assert all[k] <= all[|ds|];
      }
    }
    if Sorted(ds) && forall x | x in ds :: x <= d {
      forall i, j | 0 <= i < j < |all| ensures all[i] <= all[j] {
        assert all[i] in ds;
      }
    }
  }

  /** The collected dates are sorted exactly when the profile's records are in date order. */
  lemma {:induction false} DatesSorted(records: seq<Record>, profiles: map<string, string>, key: string)
    requires key in profiles
    ensures Sorted(DatesOf(records, profiles, key)) <==> KeyOrdered(records, key)
  {
    if records != [] {
      var n := |records| - 1;
      var r, before := records[n], records[..n];
      DatesSorted(before, profiles, key);
      assert records == before + [r];
      OrderedStep(before, r, key);
      if r.date.Some? {
        NoneAfterDates(before, profiles, key, r.date.value);
        SortedStep(DatesOf(before, profiles, key), r.date.value);
      }
    }
  }

  lemma DatesNext(records: seq<Record>, profiles: map<string, string>, i: nat, key: string)
    requires i < |records|
    ensures DatesOf(records[..i + 1], profiles, key) ==
            DatesOf(records[..i], profiles, key)
            + if records[i].profile == key && key in profiles && records[i].date.Some?
              then [records[i].date.value] else []
  {
    assert records[..i + 1][..i] == records[..i];
  }

  ghost predicate CollectedUpTo(reg: Registry, i: nat, perProfile: map<string, seq<int>>)
    requires i <= |reg.records|
  {
    && perProfile.Keys <= reg.profiles.Keys
    && forall key :: Collected(perProfile, key) == DatesOf(reg.records[..i], reg.profiles, key)
  }

  function Collect(perProfile: map<string, seq<int>>, profiles: map<string, string>, r: Record): map<string, seq<int>>
  {
    if r.date.Some? && r.profile in profiles
    then perProfile[r.profile := Collected(perProfile, r.profile) + [r.date.value]]
    else perProfile
  }

  lemma CollectNext(reg: Registry, i: nat, perProfile: map<string, seq<int>>)
    requires i < |reg.records| && CollectedUpTo(reg, i, perProfile)
    ensures CollectedUpTo(reg, i + 1, Collect(perProfile, reg.profiles, reg.records[i]))
  {
    var more := Collect(perProfile, reg.profiles, reg.records[i]);
    forall key ensures Collected(more, key) == DatesOf(reg.records[..i + 1], reg.profiles, key) {
      DatesNext(reg.records, reg.profiles, i, key);
      assert Collected(perProfile, key) == DatesOf(reg.records[..i], reg.profiles, key);
    }
  }

  /** The record loop of `validate_registry`, with the dates it collects per profile. */
  method VisitRecords(reg: Registry) returns (violations: seq<Violation>, perProfile: map<string, seq<int>>)
    ensures violations == [] <==> forall i | 0 <= i < |reg.records| :: RecordOk(reg.profiles, reg.records[i])
    ensures CollectedUpTo(reg, |reg.records|, perProfile)
  {
    violations, perProfile := [], map[];
    for i := 0 to |reg.records|
      invariant violations == [] <==> forall k | 0 <= k < i :: RecordOk(reg.profiles, reg.records[k])
      invariant CollectedUpTo(reg, i, perProfile)
    {
      var r := reg.records[i];
      if !RecordOk(reg.profiles, r) {
        violations := violations + [BadRecord(i)];
      }
      CollectNext(reg, i, perProfile);
      perProfile := Collect(perProfile, reg.profiles, r);
    }
  }

  lemma OrderByKey(reg: Registry)
    requires forall i | 0 <= i < |reg.records| :: reg.records[i].profile in reg.profiles
    ensures DatesOrdered(reg) <==> forall key | key in reg.profiles :: KeyOrdered(reg.records, key)
  {
    if forall key | key in reg.profiles :: KeyOrdered(reg.records, key) {
      forall i, j | 0 <= i < j < |reg.records| && reg.records[i].profile == reg.records[j].profile
        ensures InOrder(reg.records[i].date, reg.records[j].date)
      {
        assert KeyOrdered(reg.records, reg.records[i].profile);
      }
    }
  }

  /** `validate_registry`: silent exactly on the registries the rules describe. */
  method ValidateRegistry(reg: Registry) returns (violations: seq<Violation>)
    ensures violations == [] <==> RegistryOk(reg)
  {
    violations := if reg.headerOk then [] else [BadHeader];
    var found, perProfile := VisitRecords(reg);
    violations := violations + found;
    ghost var recordsOk := found == [];
    var todo := reg.profiles.Keys;
    ghost var base := violations == [];
    while todo != {}
      invariant todo <= reg.profiles.Keys
      invariant violations == [] <==> base && forall key | key in reg.profiles && key !in todo :: ClassOk(reg, key)
      decreases todo
    {
      var key :| key in todo;
      if !ClassOk(reg, key) {
        violations := violations + [BadClass(key)];
      }
      todo := todo - {key};
    }
    var keys := perProfile.Keys;
    ghost var upTo := violations == [];
    while keys != {}
      invariant keys <= perProfile.Keys
      invariant violations == [] <==> upTo && forall key | key in perProfile && key !in keys :: Sorted(perProfile[key])
      decreases keys
    {
      var key :| key in keys;
      SortedExact(perProfile[key]);
      if perProfile[key] != SortedCopy(perProfile[key]) {
        violations := violations + [BadOrder(key)];
      }
      keys := keys - {key};
    }
    OrdersAgree(reg, perProfile);
  }

  lemma OrdersAgree(reg: Registry, perProfile: map<string, seq<int>>)
    requires CollectedUpTo(reg, |reg.records|, perProfile)
    ensures (forall i | 0 <= i < |reg.records| :: RecordOk(reg.profiles, reg.records[i])) ==>
            (DatesOrdered(reg) <==> forall key | key in perProfile :: Sorted(perProfile[key]))
  {
    if forall i | 0 <= i < |reg.records| :: RecordOk(reg.profiles, reg.records[i]) {
      OrderByKey(reg);
      forall key | key in reg.profiles
        ensures KeyOrdered(reg.records, key) <==> (key in perProfile ==> Sorted(perProfile[key]))
      {
        DatesSorted(reg.records, reg.profiles, key);
        assert reg.records[..|reg.records|] == reg.records;
        assert Collected(perProfile, key) == DatesOf(reg.records, reg.profiles, key);
      }
    }
  }

  // ---- the newest live record ----

  predicate Candidate(r: Record, profile: string, release: string)
  {
    r.profile == profile && r.evidence == LIVE && r.release == release && r.date.Some?
  }

  /** Index of the newest candidate: the latest date, and among equal dates the last appended. */
  function LatestLive(records: seq<Record>, profile: string, release: string): (r: Option<nat>)
    ensures r.Some? ==> r.value < |records| && Candidate(records[r.value], profile, release)
  {
    if records == [] then None
    else
      var n := |records| - 1;
      var best := LatestLive(records[..n], profile, release);
      if !Candidate(records[n], profile, release) then best
      else if best.Some? && records[n].date.value < records[best.value].date.value then best
      else Some(n)
  }

  /** The choice is the maximum by date, then append position. */
  lemma {:induction false} LatestIsNewest(records: seq<Record>, profile: string, release: string)
    ensures var best := LatestLive(records, profile, release);
            (best.None? <==> forall i | 0 <= i < |records| :: !Candidate(records[i], profile, release))
            && (best.Some? ==> forall i | 0 <= i < |records| && Candidate(records[i], profile, release) ::
                  records[i].date.value < records[best.value].date.value
                  || (records[i].date.value == records[best.value].date.value && i <= best.value))
  {
    if records != [] {
      var n := |records| - 1;
      LatestIsNewest(records[..n], profile, release);
      assert forall i | 0 <= i < n :: records[..n][i] == records[i];
    }
  }

  /** `validate_release_live` for the one gated profile. */
  function ReleaseLive(reg: Registry, release: string): seq<Violation>
  {
    if !Semver.IsRelease(release) then [BadRelease]
    else if B2 !in reg.profiles || reg.profiles[B2] != "target" then [NotTarget]
    else
      match LatestLive(reg.records, B2, release)
      case None => [NoLiveRecord]
      case Some(i) => if reg.records[i].outcome != "qualified" then [NotQualified] else []
  }

  /** The gate a release passes: a valid registry and live qualification for that release. */
  predicate GatePasses(reg: Registry, release: string)
  {
    RegistryOk(reg) && ReleaseLive(reg, release) == []
  }

  /** The last record appended for the profile and release as live evidence. */
  ghost predicate LastAppended(records: seq<Record>, profile: string, release: string, i: nat)
  {
    && i < |records| && IsLiveFor(records[i], profile, release)
    && forall j | i < j < |records| :: !IsLiveFor(records[j], profile, release)
  }

  ghost predicate IsLiveFor(r: Record, profile: string, release: string)
  {
    r.profile == profile && r.evidence == LIVE && r.release == release
  }

  lemma LatestIsLastAppended(reg: Registry, profile: string, release: string)
    requires RegistryOk(reg) && LatestLive(reg.records, profile, release).Some?
    ensures LastAppended(reg.records, profile, release, LatestLive(reg.records, profile, release).value)
  {
    var best := LatestLive(reg.records, profile, release).value;
    LatestIsNewest(reg.records, profile, release);
    forall j | best < j < |reg.records| ensures !IsLiveFor(reg.records[j], profile, release) {
      assert RecordOk(reg.profiles, reg.records[j]);
      assert InOrder(reg.records[best].date, reg.records[j].date) || reg.records[j].profile != profile;
    }
  }

  /** An open gate means the last live record appended for this exact release is a qualification. */
  lemma OpenGateIsQualified(reg: Registry, release: string)
    requires GatePasses(reg, release)
    ensures exists i: nat :: LastAppended(reg.records, B2, release, i) && reg.records[i].outcome == "qualified"
  {
    LatestIsLastAppended(reg, B2, release);
  }

  function Append(reg: Registry, r: Record): Registry
  {
    reg.(records := reg.records + [r])
  }

  /** A failed rerun closes the gate, whatever its date and whatever came before it. */
  lemma FailedRerunCloses(reg: Registry, r: Record, release: string)
    requires IsLiveFor(r, B2, release) && r.outcome != "qualified"
    ensures !GatePasses(Append(reg, r), release)
  {
    var all := Append(reg, r);
    assert all.records[|reg.records|] == r;
    if GatePasses(all, release) {
      OpenGateIsQualified(all, release);
    }
  }

  /** Records of other releases or profiles leave the live verdict as it was. */
  lemma OtherRecordsDoNotMatter(reg: Registry, r: Record, release: string)
    requires !IsLiveFor(r, B2, release)
    ensures ReleaseLive(Append(reg, r), release) == ReleaseLive(reg, release)
  {
    var all := reg.records + [r];
    assert all[..|reg.records|] == reg.records;
    assert LatestLive(all, B2, release) == LatestLive(reg.records, B2, release);
  }
}
