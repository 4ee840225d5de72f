/** What the rules of an accepted lifecycle registry can do to stored versions, over any run. */
module LifecycleRuns {
  import opened Text
  import opened Lifecycle

  // ---- stores under the rules ----

  type Path = seq<string>

  function PathOf(subprefix: string): Path
  {
    Split(subprefix, '/')
  }

  /** `s` is a subprefix listed for the family named `f`. */
  ghost predicate ListedFor(reg: Registry, f: string, s: string)
  {
    exists i :: 0 <= i < |reg.families| && reg.families[i].id == f && s in reg.families[i].subprefixes
  }

  ghost predicate InFamily(reg: Registry, f: string, key: Path)
  {
    exists s :: ListedFor(reg, f, s) && PathOf(s) <= key
  }

  /** Where a rule applies: a declared family's keys, or the whole bucket for the multipart scope. */
  ghost predicate Scope(reg: Registry, r: Rule, p: string, key: Path)
  {
    && (r.profile == ALL || r.profile == p)
    && (r.family in FamilyIds(reg.families) ==> InFamily(reg, r.family, key))
  }

  ghost predicate Versioned(reg: Registry, p: string, key: Path)
    requires p in reg.profiles
  {
    Enabled(reg.profiles, p) || (reg.profiles[p].versioning == "raw-bucket-only" && InFamily(reg, "raw", key))
  }

  datatype Event =
    | Put(p: string, key: Path, v: nat)
    | Expire(r: Rule, p: string, key: Path, at: nat)

  /** Versions of each object, oldest first; the last is the current one. */
  type Store = map<(string, Path), seq<nat>>

  predicate Expires(r: Rule)
  {
    r.action == "expire-noncurrent" || r.action == "expire-objects"
  }

  ghost predicate Can(reg: Registry, store: Store, e: Event)
  {
    match e
    case Put(p, _, _) => p in reg.profiles
    case Expire(r, p, key, at) =>
      && p in reg.profiles && r in reg.rules && Scope(reg, r, p, key)
      && (p, key) in store && at < |store[(p, key)]|
      && (r.action == "expire-objects" || (r.action == "expire-noncurrent" && at < |store[(p, key)]| - 1))
  }

  ghost function Apply(reg: Registry, store: Store, e: Event): Store
    requires Can(reg, store, e)
  {
    match e
    case Put(p, key, v) =>
      var behind := if (p, key) in store && Versioned(reg, p, key) then store[(p, key)] else [];
      store[(p, key) := behind + [v]]
    case Expire(_, p, key, at) =>
      var vs := store[(p, key)];
      var left := vs[..at] + vs[at + 1..];
      if left == [] then store - {(p, key)} else store[(p, key) := left]
  }

  /** The store after a run of puts and rule firings, if each was possible when it came. */
  ghost function After(reg: Registry, events: seq<Event>): Option<Store>
  {
    if events == [] then Some(map[])
    else
      var store :- After(reg, events[..|events| - 1]);
      var e := events[|events| - 1];
      if Can(reg, store, e) then Some(Apply(reg, store, e)) else None
  }

  /** The values put at one key, in order. */
  ghost function Puts(events: seq<Event>, p: string, key: Path): seq<nat>
  {
    if events == [] then []
    else
      var e, before := events[|events| - 1], Puts(events[..|events| - 1], p, key);
      if e.Put? && e.p == p && e.key == key then before + [e.v] else before
  }

  ghost predicate CurrentKept(store: Store, events: seq<Event>, p: string, key: Path)
  {
    var puts := Puts(events, p, key);
    puts != [] ==>
      (p, key) in store && store[(p, key)] != [] && store[(p, key)][|store[(p, key)]| - 1] == puts[|puts| - 1]
  }

  ghost predicate AllKept(store: Store, events: seq<Event>, p: string, key: Path)
  {
    var puts := Puts(events, p, key);
    if puts == [] then (p, key) !in store else (p, key) in store && store[(p, key)] == puts
  }

  const TENANT_PREFIXES := {"raw", "control", "catalog", "derived"}

  /** Under one of the four tenant prefixes, whatever the families list. */
  predicate UnderTenant(key: Path)
  {
    key != [] && key[0] in TENANT_PREFIXES
  }

  /** Every key under a tenant prefix, every key of a family other than probe, and every key that is not
      a probe key. */
  ghost predicate Guarded(reg: Registry, key: Path)
  {
    UnderTenant(key) || Claimed(reg, key) || !InFamily(reg, PROBE, key)
  }

  /** L-001 over runs: the last put at a guarded key stays the current version. */
  ghost predicate CurrentSafe(reg: Registry)
  {
    forall events, p, key | After(reg, events).Some? && Guarded(reg, key) ::
      CurrentKept(After(reg, events).value, events, p, key)
  }

  /** L-003 over runs: only in the probe namespace itself can a current version be lost. */
  ghost predicate ProbeOnly(reg: Registry)
  {
    forall events, p, key | After(reg, events).Some? && !UnderProbe(key) ::
      CurrentKept(After(reg, events).value, events, p, key)
  }

  predicate UnderProbe(key: Path)
  {
    key != [] && key[0] == "probe"
  }

  /** L-002 over runs: on profile `p` every version of a current-pointer object stays. */
  ghost predicate PointerSafe(reg: Registry, p: string)
  {
    forall events, key | After(reg, events).Some? && InFamily(reg, PINNED, key) ::
      AllKept(After(reg, events).value, events, p, key)
  }

  ghost predicate Accepted(reg: Registry)
  {
    ShapeOk(reg) && ProtectionOk(reg) && PinOk(reg)
  }

  // ---- L-001 ----

  /** A key of a family other than probe. */
  ghost predicate Claimed(reg: Registry, key: Path)
  {
    exists f :: f != PROBE && InFamily(reg, f, key)
  }

  predicate Comparable(a: Path, b: Path)
  {
    a <= b || b <= a
  }

  /** No probe key lies under a tenant prefix or is a key of another family. */
  ghost predicate ProbeApart(reg: Registry)
  {
    && (forall s | ListedFor(reg, PROBE, s) :: !UnderTenant(PathOf(s)))
    && forall s, f, t | ListedFor(reg, PROBE, s) && f != PROBE && ListedFor(reg, f, t) ::
         !Comparable(PathOf(s), PathOf(t))
  }

  /** What the protection check leaves to the author: no multipart row expires whole objects, and where a
      probe row does, the probe subprefixes lie outside the tenant prefixes and do not nest with those of
      another family. */
  ghost predicate Confined(reg: Registry)
  {
    forall r | r in reg.rules && r.action == "expire-objects" :: r.family != MULTIPART && ProbeApart(reg)
  }

  lemma {:induction false} NamedIsLast(families: seq<Family>, id: string)
    ensures match FamilyNamed(families, id)
            case None => id !in FamilyIds(families)
            case Some(f) => f.id == id && f in families
  {
    if families != [] {
      var n := |families| - 1;
      assert families == families[..n] + [families[n]];
      NamedIsLast(families[..n], id);
      if families[n].id == id {
        assert families[n] in families;
      }
    }
  }

  /** A whole-object rule outside the multipart scope is a probe rule. */
  lemma WholeObjectRuleIsProbe(reg: Registry, r: Rule)
    requires Accepted(reg) && r in reg.rules && r.action == "expire-objects" && r.family != MULTIPART
    ensures r.family == PROBE && PROBE in FamilyIds(reg.families)
  {
    var i :| 0 <= i < |reg.rules| && reg.rules[i] == r;
    assert Protected(reg.families, reg.rules[i]);
    NamedIsLast(reg.families, r.family);
    var f := FamilyNamed(reg.families, r.family).value;
    assert FamilyOk(f);
    assert RuleOk(reg.rules[i], reg.profiles.Keys, FamilyIds(reg.families));
  }

  lemma PrefixesCompare(a: Path, b: Path, key: Path)
    requires a <= key && b <= key
    ensures Comparable(a, b)
  {
  }

  /** No whole-object rule reaches a key that is protected. */
  lemma OutOfReach(reg: Registry, r: Rule, p: string, key: Path)
    requires Accepted(reg) && Confined(reg) && r in reg.rules && Scope(reg, r, p, key) && Guarded(reg, key)
    ensures r.action != "expire-objects"
  {
    if r.action == "expire-objects" {
      WholeObjectRuleIsProbe(reg, r);
      var s :| ListedFor(reg, PROBE, s) && PathOf(s) <= key;
      assert key[0] == PathOf(s)[0];
      var f :| f != PROBE && InFamily(reg, f, key);
      var t :| ListedFor(reg, f, t) && PathOf(t) <= key;
      PrefixesCompare(PathOf(s), PathOf(t), key);
    }
  }

  lemma PutsNext(events: seq<Event>, e: Event, p: string, key: Path)
    ensures Puts(events + [e], p, key) ==
            Puts(events, p, key) + if e.Put? && e.p == p && e.key == key then [e.v] else []
  {
    assert (events + [e])[..|events|] == events;
  }

  /** One event at another key, a put, or the expiry of a noncurrent version keeps the current one. */
  lemma CurrentStep(reg: Registry, store: Store, events: seq<Event>, e: Event, p: string, key: Path)
    requires Can(reg, store, e) && CurrentKept(store, events, p, key)
    requires e.Expire? && e.p == p && e.key == key ==> e.r.action == "expire-noncurrent"
    ensures CurrentKept(Apply(reg, store, e), events + [e], p, key)
  {
    PutsNext(events, e, p, key);
    if e.Expire? && e.p == p && e.key == key {
      var vs := store[(p, key)];
      var left := vs[..e.at] + vs[e.at + 1..];
      assert left[|left| - 1] == vs[|vs| - 1];
    }
  }

  lemma AfterNext(reg: Registry, events: seq<Event>)
    requires events != [] && After(reg, events).Some?
    ensures var n := |events| - 1;
            && events == events[..n] + [events[n]]
            && After(reg, events[..n]).Some?
            && Can(reg, After(reg, events[..n]).value, events[n])
            && After(reg, events).value == Apply(reg, After(reg, events[..n]).value, events[n])
  {
    var n := |events| - 1;
    assert events == events[..n] + [events[n]];
  }

  lemma CurrentUntouched(reg: Registry, store: Store, e: Event, p: string, key: Path)
    requires Accepted(reg) && Confined(reg) && Can(reg, store, e) && Guarded(reg, key)
    ensures e.Expire? && e.p == p && e.key == key ==> e.r.action == "expire-noncurrent"
  {
    if e.Expire? && e.p == p && e.key == key && e.r.action == "expire-objects" {
      OutOfReach(reg, e.r, p, key);
    }
  }

  lemma {:induction false} CurrentStays(reg: Registry, events: seq<Event>, p: string, key: Path)
    requires Accepted(reg) && Confined(reg)
    requires After(reg, events).Some? && Guarded(reg, key)
    ensures CurrentKept(After(reg, events).value, events, p, key)
  {
    if events != [] {
      var n := |events| - 1;
      AfterNext(reg, events);
      CurrentStays(reg, events[..n], p, key);
      var store, e := After(reg, events[..n]).value, events[n];
      CurrentUntouched(reg, store, e, p, key);
      CurrentStep(reg, store, events[..n], e, p, key);
    }
  }

  lemma {:induction false} LongerThanAll(ss: set<string>) returns (k: nat)
    ensures forall s | s in ss :: |s| < k
    decreases ss
  {
    if ss == {} {
      k := 0;
    } else {
      var s :| s in ss;
      var m := LongerThanAll(ss - {s});
      k := if |s| < m then m else |s| + 1;
    }
  }

  /** Some key lies outside every family. */
  lemma KeyOutside(reg: Registry) returns (key: Path)
    ensures forall f :: !InFamily(reg, f, key)
  {
    var k := LongerThanAll(AllListed(reg.families));
    var x := Zeros(k);
    key := [x];
    forall f, s | ListedFor(reg, f, s) ensures !(PathOf(s) <= key) {
      AllListedHas(reg.families, s);
      JoinSplit(s, '/');
    }
  }

  /** A put, and then the rule: the object is gone. */
  lemma LostRun(reg: Registry, r: Rule, p: string, key: Path)
    requires p in reg.profiles && r in reg.rules && Scope(reg, r, p, key) && r.action == "expire-objects"
    ensures var events := [Put(p, key, 0), Expire(r, p, key, 0)];
            After(reg, events).Some? && !CurrentKept(After(reg, events).value, events, p, key)
  {
    var e, e' := Put(p, key, 0), Expire(r, p, key, 0);
    var events := [e, e'];
    assert events[..1] == [e] && [e][..0] == [];
    assert After(reg, []) == Some(map[]);
    var one := After(reg, [e]);
    assert one.Some? && one.value[(p, key)] == [0];
    assert After(reg, events).Some? && (p, key) !in After(reg, events).value;
    assert Puts([], p, key) == [];
    assert Puts([e], p, key) == [0];
    assert Puts(events, p, key) == [0];
  }

  /** A profile on which the rule fires. */
  lemma RuleProfile(reg: Registry, r: Rule) returns (p: string)
    requires Accepted(reg) && r in reg.rules
    ensures p in reg.profiles && (r.profile == ALL || r.profile == p)
  {
    var i :| 0 <= i < |reg.rules| && reg.rules[i] == r;
    assert RuleOk(reg.rules[i], reg.profiles.Keys, FamilyIds(reg.families));
    var q :| q in reg.profiles;
    p := if r.profile == ALL then q else r.profile;
  }

  lemma FamilyKey(reg: Registry, f: string) returns (key: Path)
    requires FamiliesOk(reg.families) && f in FamilyIds(reg.families)
    ensures InFamily(reg, f, key)
  {
    var i :| 0 <= i < |reg.families| && reg.families[i].id == f;
    assert FamilyOk(reg.families[i]);
    var s := reg.families[i].subprefixes[0];
    assert s in reg.families[i].subprefixes;
    assert ListedFor(reg, f, s);
    key := PathOf(s);
  }

  /** A whole-object rule that is not confined reaches a guarded key. */
  lemma UnconfinedKey(reg: Registry, r: Rule) returns (key: Path)
    requires Accepted(reg) && r in reg.rules && r.action == "expire-objects"
    requires r.family == MULTIPART || !ProbeApart(reg)
    ensures Guarded(reg, key) && (r.family in FamilyIds(reg.families) ==> InFamily(reg, r.family, key))
  {
    if r.family == MULTIPART {
      if MULTIPART in FamilyIds(reg.families) {
        key := FamilyKey(reg, MULTIPART);
      } else {
        key := KeyOutside(reg);
      }
    } else {
      WholeObjectRuleIsProbe(reg, r);
      key := NestedKey(reg);
    }
  }

  lemma NestedKey(reg: Registry) returns (key: Path)
    requires !ProbeApart(reg)
    ensures InFamily(reg, PROBE, key) && (UnderTenant(key) || Claimed(reg, key))
  {
    if s :| ListedFor(reg, PROBE, s) && UnderTenant(PathOf(s)) {
      return PathOf(s);
    }
    var s, f, t :| ListedFor(reg, PROBE, s) && f != PROBE && ListedFor(reg, f, t) && Comparable(PathOf(s), PathOf(t));
    key := if PathOf(s) <= PathOf(t) then PathOf(t) else PathOf(s);
    assert PathOf(s) <= key && PathOf(t) <= key;
    assert InFamily(reg, f, key);
  }

  /** The protection invariant over all runs, and exactly when an accepted registry has it. */
  lemma CurrentSafeExact(reg: Registry)
    requires Accepted(reg)
    ensures CurrentSafe(reg) <==> Confined(reg)
  {
    if Confined(reg) {
      forall events, p, key | After(reg, events).Some? && Guarded(reg, key)
        ensures CurrentKept(After(reg, events).value, events, p, key)
      {
        CurrentStays(reg, events, p, key);
      }
    } else {
      var r, p, key := LostGuarded(reg);
      LostRun(reg, r, p, key);
    }
  }

  lemma LostGuarded(reg: Registry) returns (r: Rule, p: string, key: Path)
    requires Accepted(reg) && !Confined(reg)
    ensures p in reg.profiles && r in reg.rules && Scope(reg, r, p, key) && r.action == "expire-objects"
    ensures Guarded(reg, key)
  {
    r :| r in reg.rules && r.action == "expire-objects" && (r.family == MULTIPART || !ProbeApart(reg));
    p := RuleProfile(reg, r);
    key := UnconfinedKey(reg, r);
  }

  // ---- L-003 ----

  /** Every whole-object rule belongs to a declared family whose subprefixes lie in the probe namespace. */
  ghost predicate InNamespace(reg: Registry)
  {
    forall r | r in reg.rules && r.action == "expire-objects" ::
      r.family in FamilyIds(reg.families) && forall s | ListedFor(reg, r.family, s) :: UnderProbe(PathOf(s))
  }

  lemma {:induction false} NamespaceStays(reg: Registry, events: seq<Event>, p: string, key: Path)
    requires InNamespace(reg) && After(reg, events).Some? && !UnderProbe(key)
    ensures CurrentKept(After(reg, events).value, events, p, key)
  {
    if events != [] {
      var n := |events| - 1;
      AfterNext(reg, events);
      NamespaceStays(reg, events[..n], p, key);
      var store, e := After(reg, events[..n]).value, events[n];
      NamespaceUntouched(reg, store, e, p, key);
      CurrentStep(reg, store, events[..n], e, p, key);
    }
  }

  lemma InNamespaceKey(reg: Registry, r: Rule, p: string, key: Path)
    requires InNamespace(reg) && r in reg.rules && Scope(reg, r, p, key) && r.action == "expire-objects"
    ensures UnderProbe(key)
  {
    var s :| ListedFor(reg, r.family, s) && PathOf(s) <= key;
    assert key[0] == PathOf(s)[0];
  }

  lemma NamespaceUntouched(reg: Registry, store: Store, e: Event, p: string, key: Path)
    requires InNamespace(reg) && Can(reg, store, e) && !UnderProbe(key)
    ensures e.Expire? && e.p == p && e.key == key ==> e.r.action == "expire-noncurrent"
  {
    if e.Expire? && e.p == p && e.key == key && e.r.action == "expire-objects" {
      InNamespaceKey(reg, e.r, p, key);
    }
  }

  /** Only in the probe namespace is a current version ever lost, and exactly when that is so. */
  lemma ProbeOnlyExact(reg: Registry)
    requires Accepted(reg)
    ensures ProbeOnly(reg) <==> InNamespace(reg)
  {
    if InNamespace(reg) {
      forall events, p, key | After(reg, events).Some? && !UnderProbe(key)
        ensures CurrentKept(After(reg, events).value, events, p, key)
      {
        NamespaceStays(reg, events, p, key);
      }
    } else {
      var r, p, key := LostOutside(reg);
      LostRun(reg, r, p, key);
    }
  }

  lemma LostOutside(reg: Registry) returns (r: Rule, p: string, key: Path)
    requires Accepted(reg) && !InNamespace(reg)
    ensures p in reg.profiles && r in reg.rules && Scope(reg, r, p, key) && r.action == "expire-objects"
    ensures !UnderProbe(key)
  {
    r :| r in reg.rules && r.action == "expire-objects"
         && !(r.family in FamilyIds(reg.families)
              && forall s | ListedFor(reg, r.family, s) :: UnderProbe(PathOf(s)));
    p := RuleProfile(reg, r);
    key := [""];
    if r.family in FamilyIds(reg.families) {
      var s :| ListedFor(reg, r.family, s) && !UnderProbe(PathOf(s));
      key := PathOf(s);
      assert InFamily(reg, r.family, key);
    }
  }

  // ---- L-002 ----

  /** The gap the pin leaves: an expiring rule of another family, or of the whole bucket, whose
      keys overlap the current-pointer keys. */
  ghost predicate NoOverlap(reg: Registry, p: string)
  {
    forall r, t | r in reg.rules && (r.profile == ALL || r.profile == p) && Expires(r) && r.family != PINNED
                  && ListedFor(reg, PINNED, t) :: Clear(reg, r.family, t)
  }

  ghost predicate Clear(reg: Registry, f: string, t: string)
  {
    f in FamilyIds(reg.families) && forall s | ListedFor(reg, f, s) :: !Comparable(PathOf(s), PathOf(t))
  }

  lemma PointerOutOfReach(reg: Registry, r: Rule, p: string, key: Path)
    requires Accepted(reg) && Enabled(reg.profiles, p) && NoOverlap(reg, p)
    requires r in reg.rules && Scope(reg, r, p, key) && InFamily(reg, PINNED, key)
    ensures !Expires(r)
  {
    var t :| ListedFor(reg, PINNED, t) && PathOf(t) <= key;
    var i :| 0 <= i < |reg.rules| && reg.rules[i] == r;
    assert Pinned(reg.profiles, reg.rules[i]) && RuleOk(reg.rules[i], reg.profiles.Keys, FamilyIds(reg.families));
    if Expires(r) && r.family != PINNED {
      assert Clear(reg, r.family, t);
      var s :| ListedFor(reg, r.family, s) && PathOf(s) <= key;
      PrefixesCompare(PathOf(s), PathOf(t), key);
    }
  }

  lemma AllStep(reg: Registry, store: Store, events: seq<Event>, e: Event, p: string, key: Path)
    requires Can(reg, store, e) && AllKept(store, events, p, key) && Enabled(reg.profiles, p)
    requires !(e.Expire? && e.p == p && e.key == key)
    ensures AllKept(Apply(reg, store, e), events + [e], p, key)
  {
    PutsNext(events, e, p, key);
  }

  lemma PointerUntouched(reg: Registry, store: Store, e: Event, p: string, key: Path)
    requires Accepted(reg) && Enabled(reg.profiles, p) && NoOverlap(reg, p)
    requires Can(reg, store, e) && InFamily(reg, PINNED, key)
    ensures !(e.Expire? && e.p == p && e.key == key)
  {
    if e.Expire? && e.p == p && e.key == key {
      PointerOutOfReach(reg, e.r, p, key);
    }
  }

  lemma {:induction false} PointerStays(reg: Registry, events: seq<Event>, p: string, key: Path)
    requires Accepted(reg) && Enabled(reg.profiles, p) && NoOverlap(reg, p)
    requires After(reg, events).Some? && InFamily(reg, PINNED, key)
    ensures AllKept(After(reg, events).value, events, p, key)
  {
    if events != [] {
      var n := |events| - 1;
      AfterNext(reg, events);
      PointerStays(reg, events[..n], p, key);
      var store, e := After(reg, events[..n]).value, events[n];
      PointerUntouched(reg, store, e, p, key);
      AllStep(reg, store, events[..n], e, p, key);
    }
  }

  lemma OverlapRun(reg: Registry, r: Rule, p: string, key: Path)
    requires Enabled(reg.profiles, p) && r in reg.rules && Scope(reg, r, p, key) && Expires(r)
    requires InFamily(reg, PINNED, key)
    ensures !PointerSafe(reg, p)
  {
    var e0, e1, e2 := Put(p, key, 0), Put(p, key, 1), Expire(r, p, key, 0);
    var events := [e0, e1, e2];
    assert [e0][..0] == [] && [e0, e1][..1] == [e0] && events[..2] == [e0, e1];
    assert After(reg, []) == Some(map[]);
    assert After(reg, [e0]).Some? && After(reg, [e0]).value[(p, key)] == [0];
    assert After(reg, [e0, e1]).Some? && After(reg, [e0, e1]).value[(p, key)] == [0, 1];
    assert After(reg, events).Some? && After(reg, events).value[(p, key)] == [1];
    assert Puts([e0], p, key) == [0];
    assert Puts([e0, e1], p, key) == [0, 1];
    assert Puts(events, p, key) == [0, 1];
    assert !AllKept(After(reg, events).value, events, p, key);
  }

  /** The current-pointer pin over all runs, and exactly when the gate enforces it. */
  lemma PointerSafeExact(reg: Registry, p: string)
    requires Accepted(reg) && Enabled(reg.profiles, p)
    ensures PointerSafe(reg, p) <==> NoOverlap(reg, p)
  {
    if NoOverlap(reg, p) {
      forall events, key | After(reg, events).Some? && InFamily(reg, PINNED, key)
        ensures AllKept(After(reg, events).value, events, p, key)
      {
        PointerStays(reg, events, p, key);
      }
    } else {
      var r, t :| r in reg.rules && (r.profile == ALL || r.profile == p) && Expires(r) && r.family != PINNED
                  && ListedFor(reg, PINNED, t) && !Clear(reg, r.family, t);
      OverlapKey(reg, r, p, t);
    }
  }

  lemma OverlapKey(reg: Registry, r: Rule, p: string, t: string)
    requires Enabled(reg.profiles, p) && r in reg.rules && (r.profile == ALL || r.profile == p) && Expires(r)
    requires ListedFor(reg, PINNED, t) && !Clear(reg, r.family, t)
    ensures !PointerSafe(reg, p)
  {
    var key := PathOf(t);
    if r.family in FamilyIds(reg.families) {
      var s :| ListedFor(reg, r.family, s) && Comparable(PathOf(s), PathOf(t));
      if PathOf(t) <= PathOf(s) {
        key := PathOf(s);
      }
      assert InFamily(reg, r.family, key);
    }
    assert InFamily(reg, PINNED, key);
    OverlapRun(reg, r, p, key);
  }

  // ---- the documented registry ----

  /** What the registry's documentation intends and the gate leaves to its author: the spare row
      only aborts uploads, no family takes its name, no subprefix nests in another family's, and probe
      keeps to its namespace. */
  ghost predicate AsDocumented(reg: Registry)
  {
    && MULTIPART !in FamilyIds(reg.families)
    && (forall r | r in reg.rules && r.family == MULTIPART :: r.action == "abort-incomplete-multipart")
    && (forall f, g, s, t | f != g && ListedFor(reg, f, s) && ListedFor(reg, g, t) :: !Comparable(PathOf(s), PathOf(t)))
    && forall s | ListedFor(reg, PROBE, s) :: UnderProbe(PathOf(s))
  }

  lemma DocumentedProbe(reg: Registry)
    requires Accepted(reg) && AsDocumented(reg)
    ensures Confined(reg) && InNamespace(reg)
  {
    assert "probe" !in TENANT_PREFIXES by {
      assert |"probe"| == 5 && |"raw"| == 3 && |"control"| == 7 && |"catalog"| == 7 && |"derived"| == 7;
    }
    forall r | r in reg.rules && r.action == "expire-objects"
      ensures r.family == PROBE && PROBE in FamilyIds(reg.families)
    {
      WholeObjectRuleIsProbe(reg, r);
    }
  }

  lemma DocumentedIsSafe(reg: Registry, p: string)
    requires Accepted(reg) && AsDocumented(reg) && Enabled(reg.profiles, p)
    ensures CurrentSafe(reg) && ProbeOnly(reg) && PointerSafe(reg, p)
  {
    DocumentedProbe(reg);
    CurrentSafeExact(reg);
    ProbeOnlyExact(reg);
    forall r, t | r in reg.rules && (r.profile == ALL || r.profile == p) && Expires(r) && r.family != PINNED
                  && ListedFor(reg, PINNED, t)
      ensures Clear(reg, r.family, t)
    {
      var i :| 0 <= i < |reg.rules| && reg.rules[i] == r;
      assert RuleOk(reg.rules[i], reg.profiles.Keys, FamilyIds(reg.families));
    }
    PointerSafeExact(reg, p);
  }
}
