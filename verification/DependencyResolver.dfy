/** Which released versions of a mod can be installed: a memoised search that cuts cycles. */
module DependencyResolution {
  import opened Options

  type Project = string

  type VersionId = string

  /** An empty project or version id stands for a missing one. */
  datatype Dependency = Dependency(required: bool, project: Project, version: VersionId)

  /** `downloadable` is the metadata test: game version, loader and a JAR with a web address. */
  datatype Version = Version(id: VersionId, project: Project, downloadable: bool, dependencies: seq<Dependency>)

  /** What the service answers; a missing key is a failed request. */
  datatype Registry = Registry(releases: map<Project, seq<Version>>, pinned: map<VersionId, Version>)

  datatype Entry = Entry(version: Version, ok: bool)

  /** The in-progress set and the memo table. `unchecked` records each pinned version accepted only because its
      project was in progress, `failures` counts the project requests that failed. */
  datatype State = State(resolving: set<Project>, cache: map<Project, seq<Entry>>, unchecked: seq<Version>, failures: nat)

  function Target(d: Dependency, v: Version): Project { if v.project != "" then v.project else d.project }

  /** A finite set of projects that contains every one the registry mentions. */
  ghost predicate Closed(reg: Registry, u: set<Project>)
  {
    && (forall p, v, d | p in reg.releases && v in reg.releases[p] && d in v.dependencies :: d.project in u)
    && (forall id | id in reg.pinned :: reg.pinned[id].project in u)
    && (forall id, d | id in reg.pinned && d in reg.pinned[id].dependencies :: d.project in u)
  }

  /** Every project named by a dependency is in u. */
  ghost predicate Within(ds: seq<Dependency>, u: set<Project>) { forall d | d in ds :: d.project in u }

  /** States between which a search may move: projects stay in progress exactly when requests failed, and only those
      whose request failed do. */
  ghost predicate Follows(reg: Registry, u: set<Project>, s: State, s': State)
  {
    && s.resolving <= s'.resolving <= u
    && (forall p | p in s'.resolving && p !in s.resolving :: p !in reg.releases)
    && s.unchecked <= s'.unchecked && s.failures <= s'.failures
    && (s'.resolving == s.resolving <==> s'.failures == s.failures)
  }

  /** `_compatible_versions`: None when the request fails. */
  ghost function Versions(reg: Registry, u: set<Project>, s: State, p: Project): (r: (State, Option<seq<Entry>>))
    requires Closed(reg, u) && s.resolving <= u && p in u
    ensures Follows(reg, u, s, r.0)
    decreases u - s.resolving, 0, 0
  {
    if p in s.cache then (s, Some(s.cache[p]))
    else if p in s.resolving then (s, Some([]))
    else
      var entered := s.(resolving := s.resolving + {p});
      if p !in reg.releases then (entered.(failures := s.failures + 1), None)
      else
        var (s', entries) := Entries(reg, u, entered, reg.releases[p]);
        (s'.(resolving := s'.resolving - {p}, cache := s'.cache[p := entries]), Some(entries))
  }

  /** The loop over raw versions. */
  ghost function Entries(reg: Registry, u: set<Project>, s: State, vs: seq<Version>): (r: (State, seq<Entry>))
    requires Closed(reg, u) && s.resolving <= u && forall v | v in vs :: Within(v.dependencies, u)
    ensures Follows(reg, u, s, r.0)
    decreases u - s.resolving, 3, |vs|
  {
    if vs == [] then (s, [])
    else if !vs[0].downloadable then Entries(reg, u, s, vs[1..])
    else
      var (s1, rows) := Rows(reg, u, s, vs[0].dependencies);
      var (s2, rest) := Entries(reg, u, s1, vs[1..]);
      (s2, [Entry(vs[0], RequiredOk(vs[0].dependencies, rows))] + rest)
  }

  /** `_resolve_dependencies`: per dependency, the version chosen for it. */
  ghost function Rows(reg: Registry, u: set<Project>, s: State, ds: seq<Dependency>): (r: (State, seq<Option<Version>>))
    requires Closed(reg, u) && s.resolving <= u && Within(ds, u)
    ensures Follows(reg, u, s, r.0) && |r.1| == |ds|
    decreases u - s.resolving, 2, |ds|
  {
    if ds == [] then (s, []) else
    var (s1, row) := Row(reg, u, s, ds[0]);
    var (s2, rest) := Rows(reg, u, s1, ds[1..]);
    (s2, [row] + rest)
  }

  ghost function Row(reg: Registry, u: set<Project>, s: State, d: Dependency): (r: (State, Option<Version>))
    requires Closed(reg, u) && s.resolving <= u && d.project in u
    ensures Follows(reg, u, s, r.0)
    decreases u - s.resolving, 1, 0
  {
    if d.version != "" then
      if d.version !in reg.pinned then (s, None) else
      var v := reg.pinned[d.version];
      var t := Target(d, v);
      if !v.downloadable then (s, None)
      else if t in s.resolving then (s.(unchecked := s.unchecked + [v]), Some(v))
      else
        var (s', rows) := Rows(reg, u, s.(resolving := s.resolving + {t}), v.dependencies);
        (s'.(resolving := s'.resolving - {t}), if RequiredOk(v.dependencies, rows) then Some(v) else None)
    else if d.project != "" then
      var (s', found) := Versions(reg, u, s, d.project);
      (s', if found.Some? then FirstOk(found.value) else None)
    else (s, None)
  }

  predicate RequiredOk(ds: seq<Dependency>, rows: seq<Option<Version>>)
    requires |rows| == |ds|
  {
    forall i | 0 <= i < |ds| :: ds[i].required ==> rows[i].Some?
  }

  function FirstOk(entries: seq<Entry>): (r: Option<Version>)
    ensures r.Some? ==> exists k :: IsFirstOk(entries, k, r.value)
    ensures r.None? <==> forall e | e in entries :: !e.ok
  {
    if entries == [] then None
    else if entries[0].ok then
      assert IsFirstOk(entries, 0, entries[0].version);
      Some(entries[0].version)
    else
      var rest := FirstOk(entries[1..]);
      assert forall k, v | IsFirstOk(entries[1..], k, v) :: IsFirstOk(entries, k + 1, v);
      assert forall e | e in entries :: e == entries[0] || e in entries[1..];
      rest
  }

  /** The entry at k is compatible, has this version, and none before it is compatible. */
  ghost predicate IsFirstOk(entries: seq<Entry>, k: int, v: Version)
  {
    0 <= k < |entries| && entries[k].ok && entries[k].version == v && forall j | 0 <= j < k :: !entries[j].ok
  }

  // ----- what it means to be installable -----

  /** The versions a dependency accepts. */
  ghost predicate Serves(reg: Registry, d: Dependency, v: Version)
  {
    if d.version != "" then d.version in reg.pinned && v == reg.pinned[d.version]
    else d.project != "" && d.project in reg.releases && v in reg.releases[d.project]
  }

  /** v and all its required dependencies can be installed, by a derivation of depth at most n. */
  ghost predicate InstallableIn(reg: Registry, v: Version, n: nat)
    decreases n, 0
  {
    v.downloadable && n > 0 && forall d | d in v.dependencies && d.required :: MetIn(reg, d, n - 1)
  }

  ghost predicate MetIn(reg: Registry, d: Dependency, n: nat)
    decreases n, 1
  {
    exists v :: Serves(reg, d, v) && InstallableIn(reg, v, n)
  }

  ghost predicate Installable(reg: Registry, v: Version) { exists n: nat :: InstallableIn(reg, v, n) }

  lemma {:induction false} DeeperIsFine(reg: Registry, v: Version, n: nat, m: nat)
    requires InstallableIn(reg, v, n) && n <= m
    ensures InstallableIn(reg, v, m)
    decreases n
  {
    forall d | d in v.dependencies && d.required ensures MetIn(reg, d, m - 1) {
      var w :| Serves(reg, d, w) && InstallableIn(reg, w, n - 1);
      DeeperIsFine(reg, w, n - 1, m - 1);
    }
  }

  ghost predicate RowSound(reg: Registry, d: Dependency, row: Option<Version>)
  {
    row.Some? ==> Serves(reg, d, row.value) && Installable(reg, row.value)
  }

  ghost predicate RowsSound(reg: Registry, ds: seq<Dependency>, rows: seq<Option<Version>>)
    requires |rows| == |ds|
  {
    forall i | 0 <= i < |ds| :: RowSound(reg, ds[i], rows[i])
  }

  ghost predicate RequiredSound(reg: Registry, ds: seq<Dependency>, rows: seq<Option<Version>>)
    requires |rows| == |ds|
  {
    forall i | 0 <= i < |ds| && ds[i].required :: RowSound(reg, ds[i], rows[i])
  }

  /** One depth is enough for finitely many dependencies. */
  lemma {:induction false} CommonDepth(reg: Registry, ds: seq<Dependency>, rows: seq<Option<Version>>) returns (n: nat)
    requires |rows| == |ds| && RequiredOk(ds, rows) && RequiredSound(reg, ds, rows)
    ensures forall d | d in ds && d.required :: MetIn(reg, d, n)
  {
    n := 0;
    for k := 0 to |ds|
      invariant forall i | 0 <= i < k && ds[i].required :: MetIn(reg, ds[i], n)
    {
      if ds[k].required {
        var m: nat :| InstallableIn(reg, rows[k].value, m);
        var more := if n < m then m else n;
        forall i | 0 <= i < k && ds[i].required ensures MetIn(reg, ds[i], more) {
          var w :| Serves(reg, ds[i], w) && InstallableIn(reg, w, n);
          DeeperIsFine(reg, w, n, more);
        }
        DeeperIsFine(reg, rows[k].value, m, more);
        n := more;
      }
    }
  }

  lemma {:induction false} RowsMakeInstallable(reg: Registry, v: Version, rows: seq<Option<Version>>)
    requires v.downloadable && |rows| == |v.dependencies|
    requires RequiredOk(v.dependencies, rows) && RequiredSound(reg, v.dependencies, rows)
    ensures Installable(reg, v)
  {
    var n := CommonDepth(reg, v.dependencies, rows);
    assert InstallableIn(reg, v, n + 1);
  }

  /** The entries are the downloadable releases, in the order of the answer. */
  function Downloadables(vs: seq<Version>): seq<Version>
  {
    if vs == [] then [] else (if vs[0].downloadable then [vs[0]] else []) + Downloadables(vs[1..])
  }

  /** They keep their order and are no others. */
  lemma {:induction false} DownloadablesJoin(a: seq<Version>, b: seq<Version>)
    ensures Downloadables(a + b) == Downloadables(a) + Downloadables(b)
  {
    if a == [] {
      assert a + b == b;
    } else {
      var first := if a[0].downloadable then [a[0]] else [];
      assert (a + b)[1..] == a[1..] + b && (a + b)[0] == a[0];
      DownloadablesJoin(a[1..], b);
      assert Downloadables(a + b) == first + Downloadables((a + b)[1..]);
      assert Downloadables(a) == first + Downloadables(a[1..]);
      hide Downloadables;
      assert first + (Downloadables(a[1..]) + Downloadables(b)) == (first + Downloadables(a[1..])) + Downloadables(b);
    }
  }

  lemma {:induction false} OneDownloadable(v: Version)
    ensures Downloadables([v]) == if v.downloadable then [v] else []
  {
    assert [v][1..] == [];
  }

  lemma {:induction false} InDownloadables(vs: seq<Version>, v: Version)
    ensures v in Downloadables(vs) <==> v in vs && v.downloadable
  {
    if vs != [] {
      InDownloadables(vs[1..], v);
      assert v in vs <==> v == vs[0] || v in vs[1..];
    }
  }

  ghost predicate Lists(entries: seq<Entry>, vs: seq<Version>)
  {
    |entries| == |Downloadables(vs)| && forall i | 0 <= i < |entries| :: entries[i].version == Downloadables(vs)[i]
  }

  lemma {:induction false} ListsStep(vs: seq<Version>, ok: bool, rest: seq<Entry>)
    requires vs != [] && Lists(rest, vs[1..])
    ensures !vs[0].downloadable ==> Lists(rest, vs)
    ensures vs[0].downloadable ==> Lists([Entry(vs[0], ok)] + rest, vs)
  {
  }

  /** Each remembered answer lists the downloadable releases of its project in order. */
  ghost predicate CacheLists(reg: Registry, cache: map<Project, seq<Entry>>)
  {
    forall p | p in cache :: p in reg.releases && Lists(cache[p], reg.releases[p])
  }

  lemma {:induction false} VersionsList(reg: Registry, u: set<Project>, s: State, p: Project)
    requires Closed(reg, u) && s.resolving <= u && p in u && CacheLists(reg, s.cache)
    ensures var (s', found) := Versions(reg, u, s, p);
            CacheLists(reg, s'.cache) && (found.Some? && found.value != [] ==> p in reg.releases && Lists(found.value, reg.releases[p]))
    decreases u - s.resolving, 0, 0
  {
    hide Lists;
    if p !in s.cache && p !in s.resolving && p in reg.releases {
      EntriesList(reg, u, s.(resolving := s.resolving + {p}), reg.releases[p]);
    }
  }

  lemma {:induction false} EntriesList(reg: Registry, u: set<Project>, s: State, vs: seq<Version>)
    requires Closed(reg, u) && s.resolving <= u && CacheLists(reg, s.cache) && forall v | v in vs :: Within(v.dependencies, u)
    ensures var (s', entries) := Entries(reg, u, s, vs); CacheLists(reg, s'.cache) && Lists(entries, vs)
    decreases u - s.resolving, 3, |vs|
  {
    hide CacheLists, Closed, Rows;
    if vs == [] {
      assert Downloadables(vs) == [];
    } else if !vs[0].downloadable {
      EntriesList(reg, u, s, vs[1..]);
      ListsStep(vs, false, Entries(reg, u, s, vs[1..]).1);
    } else {
      var (s1, rows) := Rows(reg, u, s, vs[0].dependencies);
      RowsList(reg, u, s, vs[0].dependencies);
      EntriesList(reg, u, s1, vs[1..]);
      ListsStep(vs, RequiredOk(vs[0].dependencies, rows), Entries(reg, u, s1, vs[1..]).1);
    }
  }

  lemma {:induction false} RowsList(reg: Registry, u: set<Project>, s: State, ds: seq<Dependency>)
    requires Closed(reg, u) && s.resolving <= u && Within(ds, u) && CacheLists(reg, s.cache)
    ensures CacheLists(reg, Rows(reg, u, s, ds).0.cache)
    decreases u - s.resolving, 2, |ds|
  {
    hide CacheLists, Closed;
    if ds != [] {
      RowLists(reg, u, s, ds[0]);
      RowsList(reg, u, Row(reg, u, s, ds[0]).0, ds[1..]);
    }
  }

  lemma {:induction false} RowLists(reg: Registry, u: set<Project>, s: State, d: Dependency)
    requires Closed(reg, u) && s.resolving <= u && d.project in u && CacheLists(reg, s.cache)
    ensures CacheLists(reg, Row(reg, u, s, d).0.cache)
    decreases u - s.resolving, 1, 0
  {
    hide CacheLists;
    if d.version == "" {
      if d.project != "" { VersionsList(reg, u, s, d.project); }
    } else if d.version in reg.pinned {
      var v := reg.pinned[d.version];
      var t := Target(d, v);
      if v.downloadable && t !in s.resolving { RowsList(reg, u, s.(resolving := s.resolving + {t}), v.dependencies); }
    }
  }

  /** An unpinned dependency resolves to the first compatible entry among the downloadable releases of its project, in the
      order of the answer, and to nothing exactly when there is none. */
  lemma {:induction false} UnpinnedTakesFirst(reg: Registry, u: set<Project>, s: State, d: Dependency)
    requires Closed(reg, u) && s.resolving <= u && d.project in u && CacheLists(reg, s.cache) && d.version == "" && d.project != ""
    ensures var row, found := Row(reg, u, s, d).1, Versions(reg, u, s, d.project).1;
            && (row.None? <==> found.None? || forall e | e in found.value :: !e.ok)
            && (row.Some? ==> found.Some? && d.project in reg.releases && Lists(found.value, reg.releases[d.project])
                              && exists k :: IsFirstOk(found.value, k, row.value))
  {
    VersionsList(reg, u, s, d.project);
    hide Closed, CacheLists, Lists;
  }

  /** A remembered answer is given again and changes nothing; a project in progress offers nothing; and an answer that was
      found is remembered. */
  lemma {:induction false} AnswersAreKept(reg: Registry, u: set<Project>, s: State, p: Project)
    requires Closed(reg, u) && s.resolving <= u && p in u
    ensures var (s', found) := Versions(reg, u, s, p);
            && (p in s.cache ==> s' == s && found == Some(s.cache[p]))
            && (p !in s.cache && p in s.resolving ==> s' == s && found == Some([]))
            && (p !in s.cache && p !in s.resolving && p in reg.releases ==> found.Some? && p in s'.cache && s'.cache[p] == found.value)
            && (p !in s.cache && p !in s.resolving && p !in reg.releases ==> found.None? && s'.cache == s.cache)
  {
    hide Closed, Entries;
  }

  /** A pin is accepted unchecked exactly when the project of the version, or of the dependency where the version names
      none, is in progress; otherwise it is accepted only when its own required dependencies resolve. */
  lemma {:induction false} PinIsChecked(reg: Registry, u: set<Project>, s: State, d: Dependency)
    requires Closed(reg, u) && s.resolving <= u && d.project in u && d.version in reg.pinned && d.version != ""
    ensures var (s', row), v := Row(reg, u, s, d), reg.pinned[d.version];
            && (row.Some? ==> row.value == v && v.downloadable)
            && ((if v.project == "" then d.project else v.project) in s.resolving ==>
                  (row.Some? <==> v.downloadable) && s'.unchecked == s.unchecked + if v.downloadable then [v] else [])
            && ((if v.project == "" then d.project else v.project) !in s.resolving && v.downloadable ==>
                  var inside := s.(resolving := s.resolving + {if v.project == "" then d.project else v.project});
                  var rows := Rows(reg, u, inside, v.dependencies).1;
                  row.Some? <==> forall i | 0 <= i < |rows| && rows[i].None? :: !v.dependencies[i].required)
  {
    hide Closed;
  }

  /** Every pinned version accepted unchecked between s and s' can in fact be installed. */
  ghost predicate PinsHold(reg: Registry, s: State, s': State)
    requires s.unchecked <= s'.unchecked
  {
    forall k | |s.unchecked| <= k < |s'.unchecked| :: Installable(reg, s'.unchecked[k])
  }

  lemma {:induction false} PinsHoldBoth(reg: Registry, s: State, s1: State, s2: State)
    requires s.unchecked <= s1.unchecked <= s2.unchecked && PinsHold(reg, s, s2)
    ensures PinsHold(reg, s, s1) && PinsHold(reg, s1, s2)
  {
    forall k | |s.unchecked| <= k < |s1.unchecked| ensures Installable(reg, s1.unchecked[k]) {
      assert s1.unchecked[k] == s2.unchecked[k];
    }
  }

  lemma {:induction false} NoNewPins(reg: Registry, s: State, s': State)
    requires s'.unchecked == s.unchecked
    ensures PinsHold(reg, s, s')
  {
  }

  ghost predicate CacheSound(reg: Registry, cache: map<Project, seq<Entry>>)
  {
    forall p | p in cache ::
      p in reg.releases && Lists(cache[p], reg.releases[p]) && forall e | e in cache[p] :: e.ok ==> Installable(reg, e.version)
  }

  ghost predicate Unpinned(ds: seq<Dependency>) { forall d | d in ds :: d.version == "" }

  ghost predicate NoPins(reg: Registry) { forall p, v | p in reg.releases && v in reg.releases[p] :: Unpinned(v.dependencies) }

  // ----- soundness: an accepted version is installable, cycles or not -----

  lemma {:induction false} VersionsSound(reg: Registry, u: set<Project>, s: State, p: Project)
    requires Closed(reg, u) && s.resolving <= u && p in u && CacheSound(reg, s.cache)
    ensures var (s', found) := Versions(reg, u, s, p);
            && (NoPins(reg) ==> s'.unchecked == s.unchecked)
            && (PinsHold(reg, s, s') ==>
              && CacheSound(reg, s'.cache)
              && (found.Some? ==> forall e | e in found.value :: e.ok ==> p in reg.releases && e.version in reg.releases[p] && Installable(reg, e.version)))
    decreases u - s.resolving, 0, 0
  {
    if p in s.cache {
      forall e | e in s.cache[p] ensures e.version in reg.releases[p] { ListedIsReleased(s.cache[p], reg.releases[p], e); }
    } else if p !in s.resolving && p in reg.releases {
      EntriesSound(reg, u, s.(resolving := s.resolving + {p}), reg.releases[p]);
      var (s', entries) := Entries(reg, u, s.(resolving := s.resolving + {p}), reg.releases[p]);
      forall e | e in entries ensures Lists(entries, reg.releases[p]) ==> e.version in reg.releases[p] {
        if Lists(entries, reg.releases[p]) { ListedIsReleased(entries, reg.releases[p], e); }
      }
    }
  }

  lemma {:induction false} ListedIsReleased(entries: seq<Entry>, vs: seq<Version>, e: Entry)
    requires Lists(entries, vs) && e in entries
    ensures e.version in vs && e.version.downloadable
  {
    var i :| 0 <= i < |entries| && entries[i] == e;
    assert e.version == Downloadables(vs)[i];
    InDownloadables(vs, e.version);
  }

  lemma {:induction false} EntriesSound(reg: Registry, u: set<Project>, s: State, vs: seq<Version>)
    requires Closed(reg, u) && s.resolving <= u && CacheSound(reg, s.cache)
    requires forall v | v in vs :: Within(v.dependencies, u)
    ensures var (s', entries) := Entries(reg, u, s, vs);
            && (NoPins(reg) && (forall v | v in vs :: Unpinned(v.dependencies)) ==> s'.unchecked == s.unchecked)
            && (PinsHold(reg, s, s') ==>
              && CacheSound(reg, s'.cache) && Lists(entries, vs)
              && forall e | e in entries :: e.ok ==> Installable(reg, e.version))
    decreases u - s.resolving, 3, |vs|
  {
    hide Installable, CacheSound, CacheComplete, NoPins, Closed, Acyclic, Above, AllAnswer, RowSound, PinsHold;
    if vs == [] {
      assert Lists([], vs) by { assert Downloadables(vs) == []; }
      return;
    }
    hide Lists, Downloadables, Rows;
    if !vs[0].downloadable {
      EntriesSound(reg, u, s, vs[1..]);
      var rest := Entries(reg, u, s, vs[1..]).1;
      if Lists(rest, vs[1..]) { ListsStep(vs, false, rest); }
      return;
    }
    var (s1, rows) := Rows(reg, u, s, vs[0].dependencies);
    RowsAreSound(reg, u, s, vs[0].dependencies);
    var (s2, rest) := Entries(reg, u, s1, vs[1..]);
    if s1.unchecked == s.unchecked { NoNewPins(reg, s, s1); }
    if PinsHold(reg, s, s2) { PinsHoldBoth(reg, s, s1, s2); }
    if PinsHold(reg, s, s1) { EntriesSound(reg, u, s1, vs[1..]); }
    if PinsHold(reg, s, s2) {
      var ok := RequiredOk(vs[0].dependencies, rows);
      if ok { RowsMakeInstallable(reg, vs[0], rows); }
      ListsStep(vs, ok, rest);
    }
  }

  lemma {:induction false} RowsAreSound(reg: Registry, u: set<Project>, s: State, ds: seq<Dependency>)
    requires Closed(reg, u) && s.resolving <= u && Within(ds, u) && CacheSound(reg, s.cache)
    ensures var (s', rows) := Rows(reg, u, s, ds);
            && (NoPins(reg) && Unpinned(ds) ==> s'.unchecked == s.unchecked)
            && (PinsHold(reg, s, s') ==> CacheSound(reg, s'.cache) && RowsSound(reg, ds, rows))
    decreases u - s.resolving, 2, |ds|
  {
    hide PinsHold, Installable, CacheSound, NoPins, Closed;
    if ds != [] {
      var (s1, row) := Row(reg, u, s, ds[0]);
      RowIsSound(reg, u, s, ds[0]);
      var s2 := Rows(reg, u, s1, ds[1..]).0;
      if s1.unchecked == s.unchecked { NoNewPins(reg, s, s1); }
      if PinsHold(reg, s, s2) { PinsHoldBoth(reg, s, s1, s2); }
      if PinsHold(reg, s, s1) { RowsAreSound(reg, u, s1, ds[1..]); }
    }
  }

  lemma {:induction false} RowIsSound(reg: Registry, u: set<Project>, s: State, d: Dependency)
    requires Closed(reg, u) && s.resolving <= u && d.project in u && CacheSound(reg, s.cache)
    ensures var (s', row) := Row(reg, u, s, d);
            && (NoPins(reg) && d.version == "" ==> s'.unchecked == s.unchecked)
            && (PinsHold(reg, s, s') ==> CacheSound(reg, s'.cache) && RowSound(reg, d, row))
    decreases u - s.resolving, 1, 0
  {
    if d.version != "" {
      if d.version in reg.pinned {
        var v := reg.pinned[d.version];
        var t := Target(d, v);
        if v.downloadable && t !in s.resolving {
          var entered := s.(resolving := s.resolving + {t});
          RowsAreSound(reg, u, entered, v.dependencies);
          var (s', rows) := Rows(reg, u, entered, v.dependencies);
          if PinsHold(reg, s, s') && RequiredOk(v.dependencies, rows) { RowsMakeInstallable(reg, v, rows); }
        } else if v.downloadable {
          assert (s.unchecked + [v])[|s.unchecked|] == v;
        }
      }
    } else if d.project != "" {
      VersionsSound(reg, u, s, d.project);
    }
  }

  /** The row of a pinned dependency is that pinned version or nothing. */
  lemma {:induction false} PinnedRows(reg: Registry, u: set<Project>, s: State, ds: seq<Dependency>, i: nat)
    requires Closed(reg, u) && s.resolving <= u && Within(ds, u) && i < |ds| && ds[i].version != ""
    ensures var row := Rows(reg, u, s, ds).1[i]; row.Some? ==> ds[i].version in reg.pinned && row.value == reg.pinned[ds[i].version]
    decreases |ds|
  {
    hide Closed;
    if i > 0 { PinnedRows(reg, u, Row(reg, u, s, ds[0]).0, ds[1..], i - 1); }
  }

  /** The converse of soundness, where a version's required dependencies all resolve: with its unpinned ones rightly
      resolved, it is installable exactly when every pinned version its required rows accepted is. */
  lemma {:induction false} InstallableExactlyWhenPinsAre(reg: Registry, u: set<Project>, s: State, v: Version)
    requires Closed(reg, u) && s.resolving <= u && Within(v.dependencies, u) && v.downloadable
    requires RequiredOk(v.dependencies, Rows(reg, u, s, v.dependencies).1)
    requires var rows := Rows(reg, u, s, v.dependencies).1;
             forall i | 0 <= i < |rows| && v.dependencies[i].required && v.dependencies[i].version == "" ::
               RowSound(reg, v.dependencies[i], rows[i])
    ensures var ds, rows := v.dependencies, Rows(reg, u, s, v.dependencies).1;
            Installable(reg, v) <==>
              forall i | 0 <= i < |ds| && ds[i].required && ds[i].version != "" :: rows[i].Some? && Installable(reg, rows[i].value)
  {
    var ds, rows := v.dependencies, Rows(reg, u, s, v.dependencies).1;
    forall i | 0 <= i < |ds| && ds[i].required && ds[i].version != ""
      ensures rows[i].Some? && Serves(reg, ds[i], rows[i].value) && (Installable(reg, v) ==> Installable(reg, rows[i].value))
    {
      PinnedRows(reg, u, s, ds, i);
      if Installable(reg, v) {
        InstallableNeeds(reg, v);
        assert Met(reg, ds[i]);
      }
    }
    if forall i | 0 <= i < |ds| && ds[i].required && ds[i].version != "" :: rows[i].Some? && Installable(reg, rows[i].value) {
      RowsMakeInstallable(reg, v, rows);
    }
  }

  // ----- completeness: on acyclic graphs nothing installable is refused -----

  ghost predicate Ranked(reg: Registry, rank: Project -> nat, d: Dependency, bound: nat)
  {
    if d.version != "" then d.version in reg.pinned ==> rank(Target(d, reg.pinned[d.version])) < bound
    else d.project != "" ==> rank(d.project) < bound
  }

  ghost predicate RankedAll(reg: Registry, rank: Project -> nat, ds: seq<Dependency>, bound: nat)
  {
    forall d | d in ds :: Ranked(reg, rank, d, bound)
  }

  /** Every dependency points strictly down. A pinned version must name its project for this. */
  ghost predicate Acyclic(reg: Registry, rank: Project -> nat)
  {
    && (forall p, v | p in reg.releases && v in reg.releases[p] :: RankedAll(reg, rank, v.dependencies, rank(p)))
    && (forall id | id in reg.pinned ::
          reg.pinned[id].project != "" && RankedAll(reg, rank, reg.pinned[id].dependencies, rank(reg.pinned[id].project)))
  }

  /** Whatever is in progress is not below the bound, or its request has failed. */
  ghost predicate Above(reg: Registry, rank: Project -> nat, resolving: set<Project>, bound: nat)
  {
    forall q | q in resolving :: rank(q) >= bound || q !in reg.releases
  }

  /** Every project anyone names can be fetched. */
  ghost predicate AllAnswer(reg: Registry, u: set<Project>) { forall q | q in u && q != "" :: q in reg.releases }

  ghost predicate CacheComplete(reg: Registry, cache: map<Project, seq<Entry>>)
  {
    forall p | p in cache ::
      p in reg.releases && Lists(cache[p], reg.releases[p]) && forall e | e in cache[p] :: Installable(reg, e.version) ==> e.ok
  }

  ghost predicate Met(reg: Registry, d: Dependency) { exists v :: Serves(reg, d, v) && Installable(reg, v) }

  lemma {:induction false} InstallableNeeds(reg: Registry, v: Version)
    requires Installable(reg, v)
    ensures v.downloadable && forall d | d in v.dependencies && d.required :: Met(reg, d)
  {
    var n: nat :| InstallableIn(reg, v, n);
    forall d | d in v.dependencies && d.required ensures Met(reg, d) {
      assert MetIn(reg, d, n - 1);
      var w :| Serves(reg, d, w) && InstallableIn(reg, w, n - 1);
      assert Installable(reg, w);
    }
  }

  lemma {:induction false} VersionsComplete(reg: Registry, u: set<Project>, s: State, p: Project, rank: Project -> nat)
    requires Closed(reg, u) && s.resolving <= u && p in u && CacheComplete(reg, s.cache)
    requires Acyclic(reg, rank) && Above(reg, rank, s.resolving, rank(p) + 1)
    ensures var (s', found) := Versions(reg, u, s, p);
            && CacheComplete(reg, s'.cache) && (AllAnswer(reg, u) ==> s'.unchecked == s.unchecked)
            && (p in reg.releases ==>
                  && found.Some? && Lists(found.value, reg.releases[p])
                  && forall e | e in found.value :: Installable(reg, e.version) ==> e.ok)
    decreases u - s.resolving, 0, 0
  {
    if p !in s.cache && p !in s.resolving && p in reg.releases {
      EntriesComplete(reg, u, s.(resolving := s.resolving + {p}), reg.releases[p], rank, rank(p));
    }
  }

  lemma {:induction false} EntriesComplete(reg: Registry, u: set<Project>, s: State, vs: seq<Version>, rank: Project -> nat, bound: nat)
    requires Closed(reg, u) && s.resolving <= u && CacheComplete(reg, s.cache)
    requires forall v | v in vs :: Within(v.dependencies, u) && RankedAll(reg, rank, v.dependencies, bound)
    requires Acyclic(reg, rank) && Above(reg, rank, s.resolving, bound)
    ensures var (s', entries) := Entries(reg, u, s, vs);
            && CacheComplete(reg, s'.cache) && Lists(entries, vs) && (AllAnswer(reg, u) ==> s'.unchecked == s.unchecked)
            && forall e | e in entries :: Installable(reg, e.version) ==> e.ok
    decreases u - s.resolving, 3, |vs|
  {
    hide Installable, CacheSound, CacheComplete, RowsSound, NoPins, Closed, Acyclic, Above, AllAnswer, RowSound;
    if vs == [] {
      assert Lists([], vs) by { assert Downloadables(vs) == []; }
      return;
    }
    hide Lists, Downloadables, Rows, Met;
    if !vs[0].downloadable {
      EntriesComplete(reg, u, s, vs[1..], rank, bound);
      ListsStep(vs, false, Entries(reg, u, s, vs[1..]).1);
      return;
    }
    var (s1, rows) := Rows(reg, u, s, vs[0].dependencies);
    RowsComplete(reg, u, s, vs[0].dependencies, rank, bound);
    var ok := RequiredOk(vs[0].dependencies, rows);
    if Installable(reg, vs[0]) {
      InstallableNeeds(reg, vs[0]);
      assert ok;
    }
    StillAbove(reg, u, rank, s, s1, bound);
    EntriesComplete(reg, u, s1, vs[1..], rank, bound);
    ListsStep(vs, ok, Entries(reg, u, s1, vs[1..]).1);
  }

  lemma {:induction false} StillAbove(reg: Registry, u: set<Project>, rank: Project -> nat, s: State, s': State, bound: nat)
    requires Follows(reg, u, s, s') && Above(reg, rank, s.resolving, bound)
    ensures Above(reg, rank, s'.resolving, bound)
  {
  }

  lemma {:induction false} RowsComplete(reg: Registry, u: set<Project>, s: State, ds: seq<Dependency>, rank: Project -> nat, bound: nat)
    requires Closed(reg, u) && s.resolving <= u && Within(ds, u) && CacheComplete(reg, s.cache)
    requires Acyclic(reg, rank) && RankedAll(reg, rank, ds, bound) && Above(reg, rank, s.resolving, bound)
    ensures var (s', rows) := Rows(reg, u, s, ds);
            && CacheComplete(reg, s'.cache) && (AllAnswer(reg, u) ==> s'.unchecked == s.unchecked)
            && forall i | 0 <= i < |ds| :: Met(reg, ds[i]) ==> rows[i].Some?
    decreases u - s.resolving, 2, |ds|
  {
    if ds != [] {
      hide Closed, CacheComplete, Acyclic, AllAnswer, Met, Row;
      var (s1, row) := Row(reg, u, s, ds[0]);
      RowComplete(reg, u, s, ds[0], rank, bound);
      RowsComplete(reg, u, s1, ds[1..], rank, bound);
    }
  }

  lemma {:induction false} RowComplete(reg: Registry, u: set<Project>, s: State, d: Dependency, rank: Project -> nat, bound: nat)
    requires Closed(reg, u) && s.resolving <= u && d.project in u && CacheComplete(reg, s.cache)
    requires Acyclic(reg, rank) && Ranked(reg, rank, d, bound) && Above(reg, rank, s.resolving, bound)
    ensures var (s', row) := Row(reg, u, s, d);
            && CacheComplete(reg, s'.cache) && (AllAnswer(reg, u) ==> s'.unchecked == s.unchecked)
            && (Met(reg, d) ==> row.Some?)
    decreases u - s.resolving, 1, 0
  {
    if d.version != "" {
      if d.version in reg.pinned {
        var v := reg.pinned[d.version];
        var t := Target(d, v);
        if v.downloadable && t !in s.resolving {
          RowsComplete(reg, u, s.(resolving := s.resolving + {t}), v.dependencies, rank, rank(t));
        }
        if Met(reg, d) { InstallableNeeds(reg, v); }
      }
    } else if d.project != "" {
      VersionsComplete(reg, u, s, d.project, rank);
      if Met(reg, d) {
        var w :| Serves(reg, d, w) && Installable(reg, w);
        InstallableNeeds(reg, w);
        InDownloadables(reg.releases[d.project], w);
        var i :| 0 <= i < |Downloadables(reg.releases[d.project])| && Downloadables(reg.releases[d.project])[i] == w;
        var found := Versions(reg, u, s, d.project).1.value;
        assert found[i] in found && found[i].version == w;
      }
    }
  }

  /** On an acyclic graph, starting from any valid cache, the answer is exact, if every request is answered or the pins
      accepted unchecked meanwhile hold. */
  lemma {:induction false} AcyclicIsExact(reg: Registry, u: set<Project>, s: State, p: Project, rank: Project -> nat)
    requires Closed(reg, u) && s.resolving <= u && p in u && CacheSound(reg, s.cache) && CacheComplete(reg, s.cache)
    requires Acyclic(reg, rank) && Above(reg, rank, s.resolving, rank(p) + 1)
    ensures var (s', found) := Versions(reg, u, s, p);
            && (AllAnswer(reg, u) ==> s'.unchecked == s.unchecked)
            && (p in reg.releases && (AllAnswer(reg, u) || PinsHold(reg, s, s')) ==>
              && found.Some? && Lists(found.value, reg.releases[p])
              && (forall e | e in found.value :: e.ok <==> Installable(reg, e.version))
              && CacheSound(reg, s'.cache) && CacheComplete(reg, s'.cache))
  {
    VersionsSound(reg, u, s, p);
    VersionsComplete(reg, u, s, p, rank);
    var s' := Versions(reg, u, s, p).0;
    if s'.unchecked == s.unchecked { NoNewPins(reg, s, s'); }
  }

  // ----- where the in-progress shortcut goes wrong -----

  lemma {:induction false} UnmetIsFatal(reg: Registry, v: Version, d: Dependency)
    requires v.dependencies == [d] && d.required && !Met(reg, d)
    ensures !Installable(reg, v)
  {
    assert d in v.dependencies;
    if Installable(reg, v) { InstallableNeeds(reg, v); }
  }

  lemma {:induction false} RowsFrom(reg: Registry, u: set<Project>, s: State, ds: seq<Dependency>, k: nat)
    requires Closed(reg, u) && s.resolving <= u && Within(ds, u) && k < |ds|
    ensures Rows(reg, u, s, ds[k..]).0 == Rows(reg, u, Row(reg, u, s, ds[k]).0, ds[k + 1..]).0
    ensures Rows(reg, u, s, ds[k..]).1 == [Row(reg, u, s, ds[k]).1] + Rows(reg, u, Row(reg, u, s, ds[k]).0, ds[k + 1..]).1
  {
    assert ds[k..][1..] == ds[k + 1..] && ds[k] in ds;
  }

  lemma {:induction false} OneRow(reg: Registry, u: set<Project>, s: State, d: Dependency)
    requires Closed(reg, u) && s.resolving <= u && d.project in u
    ensures var (s', row) := Row(reg, u, s, d); Rows(reg, u, s, [d]).0 == s' && Rows(reg, u, s, [d]).1 == [row]
  {
    assert [d][1..] == [];
  }

  lemma {:induction false} OneEntry(reg: Registry, u: set<Project>, s: State, v: Version)
    requires Closed(reg, u) && s.resolving <= u && Within(v.dependencies, u) && v.downloadable
    ensures var (s', rows) := Rows(reg, u, s, v.dependencies);
            && Entries(reg, u, s, [v]).0 == s'
            && Entries(reg, u, s, [v]).1 == [Entry(v, RequiredOk(v.dependencies, rows))]
  {
    assert [v][1..] == [];
  }

  const NEEDS_Z := Dependency(true, "Z", "")
  const NEEDS_A2 := Dependency(true, "A", "a2")
  const NEEDS_B1 := Dependency(true, "B", "b1")
  const A2 := Version("a2", "A", true, [NEEDS_Z])
  const B1 := Version("b1", "B", true, [NEEDS_A2])
  const A1 := Version("a1", "A", true, [NEEDS_B1])
  const PIN_CYCLE := Registry(map["A" := [A1]], map["a2" := A2, "b1" := B1])

  /** A pinned version of a project in progress is accepted without looking at its dependencies:
      A is reported installable although it needs, through pins only, a project that does not exist. */
  lemma {:induction false} PinIntoCycleIsUnchecked(u: set<Project>, s: State)
    requires u == {"A", "B", "Z"} && s == State({}, map[], [], 0)
    ensures Closed(PIN_CYCLE, u) && !Installable(PIN_CYCLE, A1)
    ensures Versions(PIN_CYCLE, u, s, "A").1 == Some([Entry(A1, true)])
    ensures Versions(PIN_CYCLE, u, s, "A").0.unchecked == [A2]
  {
    PinCycleFacts(u);
    var s1, s2 := State({"A"}, map[], [], 0), State({"A", "B"}, map[], [], 0);
    OneRow(PIN_CYCLE, u, s2, NEEDS_A2);
    assert s1.resolving + {"B"} == s2.resolving && s2.resolving - {"B"} == s1.resolving;
    assert s2.unchecked + [A2] == [A2];
    assert Row(PIN_CYCLE, u, s1, NEEDS_B1) == (s1.(unchecked := [A2]), Some(B1));
    OneRow(PIN_CYCLE, u, s1, NEEDS_B1);
    OneEntry(PIN_CYCLE, u, s1, A1);
    assert s.resolving + {"A"} == s1.resolving;
  }

  lemma {:induction false} PinCycleFacts(u: set<Project>)
    requires u == {"A", "B", "Z"}
    ensures Closed(PIN_CYCLE, u) && !Installable(PIN_CYCLE, A1)
  {
    UnmetIsFatal(PIN_CYCLE, A2, NEEDS_Z);
    UnmetIsFatal(PIN_CYCLE, B1, NEEDS_A2);
    UnmetIsFatal(PIN_CYCLE, A1, NEEDS_B1);
  }

  // ----- the in-progress set -----

  lemma {:induction false} VersionsAnswered(reg: Registry, u: set<Project>, s: State, p: Project)
    requires Closed(reg, u) && s.resolving <= u && p in u && p != "" && AllAnswer(reg, u)
    ensures Versions(reg, u, s, p).0.failures == s.failures
    decreases u - s.resolving, 0, 0
  {
    if p !in s.cache && p !in s.resolving { EntriesAnswered(reg, u, s.(resolving := s.resolving + {p}), reg.releases[p]); }
  }

  lemma {:induction false} EntriesAnswered(reg: Registry, u: set<Project>, s: State, vs: seq<Version>)
    requires Closed(reg, u) && s.resolving <= u && AllAnswer(reg, u) && forall v | v in vs :: Within(v.dependencies, u)
    ensures Entries(reg, u, s, vs).0.failures == s.failures
    decreases u - s.resolving, 3, |vs|
  {
    hide Closed, AllAnswer;
    if vs == [] {
    } else if !vs[0].downloadable {
      EntriesAnswered(reg, u, s, vs[1..]);
    } else {
      RowsAnswered(reg, u, s, vs[0].dependencies);
      EntriesAnswered(reg, u, Rows(reg, u, s, vs[0].dependencies).0, vs[1..]);
    }
  }

  lemma {:induction false} RowsAnswered(reg: Registry, u: set<Project>, s: State, ds: seq<Dependency>)
    requires Closed(reg, u) && s.resolving <= u && Within(ds, u) && AllAnswer(reg, u)
    ensures Rows(reg, u, s, ds).0.failures == s.failures
    decreases u - s.resolving, 2, |ds|
  {
    hide Closed, AllAnswer;
    if ds != [] {
      RowAnswered(reg, u, s, ds[0]);
      RowsAnswered(reg, u, Row(reg, u, s, ds[0]).0, ds[1..]);
    }
  }

  lemma {:induction false} RowAnswered(reg: Registry, u: set<Project>, s: State, d: Dependency)
    requires Closed(reg, u) && s.resolving <= u && d.project in u && AllAnswer(reg, u)
    ensures Row(reg, u, s, d).0.failures == s.failures
    decreases u - s.resolving, 1, 0
  {
    if d.version == "" && d.project != "" {
      VersionsAnswered(reg, u, s, d.project);
    } else if d.version in reg.pinned {
      var v := reg.pinned[d.version];
      var t := Target(d, v);
      if v.downloadable && t !in s.resolving { RowsAnswered(reg, u, s.(resolving := s.resolving + {t}), v.dependencies); }
    }
  }

  /** The in-progress set is restored exactly when no project request failed, at any depth; each one left behind is a
      project whose request failed. When every project named can be fetched, none is left behind. */
  lemma {:induction false} RestoredUnlessFailed(reg: Registry, u: set<Project>, s: State, p: Project)
    requires Closed(reg, u) && s.resolving <= u && p in u
    ensures var s' := Versions(reg, u, s, p).0;
            && (s'.resolving == s.resolving <==> s'.failures == s.failures)
            && (forall q | q in s'.resolving - s.resolving :: q !in reg.releases)
            && (AllAnswer(reg, u) && p != "" ==> s'.resolving == s.resolving)
            && (p !in s.cache && p !in s.resolving && p !in reg.releases ==> s'.resolving == s.resolving + {p})
  {
    if AllAnswer(reg, u) && p != "" { VersionsAnswered(reg, u, s, p); }
  }

  // ----- the search as it runs -----

  /** The search over one shared in-progress set and one shared memo table. */
  class Resolver {
    const reg: Registry
    ghost const universe: set<Project>
    var resolving: set<Project>
    var cache: map<Project, seq<Entry>>
    ghost var unchecked: seq<Version>
    ghost var failures: nat

    constructor (reg: Registry, ghost universe: set<Project>)
      ensures this.reg == reg && this.universe == universe
      ensures Now() == State({}, map[], [], 0)
    {
      this.reg, this.universe := reg, universe;
      resolving, cache, unchecked, failures := {}, map[], [], 0;
    }

    ghost function Now(): State
      reads this
    {
      State(resolving, cache, unchecked, failures)
    }

    method CompatibleVersions(p: Project) returns (found: Option<seq<Entry>>)
      requires Closed(reg, universe) && resolving <= universe && p in universe
      modifies this
      ensures Now() == Versions(reg, universe, old(Now()), p).0 && found == Versions(reg, universe, old(Now()), p).1
      decreases universe - resolving, 0, 0
    {
      if p in cache { return Some(cache[p]); }
      if p in resolving { return Some([]); }
      resolving := resolving + {p};
      if p !in reg.releases {
        failures := failures + 1;
        return None;
      }
      var raw := reg.releases[p];
      var compatible: seq<Entry> := [];
      ghost var entered := Now();
      assert raw[0..] == raw;
      for k := 0 to |raw|
        invariant resolving <= universe && entered.resolving <= resolving
        invariant Entries(reg, universe, entered, raw).0 == Entries(reg, universe, Now(), raw[k..]).0
        invariant Entries(reg, universe, entered, raw).1 == compatible + Entries(reg, universe, Now(), raw[k..]).1
      {
        assert raw[k] in raw && raw[k..][1..] == raw[k + 1..];
        if !raw[k].downloadable { continue; }
        var rows := ResolveDependencies(raw[k].dependencies);
        compatible := compatible + [Entry(raw[k], RequiredOk(raw[k].dependencies, rows))];
      }
      assert raw[|raw|..] == [] && Entries(reg, universe, entered, raw).1 == compatible;
      resolving := resolving - {p};
      cache := cache[p := compatible];
      return Some(compatible);
    }

    method ResolveDependencies(ds: seq<Dependency>) returns (rows: seq<Option<Version>>)
      requires Closed(reg, universe) && resolving <= universe && Within(ds, universe)
      modifies this
      ensures Now() == Rows(reg, universe, old(Now()), ds).0 && rows == Rows(reg, universe, old(Now()), ds).1
      decreases universe - resolving, 2, 0
    {
      rows := [];
      ghost var entered := Now();
      assert ds[0..] == ds && Rows(reg, universe, entered, []).1 == [];
      hide Row, Closed;
      for k := 0 to |ds|
        invariant resolving <= universe && entered.resolving <= resolving
        invariant Rows(reg, universe, entered, ds).0 == Rows(reg, universe, Now(), ds[k..]).0
        invariant Rows(reg, universe, entered, ds).1 == rows + Rows(reg, universe, Now(), ds[k..]).1
      {
        assert ds[k] in ds;
        RowsFrom(reg, universe, Now(), ds, k);
        var row := ResolveOne(ds[k]);
        rows := rows + [row];
      }
      assert ds[|ds|..] == [];
    }

    method ResolveOne(d: Dependency) returns (row: Option<Version>)
      requires Closed(reg, universe) && resolving <= universe && d.project in universe
      modifies this
      ensures Now() == Row(reg, universe, old(Now()), d).0 && row == Row(reg, universe, old(Now()), d).1
      decreases universe - resolving, 1, 0
    {
      row := None;
      if d.version != "" {
        if d.version !in reg.pinned { return; }
        var v := reg.pinned[d.version];
        var t := Target(d, v);
        if !v.downloadable { return; }
        if t in resolving {
          unchecked := unchecked + [v];
          return Some(v);
        }
        resolving := resolving + {t};
        var nested := ResolveDependencies(v.dependencies);
        resolving := resolving - {t};
        if RequiredOk(v.dependencies, nested) { row := Some(v); }
      } else if d.project != "" {
        var found := CompatibleVersions(d.project);
        if found.Some? { row := FirstOk(found.value); }
      }
    }
  }

  /** The test made before anything is downloaded: the version is the project's, a usable file, and its required
      dependencies resolve with the project itself in progress. */
  ghost predicate Permitted(reg: Registry, u: set<Project>, project: Project, id: VersionId)
    requires Closed(reg, u) && project in u
  {
    && id in reg.pinned && reg.pinned[id].project == project && reg.pinned[id].downloadable
    && RequiredOk(reg.pinned[id].dependencies, Rows(reg, u, State({project}, map[], [], 0), reg.pinned[id].dependencies).1)
  }

  /** When the pins accepted unchecked hold, what is permitted is installable; on an acyclic graph whose requests are all
      answered, exactly the installable versions of the project are permitted. */
  lemma {:induction false} PermittedIsInstallable(reg: Registry, u: set<Project>, project: Project, id: VersionId, rank: Project -> nat)
    requires Closed(reg, u) && project in u && id in reg.pinned && reg.pinned[id].project == project
    ensures var s := State({project}, map[], [], 0);
            PinsHold(reg, s, Rows(reg, u, s, reg.pinned[id].dependencies).0) && Permitted(reg, u, project, id) ==>
              Installable(reg, reg.pinned[id])
    ensures Acyclic(reg, rank) && AllAnswer(reg, u) ==>
              (Permitted(reg, u, project, id) <==> Installable(reg, reg.pinned[id]))
  {
    var v, s := reg.pinned[id], State({project}, map[], [], 0);
    var (s', rows) := Rows(reg, u, s, v.dependencies);
    RowsAreSound(reg, u, s, v.dependencies);
    if PinsHold(reg, s, s') && Permitted(reg, u, project, id) { RowsMakeInstallable(reg, v, rows); }
    if Acyclic(reg, rank) && AllAnswer(reg, u) {
      RowsComplete(reg, u, s, v.dependencies, rank, rank(project));
      if Installable(reg, v) { InstallableNeeds(reg, v); }
    }
  }

  method MayDownload(reg: Registry, ghost universe: set<Project>, project: Project, id: VersionId) returns (ok: bool)
    requires Closed(reg, universe) && project in universe
    ensures ok <==> Permitted(reg, universe, project, id)
    ensures ok ==> id in reg.pinned && reg.pinned[id].project == project && reg.pinned[id].downloadable
  {
    if id !in reg.pinned || reg.pinned[id].project != project || !reg.pinned[id].downloadable { return false; }
    var v := reg.pinned[id];
    var resolver := new Resolver(reg, universe);
    resolver.resolving := {project};
    var rows := resolver.ResolveDependencies(v.dependencies);
    return RequiredOk(v.dependencies, rows);
  }
}
