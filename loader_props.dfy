/**
 * What the loader of loader.py promises, stated over the functions `Classify`, `FindSpec`
 * and `Exec` (which the method `Module.ExecModule` is proved to follow).
 */
module LoaderProperties {
  import opened Wrappers
  import opened PyStrings
  import opened PackageStore
  import opened Loader

  // ---------------------------------------------------------------------------
  // The finder

  /** "t4" anywhere in the name is enough: the finder tests containment, not a prefix. */
  lemma FindSpecAcceptsMarkerAnywhere(before: string, after: string)
    ensures FindSpec(before + Marker + after) == Some(ModuleSpec(before + Marker + after, DataPackageLoader))
  {
    var name := before + Marker + after;
    assert name[|before|..|before| + |Marker|] == Marker;
    assert OccursAt(name, Marker, |before|);
  }

  // ---------------------------------------------------------------------------
  // Classification

  /** A segment of a dotted name. */
  predicate Segment(s: string)
  {
    '.' !in s
  }

  /** The root's name has two segments, so no three-segment or longer name is the root. */
  lemma RootHasTwoSegments()
    ensures Split(RootName, '.') == ["t4", "data"]
  {
    assert RootName == "t4" + ['.'] + "data";
    SplitPrefix("t4", '.', "data");
    SplitFree("data", '.');
  }

  /** Any three segments make a namespace name for the third: the first two are not looked at. */
  lemma ClassifyNamespace(first: string, second: string, namespace: string)
    requires Segment(first) && Segment(second) && Segment(namespace)
    ensures Classify(Join([first, second, namespace], '.')) == NamespaceCase(namespace)
  {
    SplitJoin([first, second, namespace], '.');
    RootHasTwoSegments();
  }

  /** Any four or more segments make a sub-package name: owner, slug, then the sub-path. */
  lemma ClassifySubpackage(parts: seq<string>)
    requires |parts| >= 4 && forall i :: 0 <= i < |parts| ==> Segment(parts[i])
    ensures Classify(Join(parts, '.')) == SubpackageCase(parts[2], parts[3], parts[4..])
  {
    var name := Join(parts, '.');
    SplitJoin(parts, '.');
    RootHasTwoSegments();
    assert name != RootName by {
      assert |Split(name, '.')| != |Split(RootName, '.')|;
    }
  }

  /** Conversely, a name classified as a namespace is three segments joined by dots, the
      last being the namespace. */
  lemma NamespaceNameShape(name: string, namespace: string)
    requires Classify(name) == NamespaceCase(namespace)
    ensures exists first, second ::
      Segment(first) && Segment(second) && Segment(namespace) && name == Join([first, second, namespace], '.')
  {
    var parts := Split(name, '.');
    JoinSplit(name, '.');
    SplitPiecesFree(name, '.');
    assert parts == [parts[0], parts[1], namespace];
    assert Segment(parts[0]) && Segment(parts[1]) && Segment(parts[2]);
  }

  /** Conversely, a name classified as a sub-package has as segments two leading ones, then
      the owner, the slug and the sub-path, none of them holding a dot. */
  lemma SubpackageSegments(name: string, namespace: string, slug: string, subpath: seq<string>)
    requires Classify(name) == SubpackageCase(namespace, slug, subpath)
    ensures var parts := Split(name, '.');
      && parts == parts[..2] + [namespace, slug] + subpath
      && forall i :: 0 <= i < |parts| ==> Segment(parts[i])
  {
    var parts := Split(name, '.');
    assert |parts| >= 4 && parts[2] == namespace && parts[3] == slug && parts[4..] == subpath;
    SplitPiecesFree(name, '.');
    assert parts == parts[..2] + [namespace, slug] + subpath;
  }

  // ---------------------------------------------------------------------------
  // Bindings made by the namespace case

  /** Some entry of the listing names `<namespace>/<slug>`. */
  ghost predicate Listed(entries: seq<string>, namespace: string, slug: string)
  {
    exists i :: 0 <= i < |entries| && Matches(entries[i], namespace, slug)
  }

  /** Entry `i` is the last one naming `<namespace>/<slug>`. */
  predicate LastMatch(entries: seq<string>, namespace: string, slug: string, i: int)
  {
    && 0 <= i < |entries|
    && Matches(entries[i], namespace, slug)
    && forall j :: i < j < |entries| ==> !Matches(entries[j], namespace, slug)
  }

  /** No entry of `entries` raises. */
  predicate Handled(entries: seq<string>, namespace: string, store: Store)
  {
    forall i :: 0 <= i < |entries| ==> EntryError(entries[i], namespace, store).None?
  }

  lemma MatchesSplit(entry: string, namespace: string, slug: string)
    ensures var parts := Split(entry, '/');
      Matches(entry, namespace, slug) <==> |parts| == 2 && parts[0] == namespace && parts[1] == slug
  {
    var parts := Split(entry, '/');
    if |parts| == 2 && parts[0] == namespace && parts[1] == slug {
      assert parts == [namespace, slug];
    }
  }

  /** The slugs bound are exactly those of the listed packages of the namespace. */
  lemma {:induction false} BindingsKeys(entries: seq<string>, namespace: string, store: Store, slug: string)
    requires Handled(entries, namespace, store)
    ensures slug in Bindings(entries, namespace, store) <==> Listed(entries, namespace, slug)
    decreases |entries|
  {
    if entries != [] {
      var init := entries[..|entries| - 1];
      var last := entries[|entries| - 1];
      assert Handled(init, namespace, store) by {
        forall i | 0 <= i < |init| ensures EntryError(init[i], namespace, store).None? {
          assert init[i] == entries[i];
        }
      }
      BindingsKeys(init, namespace, store, slug);
      MatchesSplit(last, namespace, slug);
      assert EntryError(last, namespace, store).None?;
      if Listed(init, namespace, slug) {
        var i :| 0 <= i < |init| && Matches(init[i], namespace, slug);
        assert entries[i] == init[i];
      }
      if Listed(entries, namespace, slug) && !Matches(last, namespace, slug) {
        var i :| 0 <= i < |entries| && Matches(entries[i], namespace, slug);
        assert i < |init| && init[i] == entries[i];
      }
    }
  }

  /** A slug listed more than once is bound to the package of its last entry. */
  lemma {:induction false} BindingsLastWins(entries: seq<string>, namespace: string, store: Store, slug: string, i: int)
    requires Handled(entries, namespace, store)
    requires LastMatch(entries, namespace, slug, i)
    ensures slug in Bindings(entries, namespace, store)
    ensures Bindings(entries, namespace, store)[slug] == Package(store[entries[i]])
    decreases |entries|
  {
    var init := entries[..|entries| - 1];
    var last := entries[|entries| - 1];
    MatchesSplit(last, namespace, slug);
    MatchesSplit(entries[i], namespace, slug);
    assert EntryError(last, namespace, store).None?;
    assert EntryError(entries[i], namespace, store).None?;
    if i < |entries| - 1 {
      assert Handled(init, namespace, store) by {
        forall j | 0 <= j < |init| ensures EntryError(init[j], namespace, store).None? {
          assert init[j] == entries[j];
        }
      }
      assert LastMatch(init, namespace, slug, i) by {
        forall j | i < j < |init| ensures !Matches(init[j], namespace, slug) {
          assert init[j] == entries[j];
        }
      }
      BindingsLastWins(init, namespace, store, slug, i);
    }
  }

  // ---------------------------------------------------------------------------
  // exec_module

  /** The root is left with its dict as it was and `__path__` at the named-packages directory. */
  lemma ExecRoot(st: ModuleState, listing: seq<string>, store: Store)
    ensures Exec(RootName, st, listing, store) == Execution(ModuleState(st.dict, [NamedPackages]), Pass)
  {
  }

  /** A three-segment name whose listing raises nothing succeeds; afterwards the dict binds
      every listed slug of the namespace, to the package of its last entry, and keeps every
      other key as it was. */
  lemma ExecNamespaceBinds(name: string, namespace: string, st: ModuleState, listing: seq<string>, store: Store)
    requires |Split(name, '.')| == 3 && Split(name, '.')[2] == namespace
    requires Handled(listing, namespace, store)
    ensures var r := Exec(name, st, listing, store);
      && r.outcome == Pass
      && r.state.path == [NamedPackages]
      && (forall k :: k in r.state.dict <==> k in st.dict || Listed(listing, namespace, k))
      && (forall k, i :: LastMatch(listing, namespace, k, i) ==> r.state.dict[k] == Package(store[listing[i]]))
      && (forall k :: k in st.dict && !Listed(listing, namespace, k) ==> r.state.dict[k] == st.dict[k])
  {
    RootHasTwoSegments();
    ScanStopsAt(listing, namespace, store, |listing|);
    assert listing[..|listing|] == listing;
    forall k ensures k in Bindings(listing, namespace, store) <==> Listed(listing, namespace, k) {
      BindingsKeys(listing, namespace, store, k);
    }
    forall k, i | LastMatch(listing, namespace, k, i)
      ensures k in Bindings(listing, namespace, store) && Bindings(listing, namespace, store)[k] == Package(store[listing[i]])
    {
      BindingsLastWins(listing, namespace, store, k, i);
    }
  }

  /** A namespace no well-formed entry belongs to succeeds and changes only `__path__`. */
  lemma ExecNamespaceEmpty(name: string, namespace: string, st: ModuleState, listing: seq<string>, store: Store)
    requires |Split(name, '.')| == 3 && Split(name, '.')[2] == namespace
    requires forall i :: 0 <= i < |listing| ==> |Split(listing[i], '/')| == 2 && Split(listing[i], '/')[0] != namespace
    ensures Exec(name, st, listing, store) == Execution(ModuleState(st.dict, [NamedPackages]), Pass)
  {
    assert Handled(listing, namespace, store);
    ExecNamespaceBinds(name, namespace, st, listing, store);
    forall k ensures !Listed(listing, namespace, k) {
      forall i | 0 <= i < |listing| ensures !Matches(listing[i], namespace, k) {
        MatchesSplit(listing[i], namespace, k);
      }
    }
    var r := Exec(name, st, listing, store);
    assert r.state.dict == st.dict;
  }

  /** An entry that does not split into exactly owner and slug makes the namespace case
      raise, at that entry or an earlier one, and `__path__` is left as it was. */
  lemma ExecNamespaceMalformed(name: string, namespace: string, st: ModuleState, listing: seq<string>, store: Store, i: int)
    requires |Split(name, '.')| == 3 && Split(name, '.')[2] == namespace
    requires 0 <= i < |listing| && |Split(listing[i], '/')| != 2
    ensures var r := Exec(name, st, listing, store);
      && r.outcome.Fail?
      && r.state.path == st.path
      && exists j :: 0 <= j <= i && Some(r.outcome.error) == EntryError(listing[j], namespace, store)
  {
    RootHasTwoSegments();
    var n := ScanLength(listing, namespace, store);
    assert n <= i;
  }

  /** When entry `n` is the first to raise, the bindings made for the entries before it
      stay in the dict. */
  lemma ExecNamespaceKeepsEarlierBindings(name: string, namespace: string, st: ModuleState, listing: seq<string>, store: Store, n: int)
    requires |Split(name, '.')| == 3 && Split(name, '.')[2] == namespace
    requires 0 <= n < |listing| && Handled(listing[..n], namespace, store)
    requires EntryError(listing[n], namespace, store).Some?
    ensures var r := Exec(name, st, listing, store);
      && r == Execution(r.state, Fail(EntryError(listing[n], namespace, store).value))
      && r.state.path == st.path
      && forall k, j :: LastMatch(listing[..n], namespace, k, j) ==>
           k in r.state.dict && r.state.dict[k] == Package(store[listing[j]])
  {
    RootHasTwoSegments();
    forall j | 0 <= j < n ensures EntryError(listing[j], namespace, store).None? {
      assert listing[..n][j] == listing[j];
    }
    ScanStopsAt(listing, namespace, store, n);
    forall k, j | LastMatch(listing[..n], namespace, k, j)
      ensures k in Bindings(listing[..n], namespace, store)
      ensures Bindings(listing[..n], namespace, store)[k] == Package(store[listing[j]])
    {
      BindingsLastWins(listing[..n], namespace, store, k, j);
    }
  }

  /** A name of four or more segments whose package and sub-path exist ends up with every
      child of the final node bound by its key, every other key as it was, and `__path__`
      at the owner's directory. */
  lemma ExecSubpackage(name: string, st: ModuleState, listing: seq<string>, store: Store, children: map<string, Node>)
    requires var parts := Split(name, '.');
      && |parts| >= 4
      && parts[2] + "/" + parts[3] in store
      && Walk(store[parts[2] + "/" + parts[3]], parts[4..]) == Ok(Dir(children))
    ensures var r := Exec(name, st, listing, store);
      && r.outcome == Pass
      && r.state.path == [NamespaceDir(Split(name, '.')[2])]
      && (forall k :: k in children ==> k in r.state.dict && r.state.dict[k] == Package(children[k]))
      && (forall k :: k !in children ==> (k in r.state.dict <==> k in st.dict))
      && (forall k :: k !in children && k in st.dict ==> r.state.dict[k] == st.dict[k])
  {
    RootHasTwoSegments();
  }

  /** The sub-package case either succeeds or leaves the module exactly as it was: the walk
      happens before any update. */
  lemma ExecSubpackageFailsCleanly(name: string, st: ModuleState, listing: seq<string>, store: Store)
    requires |Split(name, '.')| >= 4
    ensures var r := Exec(name, st, listing, store);
      r.outcome.Fail? ==> r.state == st
    ensures var parts := Split(name, '.');
      Exec(name, st, listing, store).outcome.Pass? <==>
        && parts[2] + "/" + parts[3] in store
        && Walk(store[parts[2] + "/" + parts[3]], parts[4..]).Ok?
        && Walk(store[parts[2] + "/" + parts[3]], parts[4..]).value.Dir?
  {
    RootHasTwoSegments();
  }

  /** An unknown package identifier raises `UnknownPackage` for `<owner>/<slug>`. */
  lemma ExecUnknownPackage(name: string, st: ModuleState, listing: seq<string>, store: Store)
    requires var parts := Split(name, '.'); |parts| >= 4 && parts[2] + "/" + parts[3] !in store
    ensures var parts := Split(name, '.');
      Exec(name, st, listing, store) == Execution(st, Fail(Lookup(UnknownPackage(parts[2] + "/" + parts[3]))))
  {
    RootHasTwoSegments();
  }

  /** A sub-path segment missing from the directory reached before it raises `MissingKey`
      for that segment. */
  lemma ExecMissingSegment(name: string, st: ModuleState, listing: seq<string>, store: Store, j: int, entries: map<string, Node>)
    requires var parts := Split(name, '.');
      && 4 <= j < |parts|
      && parts[2] + "/" + parts[3] in store
      && Walk(store[parts[2] + "/" + parts[3]], parts[4..j]) == Ok(Dir(entries))
      && parts[j] !in entries
    ensures Exec(name, st, listing, store) == Execution(st, Fail(Lookup(MissingKey(Split(name, '.')[j]))))
  {
    var parts := Split(name, '.');
    var root := store[parts[2] + "/" + parts[3]];
    RootHasTwoSegments();
    WalkStep(root, parts[4..j], parts[j]);
    WalkAppend(root, parts[4..j] + [parts[j]], parts[j + 1..]);
    assert parts[4..j] + [parts[j]] + parts[j + 1..] == parts[4..];
  }

  /** One or two segments other than the root raise at `name_parts[2]`, changing nothing. */
  lemma ExecShortName(name: string, st: ModuleState, listing: seq<string>, store: Store)
    requires name != RootName && |Split(name, '.')| < 3
    ensures Exec(name, st, listing, store) == Execution(st, Fail(IndexError(2)))
  {
  }
}
