/**
 * The import hook of loader.py: a finder that claims every dotted module name containing
 * "t4", and a loader that fills the host's empty module object for such a name.
 *
 * The loader classifies the name by its '.'-separated segments:
 *   - the exact name "t4.data" is the virtual root;
 *   - a name of three segments is an owner namespace `t4.data.<owner>`, bound to every
 *     package `<owner>/<slug>` of the store's listing;
 *   - any other name takes segments 3 and 4 as owner and slug, browses that package,
 *     walks the remaining segments and copies the final node's children.
 * Segment positions below are 0-based, as in the source's `name_parts[2]`.
 *
 * The store's listing (`list_packages()`) and its browse function are parameters; the
 * host module object is the class `Module`, whose `dict` is the module's `__dict__` and
 * whose `path` is its `__path__`.
 */
module Loader {
  import opened Wrappers
  import opened PyStrings
  import opened PackageStore

  /** The name of the virtual root package. */
  const RootName: string := "t4.data"

  /** What a module name must contain for the finder to claim it. */
  const Marker: string := "t4"

  /** A location under the store's base directory `BASE_PATH`: the path components after it. */
  datatype Location = UnderBase(components: seq<string>)

  /** `BASE_PATH / '.quilt' / 'named_packages'`. */
  const NamedPackages: Location := UnderBase([".quilt", "named_packages"])

  /** `BASE_PATH / '.quilt' / 'named_packages' / namespace`. */
  function NamespaceDir(namespace: string): Location
  {
    UnderBase(NamedPackages.components + [namespace])
  }

  /** What a module's `__dict__` holds: package nodes bound by the loader, or whatever
      the host put there before (identified only by a name). */
  datatype Value = Package(node: Node) | HostValue(id: string)

  /** The only loader the finder hands out. */
  datatype LoaderKind = DataPackageLoader

  /** `ModuleSpec(fullname, loader)`, as far as this code fills it in. */
  datatype ModuleSpec = ModuleSpec(name: string, loader: LoaderKind)

  /** The exceptions `exec_module` lets escape. */
  datatype LoadError =
    | IndexError(index: nat)              // `name_parts[index]` out of range
    | MalformedIdentifier(entry: string)  // `pkg_user, pkg_name = pkg.split('/')` unpacking fails
    | Lookup(cause: LookupError)          // the store refuses a browse, an index or `keys()`

  datatype Outcome = Pass | Fail(error: LoadError)

  // ---------------------------------------------------------------------------
  // DataPackageFinder and DataPackageLoader.create_module

  /** `DataPackageFinder.find_spec`: declines every name in which "t4" does not occur
      anywhere (not only as a prefix), and otherwise hands the name to a
      `DataPackageLoader`. */
  function FindSpec(fullname: string): (r: Option<ModuleSpec>)
    ensures r.None? <==> !IsSubstring(Marker, fullname)
    ensures r.Some? ==> r.value.name == fullname && r.value.loader == DataPackageLoader
  {
    ContainsIsSubstring(fullname, Marker);
    if !Contains(fullname, Marker) then None else Some(ModuleSpec(fullname, DataPackageLoader))
  }

  /** `DataPackageLoader.create_module`: leaves the creation of the module object to the
      host's default machinery. */
  function CreateModule(spec: ModuleSpec): (r: Option<Module>)
    ensures r.None?
  {
    None
  }

  // ---------------------------------------------------------------------------
  // Classification of the module name

  datatype Case =
    | RootCase                                                     // exactly "t4.data"
    | NamespaceCase(namespace: string)                             // three segments
    | SubpackageCase(namespace: string, slug: string, subpath: seq<string>) // four or more
    | TooFewSegments                                               // one or two, not the root

  /** The branch `exec_module` takes for `name`, with the segments it reads. */
  function Classify(name: string): Case
  {
    var parts := Split(name, '.');
    if name == RootName then RootCase
    else if |parts| == 3 then NamespaceCase(parts[2])
    else if |parts| < 3 then TooFewSegments
    else SubpackageCase(parts[2], parts[3], parts[4..])
  }

  // ---------------------------------------------------------------------------
  // The namespace case: scanning the listing

  /** The listing entry names package `<namespace>/<slug>`. */
  predicate Matches(entry: string, namespace: string, slug: string)
  {
    Split(entry, '/') == [namespace, slug]
  }

  /** What handling one listing entry raises, if anything: a failed two-way unpacking of
      `entry.split('/')`, or a browse of an unknown package whose owner is `namespace`. */
  function EntryError(entry: string, namespace: string, store: Store): Option<LoadError>
  {
    var parts := Split(entry, '/');
    if |parts| != 2 then Some(MalformedIdentifier(entry))
    else if parts[0] == namespace && entry !in store then Some(Lookup(UnknownPackage(entry)))
    else None
  }

  /** How many listing entries are handled before the first one that raises. */
  function ScanLength(entries: seq<string>, namespace: string, store: Store): (n: nat)
    ensures n <= |entries|
    ensures forall i :: 0 <= i < n ==> EntryError(entries[i], namespace, store).None?
    ensures n < |entries| ==> EntryError(entries[n], namespace, store).Some?
    decreases |entries|
  {
    if entries == [] then 0
    else if EntryError(entries[0], namespace, store).Some? then 0
    else 1 + ScanLength(entries[1..], namespace, store)
  }

  /** The bindings the namespace case adds for `entries`, handled in order, so that a slug
      listed twice is bound by its later entry. */
  function Bindings(entries: seq<string>, namespace: string, store: Store): map<string, Value>
    decreases |entries|
  {
    if entries == [] then map[]
    else
      var earlier := Bindings(entries[..|entries| - 1], namespace, store);
      var entry := entries[|entries| - 1];
      var parts := Split(entry, '/');
      if |parts| == 2 && parts[0] == namespace && entry in store
      then earlier[parts[1] := Package(store[entry])]
      else earlier
  }

  /** The scan stops at the first entry that raises, or at the end of the listing. */
  lemma ScanStopsAt(entries: seq<string>, namespace: string, store: Store, i: nat)
    requires i <= |entries|
    requires forall j :: 0 <= j < i ==> EntryError(entries[j], namespace, store).None?
    requires i < |entries| ==> EntryError(entries[i], namespace, store).Some?
    ensures ScanLength(entries, namespace, store) == i
  {
  }

  /** Handling entry `i`, which raises nothing, updates the dict in place. */
  lemma BindingsUpdate(base: map<string, Value>, entries: seq<string>, namespace: string, store: Store, i: nat)
    requires i < |entries| && EntryError(entries[i], namespace, store).None?
    ensures var parts := Split(entries[i], '/');
      base + Bindings(entries[..i + 1], namespace, store) ==
        if parts[0] == namespace
        then (base + Bindings(entries[..i], namespace, store))[parts[1] := Package(store[entries[i]])]
        else base + Bindings(entries[..i], namespace, store)
  {
    BindingsStep(entries, namespace, store, i);
  }

  /** Handling entry `i` after the entries before it. */
  lemma BindingsStep(entries: seq<string>, namespace: string, store: Store, i: nat)
    requires i < |entries|
    ensures var parts := Split(entries[i], '/');
      Bindings(entries[..i + 1], namespace, store) ==
        if |parts| == 2 && parts[0] == namespace && entries[i] in store
        then Bindings(entries[..i], namespace, store)[parts[1] := Package(store[entries[i]])]
        else Bindings(entries[..i], namespace, store)
  {
    assert entries[..i + 1][..i] == entries[..i];
  }

  // ---------------------------------------------------------------------------
  // The sub-package case: browsing and walking

  /** The children of the node `t4.data.<namespace>.<slug>.<subpath...>` names: browse the
      package, index it by each sub-path segment in turn, then enumerate its keys. */
  function Resolve(store: Store, namespace: string, slug: string, subpath: seq<string>)
    : Result<map<string, Node>, LookupError>
  {
    match Browse(store, namespace + "/" + slug)
    case Err(e) => Err(e)
    case Ok(root) =>
      match Walk(root, subpath)
      case Err(e) => Err(e)
      case Ok(Leaf(_)) => Err(NoKeys)
      case Ok(Dir(children)) => Ok(children)
  }

  /** The bindings that copying the node's children into the module dict adds. */
  function Exports(children: map<string, Node>): map<string, Value>
  {
    map k | k in children :: Package(children[k])
  }

  // ---------------------------------------------------------------------------
  // exec_module as a function of the module's state

  /** The part of the module object that `exec_module` reads or writes. */
  datatype ModuleState = ModuleState(dict: map<string, Value>, path: seq<Location>)

  datatype Execution = Execution(state: ModuleState, outcome: Outcome)

  /** The module state after `exec_module` on a module called `name`, with the store's
      listing `listing` and browse function `store`. A dict update happens in place, so
      the updates the namespace case made before an entry raised stay in the dict. */
  function Exec(name: string, st: ModuleState, listing: seq<string>, store: Store): Execution
  {
    match Classify(name)
    case RootCase => Execution(ModuleState(st.dict, [NamedPackages]), Pass)
    case NamespaceCase(namespace) =>
      var n := ScanLength(listing, namespace, store);
      var dict := st.dict + Bindings(listing[..n], namespace, store);
      if n == |listing| then Execution(ModuleState(dict, [NamedPackages]), Pass)
      else Execution(ModuleState(dict, st.path), Fail(EntryError(listing[n], namespace, store).value))
    case SubpackageCase(namespace, slug, subpath) =>
      (match Resolve(store, namespace, slug, subpath)
       case Ok(children) => Execution(ModuleState(st.dict + Exports(children), [NamespaceDir(namespace)]), Pass)
       case Err(e) => Execution(st, Fail(Lookup(e))))
    case TooFewSegments => Execution(st, Fail(IndexError(2)))
  }

  // ---------------------------------------------------------------------------
  // The module object and exec_module

  /** The module object the host creates (since `create_module` returns None) and
      `exec_module` fills in place. */
  class Module {
    const name: string
    var dict: map<string, Value>
    var path: seq<Location>

    /** The host's fresh module for `name`, holding what the host put in its dict. */
    constructor (name: string, dict: map<string, Value>)
      ensures this.name == name && this.dict == dict && this.path == []
    {
      this.name := name;
      this.dict := dict;
      this.path := [];
    }

    function State(): ModuleState
      reads this
    {
      ModuleState(dict, path)
    }

    /** `DataPackageLoader.exec_module(module)`. */
    method ExecModule(listing: seq<string>, store: Store) returns (outcome: Outcome)
      modifies this
      ensures Execution(State(), outcome) == Exec(name, old(State()), listing, store)
    {
      var parts := Split(name, '.');
      if name == RootName {
        path := [NamedPackages];
        outcome := Pass;
      } else if |parts| == 3 {
        outcome := BindNamespace(parts[2], listing, store);
      } else {
        if |parts| < 3 {
          outcome := Fail(IndexError(2));
          return;
        }
        outcome := BindSubpackage(parts[2], parts[3], parts[4..], store);
      }
    }

    /** The namespace branch: binds every listed package of `namespace` by its slug, then
        sets `__path__`; the first entry that raises stops it where it is. */
    method BindNamespace(namespace: string, listing: seq<string>, store: Store) returns (outcome: Outcome)
      modifies this
      ensures var n := ScanLength(listing, namespace, store);
        && outcome == (if n == |listing| then Pass else Fail(EntryError(listing[n], namespace, store).value))
        && dict == old(dict) + Bindings(listing[..n], namespace, store)
        && path == (if n == |listing| then [NamedPackages] else old(path))
    {
      var i := 0;
      while i < |listing|
        invariant 0 <= i <= |listing|
        invariant forall j :: 0 <= j < i ==> EntryError(listing[j], namespace, store).None?
        invariant dict == old(dict) + Bindings(listing[..i], namespace, store)
        invariant path == old(path)
      {
        var entry := listing[i];
        var parts := Split(entry, '/');
        if |parts| != 2 {
          ScanStopsAt(listing, namespace, store, i);
          outcome := Fail(MalformedIdentifier(entry));
          return;
        }
        if parts[0] == namespace && entry !in store {
          ScanStopsAt(listing, namespace, store, i);
          outcome := Fail(Lookup(UnknownPackage(entry)));
          return;
        }
        BindingsUpdate(old(dict), listing, namespace, store, i);
        if parts[0] == namespace {
          dict := dict[parts[1] := Package(store[entry])];
        }
        i := i + 1;
      }
      ScanStopsAt(listing, namespace, store, i);
      assert listing[..i] == listing;
      path := [NamedPackages];
      outcome := Pass;
    }

    /** The sub-package branch: browses `<namespace>/<slug>`, walks `subpath`, and only
        then copies the final node's children and sets `__path__`. */
    method BindSubpackage(namespace: string, slug: string, subpath: seq<string>, store: Store)
      returns (outcome: Outcome)
      modifies this
      ensures match Resolve(store, namespace, slug, subpath)
        case Ok(children) =>
          outcome == Pass && dict == old(dict) + Exports(children) && path == [NamespaceDir(namespace)]
        case Err(e) =>
          outcome == Fail(Lookup(e)) && dict == old(dict) && path == old(path)
    {
      var id := namespace + "/" + slug;
      if id !in store {
        outcome := Fail(Lookup(UnknownPackage(id)));
        return;
      }
      var pkg := store[id];
      for i := 0 to |subpath|
        invariant Walk(store[id], subpath[..i]) == Ok(pkg)
        invariant dict == old(dict) && path == old(path)
      {
        WalkStep(store[id], subpath[..i], subpath[i]);
        assert subpath[..i + 1] == subpath[..i] + [subpath[i]];
        var next := Index(pkg, subpath[i]);
        if next.Err? {
          WalkAppend(store[id], subpath[..i + 1], subpath[i + 1..]);
          assert subpath[..i + 1] + subpath[i + 1..] == subpath;
          outcome := Fail(Lookup(next.error));
          return;
        }
        pkg := next.value;
      }
      assert subpath[..|subpath|] == subpath;
      if pkg.Leaf? {
        outcome := Fail(Lookup(NoKeys));
        return;
      }
      var children := pkg.children;
      var remaining := children.Keys;
      while remaining != {}
        invariant remaining <= children.Keys
        invariant dict == old(dict) + map k | k in children.Keys - remaining :: Package(children[k])
        decreases remaining
      {
        var k :| k in remaining;
        dict := dict[k := Package(children[k])];
        remaining := remaining - {k};
      }
      assert children.Keys - remaining == children.Keys;
      path := [NamespaceDir(namespace)];
      outcome := Pass;
    }
  }
}
