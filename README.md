# t4 data-package import hook, modelled in Dafny

`loader.py` plugs into Python's import system so that `import t4.data.<owner>.<slug>...`
yields data packages from the local t4 store. It has two parts:

- `DataPackageFinder.find_spec` claims every module name in which `"t4"` occurs anywhere
  and hands it to a `DataPackageLoader`.
- `DataPackageLoader.create_module` returns `None`, so the host creates the module
  object. `exec_module` then fills that object in place. The branch depends on the name's
  `'.'`-separated segments:
  - **root**: the exact name `t4.data`. Only `__path__` is set.
  - **namespace**: exactly three segments. Every listed package `<owner>/<slug>` whose owner
    is the third segment is bound under its slug.
  - **sub-package**: any other name. Segments 3 and 4 name the package. It is browsed,
    walked by the remaining segments, and the final node's children are copied into the
    module dict.

The model has five modules:

- `PyStrings` (`strings.dfy`): Python's `str.split` and `in`, with their round-trip and
  containment lemmas.
- `PackageStore` (`store.dfy`): the store as a value. `Store` is a partial map from package
  identifier to a `Node` tree (`Leaf` or `Dir`). `Walk` indexes a node segment by segment.
- `Loader` (`loader.dfy`): the finder, the classifier and `Exec`. `Exec` is the effect of
  `exec_module` as a function of the module state. It also holds the class `Module`, with
  fields `dict` (`__dict__`) and `path` (`__path__`). Its `ExecModule` updates those fields
  in place, with the same loops as the source, and is proved to end in `Exec`'s state.
- `LoaderProperties` (`loader_props.dfy`): what each branch guarantees, stated over
  `Exec` and `Classify`.
- `LoaderFindings` (`findings.dfy`): the finding below.

Inputs the source reads from outside are parameters:

- `list_packages()` is `listing: seq<string>`.
- `Package.browse` is `store: Store`.
- `BASE_PATH` is the fixed root of `Location`. A location is the list of path components
  after `BASE_PATH`.

Segment positions are 0-based, as in `name_parts[2]`.

## Model

| member | source | states |
|---|---|---|
| PyStrings.JoinSplit | loader.py:14 | joining the pieces of `name.split('.')` with `'.'` gives the name back |
| PyStrings.SplitJoin | loader.py:14 | splitting a `'.'`-join of dot-free segments gives those segments back |
| PyStrings.SplitPiecesFree | loader.py:28 | no piece of a split contains the separator |
| PyStrings.SplitCount | loader.py:23 | the number of segments is the number of separators plus one |
| PyStrings.ContainsIsSubstring | loader.py:85 | the `in` scan is true exactly when the substring occurs at some position |
| PackageStore.WalkAppend | loader.py:71-72 | walking `a + b` is walking `a` and then `b` from the node reached; a failure in `a` stops the walk |
| PackageStore.WalkStep | loader.py:72 | one more segment is one more `pkg[name]` on the node reached so far |
| PackageStore.WalkSucceeds | loader.py:71-72 | a walk succeeds exactly when every step indexes a directory that has the segment |
| PyStrings.Split | loader.py:14 | Python's `s.split(sep)`: always at least one piece; described by `JoinSplit`, `SplitJoin`, `SplitPiecesFree` and `SplitCount` |
| PyStrings.Contains | loader.py:85 | Python's `sub in s` as a left-to-right scan; `ContainsIsSubstring` proves it true exactly when the substring occurs |
| PackageStore.Browse | loader.py:69 | `Package.browse(id)`: the package's root node, or `UnknownPackage(id)` when the store has no such identifier |
| PackageStore.Index | loader.py:72 | `pkg[key]`: the child of a directory, `MissingKey` when it has none, `NotSubscriptable` on a terminal entry |
| PackageStore.Walk | loader.py:71-72 | indexes a node by each segment in turn and stops at the first failure; described by `WalkAppend`, `WalkStep` and `WalkSucceeds` |
| Loader.Classify | loader.py:14-35 | the branch of `exec_module`: root for exactly `t4.data`, namespace for three segments, index error for fewer, sub-package otherwise; described by `ClassifyNamespace`, `ClassifySubpackage`, `NamespaceNameShape`, `SubpackageSegments` |
| Loader.EntryError | loader.py:27-30 | what one listing entry raises: a failed two-way `'/'` unpacking, or an unknown browse for an entry of the requested owner |
| Loader.Bindings | loader.py:27-30 | the dict updates the namespace loop makes for a listing prefix, in order; described by `BindingsKeys` and `BindingsLastWins` |
| Loader.Resolve | loader.py:69-75 | browse, walk the sub-path, then take the final node's children, or the first error; described by `ExecSubpackage`, `ExecSubpackageFailsCleanly`, `ExecUnknownPackage`, `ExecMissingSegment` |
| Loader.Exports | loader.py:74-75 | the bindings `module.__dict__.update({name: pkg[name]})` makes for every key of the final node; described by `ExecSubpackage` |
| Loader.Exec | loader.py:13-78 | the module state and outcome after `exec_module`, per branch; `Module.ExecModule` is proved to end in it, and the `Exec*` lemmas describe it |
| Loader.FindSpec | loader.py:84-88 | no spec exactly when `"t4"` occurs nowhere in the name; otherwise a spec with that name and a `DataPackageLoader` |
| Loader.CreateModule | loader.py:8-10 | always `None`: the host creates the module |
| Loader.ScanLength | loader.py:27-30 | the namespace scan handles every entry before the first one that raises, and stops there |
| Loader.Module.ExecModule | loader.py:13-78 | the module's new `__dict__` and `__path__` and the raised error are exactly those of `Exec` on the old state |
| Loader.Module.BindNamespace | loader.py:23-33 | the dict gains the bindings of the entries before the first raising entry; `__path__` is set only if no entry raised |
| Loader.Module.BindSubpackage | loader.py:64-78 | on success the dict gains the final node's children and `__path__` is the owner's directory; on failure dict and `__path__` are unchanged |
| LoaderProperties.FindSpecAcceptsMarkerAnywhere | loader.py:85-88 | a name with `"t4"` anywhere, not only at the start, is claimed |
| LoaderProperties.RootHasTwoSegments | loader.py:14-16 | `t4.data` splits into the two segments `t4` and `data` |
| LoaderProperties.ClassifyNamespace | loader.py:23-24 | any three dot-free segments form a namespace name for the third; the first two are not checked |
| LoaderProperties.ClassifySubpackage | loader.py:64-67 | any four or more dot-free segments select owner, slug and sub-path from positions 2, 3 and 4 onward |
| LoaderProperties.NamespaceNameShape | loader.py:23-24 | a name classified as a namespace is three dot-free segments joined by dots |
| LoaderProperties.SubpackageSegments | loader.py:64-67 | a name classified as a sub-package has two leading segments, then the owner, the slug and the sub-path, all dot-free |
| LoaderProperties.BindingsKeys | loader.py:27-30 | the slugs bound are exactly those of listing entries `<owner>/<slug>` for the requested owner |
| LoaderProperties.BindingsLastWins | loader.py:27-30 | a slug listed more than once is bound to the browse result of its last entry |
| LoaderProperties.ExecRoot | loader.py:16-21 | `t4.data` leaves the dict unchanged and sets `__path__` to `[BASE_PATH/.quilt/named_packages]` |
| LoaderProperties.ExecNamespaceBinds | loader.py:23-33 | a namespace name whose listing raises nothing succeeds; the dict binds every listed slug of the owner to its last entry's package, keeps all other keys, and `__path__` is the named-packages directory |
| LoaderProperties.ExecNamespaceEmpty | loader.py:27-33 | an owner with no packages succeeds and only `__path__` changes |
| LoaderProperties.ExecNamespaceMalformed | loader.py:28 | an entry that does not split into exactly two parts on `'/'` makes the namespace case raise, at that entry or an earlier one, and `__path__` is not set |
| LoaderProperties.ExecNamespaceKeepsEarlierBindings | loader.py:27-30 | when entry `n` is the first to raise, the bindings of the entries before it stay in the dict |
| LoaderProperties.ExecSubpackage | loader.py:64-76 | after a successful walk every child `k` of the final node is bound as `dict[k]`, other keys are untouched, and `__path__` is `named_packages/<owner>` |
| LoaderProperties.ExecSubpackageFailsCleanly | loader.py:69-76 | the sub-package case succeeds exactly when the package exists and the walk ends at a directory; on failure the module is unchanged |
| LoaderProperties.ExecUnknownPackage | loader.py:66-69 | an unknown `<owner>/<slug>` raises for that identifier |
| LoaderProperties.ExecMissingSegment | loader.py:71-72 | a sub-path segment absent from the directory reached before it raises a missing-key error for that segment |
| LoaderProperties.ExecShortName | loader.py:35-64 | a one- or two-segment name other than `t4.data` raises an index error at `name_parts[2]` and changes nothing |
| LoaderFindings.FindSpecClaimsUnloadableName | loader.py:85-88 | `pyt4` is claimed by the finder, and loading it raises at `name_parts[2]` |
| LoaderFindings.FindSpecUnderRoot | loader.py:84-88 | the restricted finder claims exactly `t4.data` and the names that start with `t4.data.` |
| LoaderFindings.FindSpecUnderRootLoadable | loader.py:84-88 | every name the restricted finder claims is also claimed by the original finder, and never reaches the index error |

## Left out

- The import machinery: `ModuleSpec` beyond its name and loader, registration on `sys.meta_path`, and the host's module cache. The finder's `path` and `target` arguments are unused by the source and are not modelled.
- The cache-ordering limitation described at loader.py:36-63 belongs to the host's module cache. It is not modelled.
- The t4 library (`list_packages`, `Package.browse`, indexing, `keys()`) is not part of this model. Its results are parameters: a listing sequence and a map from identifier to node tree. Indexing a terminal entry and calling `keys()` on one are modelled as errors.
- `BASE_PATH` and the filesystem meaning of `/` on paths are not modelled. A location is `BASE_PATH` followed by a list of components.
- `__path__` is kept apart from `__dict__`. A listed package whose slug is `__path__` would collide with it in Python; the model does not capture that collision.
- Module.constructor stands for the host creating the empty module. It has no counterpart in loader.py.
- A fresh module's `path` of `[]` stands for "no `__path__` attribute": the spec built at loader.py:88 gives no submodule search locations. `exec_module` never reads `__path__`, so no outcome depends on this.
- The order in which `pkg.keys()` yields the keys is not modelled. Keys are distinct, so the resulting dict does not depend on it.
- `find_spec` tests containment, not a prefix. The model keeps containment; see "## Findings".
- An unknown package makes `exec_module` raise. The model raises `UnknownPackage`.
- `name_parts[3]` is never out of range: three-segment names take the namespace branch. Only the index error at position 2 is modelled.

## Findings

| source | as written | input that shows it | evidently intended | confidence | as-written member | corrected member |
|---|---|---|---|---|---|---|
| loader.py:85 | the finder claims any name containing `"t4"` | `pyt4`: claimed, then `exec_module` raises IndexError instead of the host reporting a missing module | claim only `t4.data` and names under `t4.data.` | medium, not executed | LoaderFindings.FindSpecClaimsUnloadableName | LoaderFindings.FindSpecUnderRoot |
