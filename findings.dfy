/**
 * The finder of loader.py claims every name in which "t4" occurs, while the loader can
 * only handle the root "t4.data" and the names below it. A claimed name of one or two
 * segments that is not the root makes `exec_module` raise an IndexError where the host
 * would otherwise report that the module does not exist.
 */
module LoaderFindings {
  import opened Wrappers
  import opened PyStrings
  import opened PackageStore
  import opened Loader

  /** "pyt4" is claimed by the finder as written, and loading it raises at `name_parts[2]`. */
  lemma FindSpecClaimsUnloadableName(st: ModuleState, listing: seq<string>, store: Store)
    ensures FindSpec("pyt4").Some?
    ensures Exec("pyt4", st, listing, store) == Execution(st, Fail(IndexError(2)))
  {
    assert OccursAt("pyt4", Marker, 2);
    SplitFree("pyt4", '.');
  }

  /** The finder restricted to the names the loader handles: the root and the names under it. */
  function FindSpecUnderRoot(fullname: string): (r: Option<ModuleSpec>)
    ensures r.Some? <==> fullname == RootName || RootName + "." <= fullname
    ensures r.Some? ==> r.value == ModuleSpec(fullname, DataPackageLoader)
  {
    if fullname == RootName || RootName + "." <= fullname then Some(ModuleSpec(fullname, DataPackageLoader))
    else None
  }

  /** Every name the restricted finder claims reaches a branch that can read the segments
      it indexes: the root, a namespace or a sub-package. */
  lemma FindSpecUnderRootLoadable(fullname: string)
    requires FindSpecUnderRoot(fullname).Some?
    ensures Classify(fullname) != TooFewSegments
    ensures FindSpec(fullname) == FindSpecUnderRoot(fullname)
  {
    assert OccursAt(fullname, Marker, 0);
    if fullname != RootName {
      var rest := fullname[|RootName| + 1..];
      assert fullname == "t4" + ['.'] + ("data" + ['.'] + rest);
      SplitPrefix("t4", '.', "data" + ['.'] + rest);
      SplitPrefix("data", '.', rest);
      assert |Split(fullname, '.')| >= 3;
    }
  }
}
