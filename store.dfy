/**
 * The package store as the loader sees it: `Package.browse(id)` gives the tree of a
 * package, and a node of that tree is indexed by name (`pkg[name]`) and enumerated
 * (`pkg.keys()`). The store is read-only, so it is a value: a partial map from package
 * identifier (`"<owner>/<slug>"`) to the package's root node.
 */
module PackageStore {
  import opened Wrappers

  /** A node of a package: a directory of named children or a terminal entry. */
  datatype Node = Leaf(entry: string) | Dir(children: map<string, Node>)

  /** What `Package.browse` can reach: identifier to root node. */
  type Store = map<string, Node>

  /** The exceptions the store raises to the loader. */
  datatype LookupError =
    | UnknownPackage(id: string)    // `Package.browse(id)` of an identifier not in the store
    | MissingKey(key: string)       // `pkg[key]` on a directory without that child
    | NotSubscriptable(key: string) // `pkg[key]` on a terminal entry
    | NoKeys                        // `pkg.keys()` on a terminal entry

  /** `Package.browse(id)`. */
  function Browse(store: Store, id: string): Result<Node, LookupError>
  {
    if id in store then Ok(store[id]) else Err(UnknownPackage(id))
  }

  /** `pkg[name]`, one indexing step. */
  function Index(n: Node, key: string): Result<Node, LookupError>
  {
    match n
    case Leaf(_) => Err(NotSubscriptable(key))
    case Dir(children) => if key in children then Ok(children[key]) else Err(MissingKey(key))
  }

  /** Indexes `n` by each of `segs` in turn, stopping at the first failing step. */
  function Walk(n: Node, segs: seq<string>): Result<Node, LookupError>
    decreases |segs|
  {
    if segs == [] then Ok(n)
    else
      match Index(n, segs[0])
      case Ok(child) => Walk(child, segs[1..])
      case Err(e) => Err(e)
  }

  /** Walking `a + b` is walking `a`, then walking `b` from where `a` ended. */
  lemma {:induction false} WalkAppend(n: Node, a: seq<string>, b: seq<string>)
    ensures Walk(n, a + b) == match Walk(n, a) case Ok(m) => Walk(m, b) case Err(e) => Err(e)
    decreases |a|
  {
    if a == [] {
      assert a + b == b;
    } else {
      assert (a + b)[0] == a[0];
      assert (a + b)[1..] == a[1..] + b;
      match Index(n, a[0])
      case Ok(child) => WalkAppend(child, a[1..], b);
      case Err(_) =>
    }
  }

  /** One more segment is one more indexing step on the node reached so far. */
  lemma WalkStep(n: Node, segs: seq<string>, key: string)
    ensures Walk(n, segs + [key]) == match Walk(n, segs) case Ok(m) => Index(m, key) case Err(e) => Err(e)
  {
    WalkAppend(n, segs, [key]);
    match Walk(n, segs)
    case Ok(m) => assert Walk(m, [key]) == Index(m, key) by {
      assert [key][1..] == [];
    }
    case Err(_) =>
  }

  /** A walk succeeds exactly when every step finds its key in a directory. */
  lemma {:induction false} WalkSucceeds(n: Node, segs: seq<string>)
    ensures Walk(n, segs).Ok? <==>
      forall i :: 0 <= i < |segs| ==> Walk(n, segs[..i]).Ok? && Index(Walk(n, segs[..i]).value, segs[i]).Ok?
    decreases |segs|
  {
    if segs != [] {
      var init := segs[..|segs| - 1];
      var last := segs[|segs| - 1];
      assert segs == init + [last];
      WalkSucceeds(n, init);
      WalkStep(n, init, last);
      forall i | 0 <= i < |init| ensures segs[..i] == init[..i] && segs[i] == init[i] { }
    }
  }
}
