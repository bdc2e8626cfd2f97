/** Local bundle storage: one archive file per owner, with a second loader to fall back on. */
module BundleStorage {
  import opened Text
  import opened Archive

  /** A bundle file: written whole, or cut short by a failed copy. */
  datatype Stored = Complete(entries: seq<Entry>) | Truncated

  type Files = map<string, Stored>

  function BundleFile(owner: string): string {
    owner + ".tgz"
  }

  // ---- specification ----

  datatype Op =
    | Store(owner: string, bundle: Node, createOk: bool, copyOk: bool)
    | Delete(owner: string, removeOk: bool)

  function Step(files: Files, op: Op): Files {
    match op
    case Store(owner, bundle, createOk, copyOk) =>
      if !bundle.Dir? || !Readable(bundle.kids) || !createOk then files
      else files[BundleFile(owner) := if copyOk then Complete(ArchiveOf(bundle)) else Truncated]
    case Delete(owner, removeOk) =>
      if removeOk then files - {BundleFile(owner)} else files
  }

  function Run(files: Files, ops: seq<Op>): Files
    decreases |ops|
  {
    if ops == [] then files else Run(Step(files, ops[0]), ops[1..])
  }

  function Loaded(files: Files, owner: string): Option<Node> {
    if BundleFile(owner) in files && files[BundleFile(owner)].Complete? then Rebuild(files[BundleFile(owner)].entries)
    else None
  }

  /** fallbackLoaderStorage.Load. */
  function LoadWithFallback(files: Files, owner: string, fallback: Option<Node>): Option<Node> {
    if Loaded(files, owner).Some? then Loaded(files, owner) else fallback
  }

  // ---- the storage object ----

  class LocalDirectory {
    var files: Files
    const url: string

    constructor (url: string)
      ensures files == map[] && this.url == url
    {
      files := map[];
      this.url := url;
    }

    method Load(owner: string) returns (r: Option<Node>)
      ensures r == Loaded(files, owner)
    {
      var file := BundleFile(owner);
      if file !in files { return None; }
      match files[file] {
        case Truncated => return None;
        case Complete(entries) => return Rebuild(entries);
      }
    }

    /** The archive is made in memory first; only then is the file created and written. */
    method Store(owner: string, bundle: Node, createOk: bool, copyOk: bool) returns (ok: bool)
      requires bundle.Dir?
      modifies this`files
      ensures files == Step(old(files), Op.Store(owner, bundle, createOk, copyOk))
      ensures ok <==> Readable(bundle.kids) && createOk && copyOk
    {
      var archive := FSToTarGZ(bundle);
      if archive.None? { return false; }
      if !createOk { return false; }
      files := files[BundleFile(owner) := Truncated];
      if !copyOk { return false; }
      files := files[BundleFile(owner) := Complete(archive.value)];
      assert files == old(files)[BundleFile(owner) := Complete(archive.value)];
      ok := true;
    }

    method Delete(owner: string, removeOk: bool) returns (ok: bool)
      modifies this`files
      ensures files == Step(old(files), Op.Delete(owner, removeOk))
      ensures ok <==> removeOk || BundleFile(owner) !in old(files)
    {
      if BundleFile(owner) !in files {
        assert files - {BundleFile(owner)} == files;
        return true;
      }
      if removeOk { files := files - {BundleFile(owner)}; }
      ok := removeOk;
    }

    function URLFor(owner: string): (r: string)
      ensures r != "" && r == url + owner + ".tgz"
    {
      url + BundleFile(owner)
    }
  }

  // ---- what storage promises ----

  lemma {:induction false} FilesApart(a: string, b: string)
    requires BundleFile(a) == BundleFile(b)
    ensures a == b
  {
    assert a == BundleFile(a)[..|BundleFile(a)| - 4] && b == BundleFile(b)[..|BundleFile(b)| - 4];
  }

  /** The URL of an owner ends in the name of the owner's file, so owners have URLs of their own. */
  lemma {:induction false} URLsApart(d: LocalDirectory, a: string, b: string)
    ensures d.URLFor(a) == d.url + BundleFile(a)
    ensures d.URLFor(a) == d.URLFor(b) <==> a == b
  {
    assert d.URLFor(a)[|d.url|..] == BundleFile(a) && d.URLFor(b)[|d.url|..] == BundleFile(b);
    if d.URLFor(a) == d.URLFor(b) { FilesApart(a, b); }
  }

  lemma {:induction false} OthersLeaveFile(files: Files, ops: seq<Op>, owner: string)
    requires forall i :: 0 <= i < |ops| ==> ops[i].owner != owner
    ensures Loaded(Run(files, ops), owner) == Loaded(files, owner)
    decreases |ops|
  {
    if ops != [] {
      if BundleFile(ops[0].owner) == BundleFile(owner) { FilesApart(ops[0].owner, owner); }
      OthersLeaveFile(Step(files, ops[0]), ops[1..], owner);
    }
  }

  /** After a successful Store, and any operations of other owners, Load returns the stored tree
      without its symbolic links, and the fallback is not consulted. */
  lemma {:induction false} LoadAfterStore(files: Files, owner: string, bundle: Node, others: seq<Op>,
                                          fallback: Option<Node>)
    requires bundle.Dir? && WellFormed(bundle.kids) && Readable(bundle.kids)
    requires forall i :: 0 <= i < |others| ==> others[i].owner != owner
    ensures var after := Run(Step(files, Store(owner, bundle, true, true)), others);
            Loaded(after, owner) == LoadWithFallback(after, owner, fallback)
            == Some(Dir(bundle.mode, Prune(bundle.kids)))
  {
    RebuildArchive(bundle);
    OthersLeaveFile(Step(files, Store(owner, bundle, true, true)), others, owner);
  }

  /** A bundle that cannot be converted leaves what was stored before as it was; so does a file
      that cannot be created.  Only a failed copy loses it, and then Load reports an error. */
  lemma {:induction false} FailedStore(files: Files, owner: string, bundle: Node, createOk: bool, copyOk: bool)
    requires bundle.Dir? && !(Readable(bundle.kids) && createOk && copyOk)
    ensures var after := Step(files, Store(owner, bundle, createOk, copyOk));
            Loaded(after, owner) == if Readable(bundle.kids) && createOk then None else Loaded(files, owner)
  {
  }

  /** Storing what was loaded writes the same file: the archive is a normal form of the bundle. */
  lemma {:induction false} StoreLoaded(files: Files, owner: string, bundle: Node)
    requires bundle.Dir? && WellFormed(bundle.kids) && Readable(bundle.kids)
    ensures var after := Step(files, Store(owner, bundle, true, true));
            Loaded(after, owner).Some? && Step(after, Store(owner, Loaded(after, owner).value, true, true)) == after
  {
    LoadAfterStore(files, owner, bundle, [], None);
    PrunedItems(bundle.kids);
    var after := Step(files, Store(owner, bundle, true, true));
    assert Run(after, []) == after;
    var again := Step(after, Store(owner, Loaded(after, owner).value, true, true));
    assert again[BundleFile(owner)] == after[BundleFile(owner)];
  }

  /** Deleting makes Load fail, so the fallback answers. */
  lemma {:induction false} LoadAfterDelete(files: Files, owner: string, fallback: Option<Node>)
    ensures LoadWithFallback(Step(files, Delete(owner, true)), owner, fallback) == fallback
  {
  }

  /** A deletion that fails keeps the bundle, and one of a missing file changes nothing. */
  lemma {:induction false} FailedDelete(files: Files, owner: string)
    ensures Step(files, Delete(owner, false)) == files
    ensures BundleFile(owner) !in files ==> Step(files, Delete(owner, true)) == files
  {
    assert BundleFile(owner) !in files ==> files - {BundleFile(owner)} == files;
  }

  /** A run goes operation by operation. */
  lemma {:induction false} RunThen(files: Files, ops: seq<Op>, op: Op)
    ensures Run(files, ops + [op]) == Step(Run(files, ops), op)
    decreases |ops|
  {
    if ops == [] {
      assert (ops + [op])[1..] == [];
    } else {
      assert (ops + [op])[1..] == ops[1..] + [op];
      RunThen(Step(files, ops[0]), ops[1..], op);
    }
  }
}
