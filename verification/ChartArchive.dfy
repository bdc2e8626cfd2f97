/** What the Helm provisioner hands to the chart loader: a bundle's files, through the base directory
    view, walked by opening paths and written as an archive. */
module ChartArchive {
  import opened Text
  import opened Paths
  import opened Archive
  import opened BaseDir

  // ---- a tree found by opening paths ----

  lemma {:induction false} LookupConcat(n: Node, a: seq<string>, b: seq<string>)
    requires Lookup(n, a).Some?
    ensures Lookup(n, a + b) == Lookup(Lookup(n, a).value, b)
    decreases |a|
  {
    if a == [] {
      assert a + b == b;
    } else {
      assert (a + b)[1..] == a[1..] + b;
      LookupConcat(Find(n.kids, a[0]).value, a[1..], b);
    }
  }

  /** Every entry of a forest is found below a directory. */
  ghost predicate Found(root: Node, dir: seq<string>, f: Forest) {
    match f
    case Nil => true
    case Cons(n, node, rest) => Lookup(root, dir + [n]) == Some(node) && Found(root, dir, rest)
  }

  lemma {:induction false} KidsFound(root: Node, dir: seq<string>, all: Forest, f: Forest)
    requires Lookup(root, dir).Some? && Lookup(root, dir).value.Dir? && Lookup(root, dir).value.kids == all
    requires WellFormed(f)
    requires forall n :: n in Names(f) ==> Find(all, n) == Find(f, n)
    ensures Found(root, dir, f)
  {
    match f {
      case Nil =>
      case Cons(n, node, rest) =>
        LookupConcat(root, dir, [n]);
        assert n in Names(f) && Lookup(node, []) == Some(node);
        assert [n][1..] == [];
        KidsFound(root, dir, all, rest);
    }
  }

  /** What opening the path of a node shows. */
  lemma {:induction false} OpensAt(fs: FS, root: Node, path: seq<string>, node: Node)
    requires Presents(fs, root) && Segments(path) && Lookup(root, path) == Some(node)
    ensures Open(fs, PathText(path)) == Some(ViewOf(node))
  {
    PathTextReadsBack(path);
    assert ValidName(PathText(path));
  }

  // ---- the walk ----

  /** fs.WalkDir below a directory whose entries were listed, with the header and the data written
      by FSToTarGZ: everything comes from listings and from opening paths. */
  method WalkListed(tw: TarWriter, fs: FS, dir: seq<string>, entries: seq<Listed>, ghost root: Node, ghost f: Forest)
    returns (ok: bool)
    requires Presents(fs, root) && Segments(dir) && WellFormed(f)
    requires Found(root, dir, f) && entries == ListingOf(f)
    modifies tw
    ensures ok <==> Readable(f)
    ensures ok ==> tw.entries == old(tw.entries) + Written(dir, Items(f))
    decreases f
  {
    if |entries| == 0 {
      assert f.Nil?;
      return true;
    }
    assert f.Cons? && ListingOf(f.rest) == entries[1..];
    ok := WalkEntry(tw, fs, dir, entries[0], root, f.node);
    if !ok { return; }
    ok := WalkListed(tw, fs, dir, entries[1..], root, f.rest);
    if !ok { return; }
    WrittenConcat(dir, NodeItems(f.name, f.node), Items(f.rest));
    Associate(old(tw.entries), Written(dir, NodeItems(f.name, f.node)), Written(dir, Items(f.rest)));
  }

  method WalkEntry(tw: TarWriter, fs: FS, dir: seq<string>, entry: Listed, ghost root: Node, ghost node: Node)
    returns (ok: bool)
    requires Presents(fs, root) && Segments(dir) && Segment(entry.name) && (node.Dir? ==> WellFormed(node.kids))
    requires Lookup(root, dir + [entry.name]) == Some(node) && entry.info == InfoOf(node)
    modifies tw
    ensures ok <==> !node.Broken? && (node.Dir? ==> Readable(node.kids))
    ensures ok ==> tw.entries == old(tw.entries) + Written(dir, NodeItems(entry.name, node))
    decreases node
  {
    var path := dir + [entry.name];
    OpensAt(fs, root, path, node);
    match entry.info {
      case LinkInfo =>
        ok := true;
      case BrokenInfo =>
        ok := false;
      case FileInfo(mode) =>
        var file := Open(fs, PathText(path));
        tw.WriteHeader(PathText(path), FileEntry(mode, file.value.node.data));
        ok := true;
      case DirInfo(mode) =>
        tw.WriteHeader(PathText(path), DirEntry(mode));
        var listed := Open(fs, PathText(path));
        KidsFound(root, path, node.kids, node.kids);
        ok := WalkListed(tw, fs, path, listed.value.entries, root, node.kids);
        if !ok { return; }
        ghost var head := [Item([entry.name], DirEntry(mode))];
        WrittenConcat(dir, head, Under([entry.name], Items(node.kids)));
        UnderUnder(dir, [entry.name], Items(node.kids));
        assert Written(dir, head) == [Entry(PathText(path), DirEntry(mode))];
        Associate(old(tw.entries), Written(dir, head), Written(path, Items(node.kids)));
    }
  }

  /** util.FSToTarGZ on a filesystem view: whatever tree the view presents, the archive is that
      tree's, or there is none because something in the tree is unreadable. */
  method ArchiveView(fs: FS, ghost root: Node) returns (r: Option<seq<Entry>>)
    requires root.Dir? && WellFormed(root.kids) && Presents(fs, root) && RootMode(fs) == Some(root.mode)
    ensures r.Some? <==> Readable(root.kids)
    ensures r.Some? ==> r.value == ArchiveOf(root)
  {
    OpensAt(fs, root, [], root);
    KidsFound(root, [], root.kids, root.kids);
    var tw := new TarWriter();
    tw.WriteHeader(PathText([]), DirEntry(RootMode(fs).value));
    var ok := WalkListed(tw, fs, [], Open(fs, ".").value.entries, root, root.kids);
    if !ok { return None; }
    ArchiveStarts(root);
    r := Some(tw.entries);
  }

  // ---- the chart ----

  /** The bundle's root holds one entry, a directory. */
  predicate OneDirectory(root: Node)
    requires root.Dir?
  {
    root.kids.Cons? && root.kids.rest.Nil? && root.kids.node.Dir?
  }

  lemma {:induction false} RootListing(f: Forest)
    ensures |ListingOf(f)| == 0 <==> f.Nil?
    ensures |ListingOf(f)| == 1 <==> f.Cons? && f.rest.Nil?
  {
    if f.Cons? && f.rest.Cons? { assert |ListingOf(f)| >= 2; }
  }

  /** The base directory put in front of a bundle and the walk over the result: the loader gets the
      bundle's own archive if its root is one directory, and otherwise that archive with every path
      below the root moved under the base; it gets none exactly when something is unreadable. */
  method ChartArchive(root: Node, base: string) returns (r: Option<seq<Entry>>)
    requires root.Dir? && WellFormed(root.kids) && Segment(base)
    ensures r.Some? <==> Readable(root.kids)
    ensures r.Some? ==> r.value == if OneDirectory(root) then ArchiveOf(root)
            else [Entry(".", DirEntry(SYNTHESIZED)), Entry(base, DirEntry(0))] + Prefixed(base, ArchiveOf(root)[1..])
  {
    ghost var kids := root.kids;
    CleanSegment(base);
    RootListing(kids);
    var ensured := EnsureBaseDirFS(Tree(root), base);
    assert ensured == Success(if OneDirectory(root) then Tree(root) else Based(Tree(root), base));
    ghost var shown := root;
    if !OneDirectory(root) {
      BasedPresentsWrapped(Tree(root), base, root);
      WrappedArchive(base, root);
      shown := Wrap(base, root);
    }
    r := ArchiveView(ensured.value, shown);
  }
}
