/** Bundle archives: the entries FSToTarGZ writes for a file tree, and the tree a reader
    rebuilds from them.  The tar and gzip encodings themselves are taken to be lossless. */
module Archive {
  import opened Text
  import opened Paths

  type Bytes = string

  /** A file tree.  Broken stands for anything the walk cannot read or write a header for. */
  datatype Node =
    | File(mode: nat, data: Bytes)
    | Symlink(target: string)
    | Broken
    | Dir(mode: nat, kids: Forest)

  /** The entries of a directory in the order ReadDir lists them. */
  datatype Forest = Nil | Cons(name: string, node: Node, rest: Forest)

  datatype Content = DirEntry(mode: nat) | FileEntry(mode: nat, data: Bytes)

  /** A tar entry.  Owner and group are unset by the writer. */
  datatype Entry = Entry(name: string, content: Content)

  // ---- trees ----

  function Names(f: Forest): set<string> {
    match f case Nil => {} case Cons(n, _, rest) => {n} + Names(rest)
  }

  /** Directory entries are single segments, each name once. */
  ghost predicate WellFormed(f: Forest) {
    match f
    case Nil => true
    case Cons(n, node, rest) =>
      Segment(n) && n !in Names(rest) && (node.Dir? ==> WellFormed(node.kids)) && WellFormed(rest)
  }

  predicate Readable(f: Forest) {
    match f
    case Nil => true
    case Cons(_, node, rest) => !node.Broken? && (node.Dir? ==> Readable(node.kids)) && Readable(rest)
  }

  /** The forest without its symbolic links. */
  function Prune(f: Forest): Forest {
    match f
    case Nil => Nil
    case Cons(n, node, rest) =>
      if node.Symlink? then Prune(rest)
      else Cons(n, if node.Dir? then Dir(node.mode, Prune(node.kids)) else node, Prune(rest))
  }

  function Append(f: Forest, g: Forest): Forest {
    match f case Nil => g case Cons(n, node, rest) => Cons(n, node, Append(rest, g))
  }

  // ---- nodes by path ----

  function Find(f: Forest, name: string): Option<Node> {
    match f case Nil => None case Cons(n, node, rest) => if n == name then Some(node) else Find(rest, name)
  }

  function Lookup(n: Node, path: seq<string>): Option<Node>
    decreases |path|
  {
    if path == [] then Some(n)
    else if !n.Dir? then None
    else match Find(n.kids, path[0])
      case Some(k) => Lookup(k, path[1..])
      case None => None
  }

  // ---- what the walk writes ----

  /** A path below the root as the list of its segments, with what the walk writes there. */
  datatype Item = Item(path: seq<string>, content: Content)

  function Under(dir: seq<string>, items: seq<Item>): seq<Item> {
    seq(|items|, i requires 0 <= i < |items| => Item(dir + items[i].path, items[i].content))
  }

  function Items(f: Forest): seq<Item>
    decreases f
  {
    match f
    case Nil => []
    case Cons(n, node, rest) => NodeItems(n, node) + Items(rest)
  }

  function NodeItems(n: string, node: Node): seq<Item>
    decreases node
  {
    match node
    case File(mode, data) => [Item([n], FileEntry(mode, data))]
    case Dir(mode, kids) => [Item([n], DirEntry(mode))] + Under([n], Items(kids))
    case Symlink(_) => []
    case Broken => []
  }

  /** The name the walk gives a path: "." for the root, slash-separated below it. */
  function PathText(path: seq<string>): string {
    if path == [] then "." else Join(path, '/')
  }

  function Texts(items: seq<Item>): seq<Entry> {
    seq(|items|, i requires 0 <= i < |items| => Entry(PathText(items[i].path), items[i].content))
  }

  /** The archive of a tree: the root, then everything below it. */
  function ArchiveOf(root: Node): seq<Entry>
    requires root.Dir?
  {
    Texts([Item([], DirEntry(root.mode))] + Items(root.kids))
  }

  // ---- the writer ----

  class TarWriter {
    var entries: seq<Entry>

    constructor ()
      ensures entries == []
    {
      entries := [];
    }

    method WriteHeader(name: string, content: Content)
      modifies this
      ensures entries == old(entries) + [Entry(name, content)]
    {
      entries := entries + [Entry(name, content)];
    }
  }

  /** The walk below a directory: one header per entry that is not a symbolic link, in order,
      stopping at the first failure. */
  method Walk(tw: TarWriter, dir: seq<string>, f: Forest) returns (ok: bool)
    modifies tw
    ensures ok <==> Readable(f)
    ensures ok ==> tw.entries == old(tw.entries) + Written(dir, Items(f))
    decreases f
  {
    match f {
      case Nil =>
        ok := true;
      case Cons(n, node, rest) =>
        ok := WalkNode(tw, dir, n, node);
        if !ok { return; }
        ok := Walk(tw, dir, rest);
        if !ok { return; }
        WrittenConcat(dir, NodeItems(n, node), Items(rest));
        Associate(old(tw.entries), Written(dir, NodeItems(n, node)), Written(dir, Items(rest)));
    }
  }

  method WalkNode(tw: TarWriter, dir: seq<string>, n: string, node: Node) returns (ok: bool)
    modifies tw
    ensures ok <==> !node.Broken? && (node.Dir? ==> Readable(node.kids))
    ensures ok ==> tw.entries == old(tw.entries) + Written(dir, NodeItems(n, node))
    decreases node
  {
    var path := dir + [n];
    match node {
      case Symlink(_) =>
        ok := true;
      case Broken =>
        ok := false;
      case File(mode, data) =>
        tw.WriteHeader(PathText(path), FileEntry(mode, data));
        ok := true;
      case Dir(mode, kids) =>
        tw.WriteHeader(PathText(path), DirEntry(mode));
        ok := Walk(tw, path, kids);
        if !ok { return; }
        var head := [Item([n], DirEntry(mode))];
        WrittenConcat(dir, head, Under([n], Items(kids)));
        UnderUnder(dir, [n], Items(kids));
        assert Written(dir, head) == [Entry(PathText(path), DirEntry(mode))];
        Associate(old(tw.entries), Written(dir, head), Written(path, Items(kids)));
    }
  }

  /** The entries written for items found below a directory. */
  function Written(dir: seq<string>, items: seq<Item>): seq<Entry> {
    Texts(Under(dir, items))
  }

  lemma {:induction false} WrittenConcat(dir: seq<string>, a: seq<Item>, b: seq<Item>)
    ensures Written(dir, a + b) == Written(dir, a) + Written(dir, b)
  {
  }

  lemma {:induction false} Associate(a: seq<Entry>, b: seq<Entry>, c: seq<Entry>)
    ensures (a + b) + c == a + (b + c)
  {
  }

  lemma {:induction false} UnderUnder(a: seq<string>, b: seq<string>, items: seq<Item>)
    ensures Under(a, Under(b, items)) == Under(a + b, items)
  {
    forall i | 0 <= i < |items| ensures Under(a, Under(b, items))[i] == Under(a + b, items)[i] {
      assert a + (b + items[i].path) == (a + b) + items[i].path;
    }
  }

  /** util.FSToTarGZ. */
  method FSToTarGZ(root: Node) returns (r: Option<seq<Entry>>)
    requires root.Dir?
    ensures r.Some? <==> Readable(root.kids)
    ensures r.Some? ==> r.value == ArchiveOf(root)
  {
    var tw := new TarWriter();
    tw.WriteHeader(PathText([]), DirEntry(root.mode));
    var ok := Walk(tw, [], root.kids);
    if !ok { return None; }
    ArchiveStarts(root);
    r := Some(tw.entries);
  }

  lemma {:induction false} ArchiveStarts(root: Node)
    requires root.Dir?
    ensures ArchiveOf(root) == [Entry(PathText([]), DirEntry(root.mode))] + Written([], Items(root.kids))
  {
    var items := Items(root.kids);
    forall i | 0 <= i < |items| ensures Under([], items)[i] == items[i] { assert [] + items[i].path == items[i].path; }
    assert Under([], items) == items;
  }

  // ---- the reader ----

  function NodeFor(c: Content): Node {
    match c case DirEntry(mode) => Dir(mode, Nil) case FileEntry(mode, data) => File(mode, data)
  }

  /** Puts a node at a path: over what is there, or last in a directory that is there. */
  function Put(f: Forest, path: seq<string>, node: Node): Forest
    requires path != []
    decreases |path|, f
  {
    match f
    case Nil => if |path| == 1 then Cons(path[0], node, Nil) else Nil
    case Cons(n, there, rest) =>
      if n != path[0] then Cons(n, there, Put(rest, path, node))
      else if |path| == 1 then Cons(n, node, rest)
      else if there.Dir? then Cons(n, Dir(there.mode, Put(there.kids, path[1..], node)), rest)
      else f
  }

  function PutAll(f: Forest, items: seq<Item>): Forest
    requires forall i :: 0 <= i < |items| ==> items[i].path != []
    decreases |items|
  {
    if items == [] then f else PutAll(Put(f, items[0].path, NodeFor(items[0].content)), items[1..])
  }

  function PathOf(name: string): seq<string> {
    if name == "." then [] else Split(name, '/')
  }

  function Parsed(entries: seq<Entry>): seq<Item> {
    seq(|entries|, i requires 0 <= i < |entries| => Item(PathOf(entries[i].name), entries[i].content))
  }

  /** The tree a reader makes of an archive: the root from its first entry, the rest put in
      entry by entry. */
  function Rebuild(entries: seq<Entry>): Option<Node> {
    var items := Parsed(entries);
    if |items| == 0 || items[0].path != [] || !items[0].content.DirEntry? then None
    else if exists i :: 1 <= i < |items| && items[i].path == [] then None
    else Some(Dir(items[0].content.mode, PutAll(Nil, items[1..])))
  }

  // ---- reading back what was written ----

  ghost predicate BelowRoot(items: seq<Item>) {
    forall i :: 0 <= i < |items| ==> items[i].path != [] && Segments(items[i].path)
  }

  lemma {:induction false} ItemsRooted(f: Forest)
    requires WellFormed(f)
    ensures BelowRoot(Items(f))
  {
    match f {
      case Nil =>
      case Cons(n, node, rest) =>
        ItemsRooted(rest);
        if node.Dir? { ItemsRooted(node.kids); }
    }
  }

  lemma {:induction false} PathTextReadsBack(path: seq<string>)
    requires Segments(path)
    ensures PathOf(PathText(path)) == path
  {
    if path != [] {
      SplitJoin(path, '/');
      SplitFree(".", '/');
      assert path != ["."] by { assert Segment(path[0]); }
    }
  }

  lemma {:induction false} TextsReadBack(items: seq<Item>)
    requires forall i :: 0 <= i < |items| ==> Segments(items[i].path)
    ensures Parsed(Texts(items)) == items
  {
    forall i | 0 <= i < |items| ensures Parsed(Texts(items))[i] == items[i] {
      PathTextReadsBack(items[i].path);
    }
  }

  lemma {:induction false} PutAllConcat(f: Forest, a: seq<Item>, b: seq<Item>)
    requires BelowRoot(a) && BelowRoot(b)
    ensures PutAll(f, a + b) == PutAll(PutAll(f, a), b)
    decreases |a|
  {
    if a == [] {
      assert a + b == b;
    } else {
      assert (a + b)[1..] == a[1..] + b;
      PutAllConcat(Put(f, a[0].path, NodeFor(a[0].content)), a[1..], b);
    }
  }

  lemma {:induction false} PutFresh(pre: Forest, n: string, node: Node)
    requires n !in Names(pre)
    ensures Put(pre, [n], node) == Append(pre, Cons(n, node, Nil))
  {
    match pre { case Nil => case Cons(_, _, rest) => PutFresh(rest, n, node); }
  }

  /** Putting below the last directory of a forest works inside that directory. */
  lemma {:induction false} PutBelow(pre: Forest, n: string, mode: nat, kids: Forest, path: seq<string>, node: Node)
    requires n !in Names(pre) && path != []
    ensures Put(Append(pre, Cons(n, Dir(mode, kids), Nil)), [n] + path, node)
            == Append(pre, Cons(n, Dir(mode, Put(kids, path, node)), Nil))
  {
    match pre {
      case Nil => assert ([n] + path)[1..] == path;
      case Cons(_, _, rest) => PutBelow(rest, n, mode, kids, path, node);
    }
  }

  lemma {:induction false} PutAllBelow(pre: Forest, n: string, mode: nat, kids: Forest, items: seq<Item>)
    requires n !in Names(pre) && BelowRoot(items) && Segment(n)
    ensures BelowRoot(Under([n], items))
    ensures PutAll(Append(pre, Cons(n, Dir(mode, kids), Nil)), Under([n], items))
            == Append(pre, Cons(n, Dir(mode, PutAll(kids, items)), Nil))
    decreases |items|
  {
    if items != [] {
      PutBelow(pre, n, mode, kids, items[0].path, NodeFor(items[0].content));
      PutAllBelow(pre, n, mode, Put(kids, items[0].path, NodeFor(items[0].content)), items[1..]);
      assert Under([n], items)[1..] == Under([n], items[1..]);
    }
  }

  lemma {:induction false} AppendNames(f: Forest, g: Forest)
    ensures Names(Append(f, g)) == Names(f) + Names(g)
  {
    match f { case Nil => case Cons(_, _, rest) => AppendNames(rest, g); }
  }

  lemma {:induction false} AppendAssociative(f: Forest, g: Forest, h: Forest)
    ensures Append(Append(f, g), h) == Append(f, Append(g, h))
  {
    match f { case Nil => case Cons(_, _, rest) => AppendAssociative(rest, g, h); }
  }

  lemma {:induction false} AppendNil(f: Forest)
    ensures Append(f, Nil) == f
  {
    match f { case Nil => case Cons(_, _, rest) => AppendNil(rest); }
  }

  /** Putting in what the walk of a forest writes, after entries of other names, adds exactly
      the pruned forest. */
  lemma {:induction false} PutAllItems(pre: Forest, f: Forest)
    requires WellFormed(f) && Readable(f) && Names(pre) !! Names(f)
    ensures BelowRoot(Items(f)) && PutAll(pre, Items(f)) == Append(pre, Prune(f))
    decreases f
  {
    ItemsRooted(f);
    match f {
      case Nil => AppendNil(pre);
      case Cons(n, node, rest) =>
        ItemsRooted(rest);
        var head := NodeItems(n, node);
        ItemsRooted(Cons(n, node, Nil));
        assert Items(Cons(n, node, Nil)) == head;
        PutAllConcat(pre, head, Items(rest));
        if node.Symlink? {
          PutAllItems(pre, rest);
        } else {
          var one := Cons(n, if node.Dir? then Dir(node.mode, Prune(node.kids)) else node, Nil);
          assert PutAll(pre, head) == Append(pre, one) by { PutAllHead(pre, n, node); }
          AppendNames(pre, one);
          PutAllItems(Append(pre, one), rest);
          AppendAssociative(pre, one, Prune(rest));
        }
    }
  }

  lemma {:induction false} PutAllHead(pre: Forest, n: string, node: Node)
    requires Segment(n) && n !in Names(pre)
    requires node.File? || (node.Dir? && WellFormed(node.kids) && Readable(node.kids))
    ensures BelowRoot(NodeItems(n, node))
    ensures PutAll(pre, NodeItems(n, node))
            == Append(pre, Cons(n, if node.Dir? then Dir(node.mode, Prune(node.kids)) else node, Nil))
    decreases node
  {
    match node {
      case File(mode, data) =>
        PutFresh(pre, n, node);
        assert NodeItems(n, node)[1..] == [];
      case Dir(mode, kids) =>
        PutFresh(pre, n, Dir(mode, Nil));
        PutAllItems(Nil, kids);
        PutAllBelow(pre, n, mode, Nil, Items(kids));
        assert NodeItems(n, node)[1..] == Under([n], Items(kids));
      case _ =>
    }
  }

  /** Rebuilding what FSToTarGZ wrote gives back exactly the tree without its symbolic links. */
  lemma {:induction false} RebuildArchive(root: Node)
    requires root.Dir? && WellFormed(root.kids) && Readable(root.kids)
    ensures Rebuild(ArchiveOf(root)) == Some(Dir(root.mode, Prune(root.kids)))
  {
    var items := Items(root.kids);
    PutAllItems(Nil, root.kids);
    var all := [Item([], DirEntry(root.mode))] + items;
    TextsReadBack(all);
    assert all[1..] == items;
  }

  /** Storing what was loaded writes the same archive again. */
  lemma {:induction false} PrunedItems(f: Forest)
    ensures Items(Prune(f)) == Items(f) && Names(Prune(f)) <= Names(f)
    ensures WellFormed(f) ==> WellFormed(Prune(f))
    ensures Readable(f) ==> Readable(Prune(f))
    decreases f
  {
    match f {
      case Nil =>
      case Cons(n, node, rest) =>
        PrunedItems(rest);
        if node.Dir? { PrunedItems(node.kids); }
    }
  }

  // ---- trees by path ----

  lemma {:induction false} FindNamed(f: Forest, name: string)
    ensures Find(f, name).Some? <==> name in Names(f)
  {
    match f { case Nil => case Cons(_, _, rest) => FindNamed(rest, name); }
  }

  /** A tree is readable exactly when nothing in it, at whatever path, is broken. */
  lemma {:induction false} ReadableByPath(mode: nat, f: Forest)
    requires WellFormed(f)
    ensures Readable(f) <==> forall path :: Lookup(Dir(mode, f), path) != Some(Broken)
    decreases f
  {
    if Readable(f) {
      forall path ensures Lookup(Dir(mode, f), path) != Some(Broken) { ReadableNotBroken(mode, f, path); }
    } else {
      var path := BrokenPath(mode, f);
    }
  }

  lemma {:induction false} ReadableNotBroken(mode: nat, f: Forest, path: seq<string>)
    requires Readable(f)
    ensures Lookup(Dir(mode, f), path) != Some(Broken)
    decreases f
  {
    if path != [] && f.Cons? {
      if f.name == path[0] {
        if f.node.Dir? { ReadableNotBroken(f.node.mode, f.node.kids, path[1..]); }
      } else {
        ReadableNotBroken(mode, f.rest, path);
      }
    }
  }

  lemma {:induction false} BrokenPath(mode: nat, f: Forest) returns (path: seq<string>)
    requires WellFormed(f) && !Readable(f)
    ensures path != [] && path[0] in Names(f) && Lookup(Dir(mode, f), path) == Some(Broken)
    decreases f
  {
    if f.node.Broken? {
      path := [f.name];
      assert path[1..] == [];
    } else if f.node.Dir? && !Readable(f.node.kids) {
      var below := BrokenPath(f.node.mode, f.node.kids);
      path := [f.name] + below;
      assert path[1..] == below;
    } else {
      path := BrokenPath(mode, f.rest);
    }
  }

  /** Pruning by path: a link and everything that is not there is gone, and all else is as it was,
      directories pruned in turn. */
  lemma {:induction false} PrunedByPath(mode: nat, f: Forest, path: seq<string>)
    requires WellFormed(f) && path != []
    ensures var was, now := Lookup(Dir(mode, f), path), Lookup(Dir(mode, Prune(f)), path);
            now == match was
                   case None => None
                   case Some(Symlink(_)) => None
                   case Some(Dir(m, kids)) => Some(Dir(m, Prune(kids)))
                   case Some(node) => Some(node)
    decreases f
  {
    match f {
      case Nil =>
      case Cons(n, node, rest) =>
        if n != path[0] {
          PrunedByPath(mode, rest, path);
        } else if node.Symlink? {
          PrunedItems(rest);
          FindNamed(Prune(rest), n);
        } else if node.Dir? && |path| > 1 {
          PrunedByPath(node.mode, node.kids, path[1..]);
        }
    }
  }

  /** What the archive holds for a node. */
  function ContentOf(n: Node): Option<Content> {
    match n
    case File(mode, data) => Some(FileEntry(mode, data))
    case Dir(mode, _) => Some(DirEntry(mode))
    case _ => None
  }

  lemma {:induction false} ItemsByPath(mode: nat, f: Forest, path: seq<string>, c: Content)
    requires WellFormed(f) && path != []
    ensures Item(path, c) in Items(f)
            <==> Lookup(Dir(mode, f), path).Some? && ContentOf(Lookup(Dir(mode, f), path).value) == Some(c)
    decreases f
  {
    match f {
      case Nil =>
      case Cons(n, node, rest) =>
        FirstSegments(rest);
        var head := NodeItems(n, node);
        assert Item(path, c) in Items(f) <==> Item(path, c) in head || Item(path, c) in Items(rest);
        if n != path[0] {
          ItemsByPath(mode, rest, path, c);
          assert forall i :: 0 <= i < |head| ==> head[i].path[0] == n;
        } else {
          assert Item(path, c) !in Items(rest);
          if |path| == 1 {
            assert path == [n] && path[1..] == [];
            if node.Dir? { ItemsRooted(node.kids); }
            assert forall i :: 0 < i < |head| ==> |head[i].path| > 1;
          } else if node.Dir? {
            ItemsByPath(node.mode, node.kids, path[1..], c);
            UnderMember(n, Items(node.kids), path, c);
          }
        }
    }
  }

  lemma {:induction false} UnderMember(n: string, items: seq<Item>, path: seq<string>, c: Content)
    requires |path| > 1 && path[0] == n
    ensures Item(path, c) in Under([n], items) <==> Item(path[1..], c) in items
  {
    assert path == [n] + path[1..];
    if Item(path, c) in Under([n], items) {
      var i :| 0 <= i < |items| && Under([n], items)[i] == Item(path, c);
      assert ([n] + items[i].path)[1..] == items[i].path;
    }
    if Item(path[1..], c) in items {
      var i :| 0 <= i < |items| && items[i] == Item(path[1..], c);
      assert Under([n], items)[i] == Item(path, c);
    }
  }

  /** An archive by path: it holds exactly the files and directories of the tree, each under its path
      with its mode and data. */
  lemma {:induction false} ArchiveByPath(root: Node, path: seq<string>, c: Content)
    requires root.Dir? && WellFormed(root.kids) && Segments(path) && path != []
    ensures Entry(PathText(path), c) in ArchiveOf(root)
            <==> Lookup(root, path).Some? && ContentOf(Lookup(root, path).value) == Some(c)
  {
    var items := Items(root.kids);
    var all := [Item([], DirEntry(root.mode))] + items;
    var es := ArchiveOf(root);
    ItemsRooted(root.kids);
    ItemsByPath(root.mode, root.kids, path, c);
    PathTextReadsBack(path);
    if Entry(PathText(path), c) in es {
      var i :| 0 <= i < |es| && es[i] == Entry(PathText(path), c);
      PathTextReadsBack(all[i].path);
      assert all[i] == Item(path, c);
    }
    if Item(path, c) in items {
      var i :| 0 <= i < |items| && items[i] == Item(path, c);
      assert es[i + 1] == Entry(PathText(path), c);
    }
  }

  // ---- shape of the archive ----

  lemma {:induction false} FirstSegments(f: Forest)
    requires WellFormed(f)
    ensures BelowRoot(Items(f)) && forall i :: 0 <= i < |Items(f)| ==> Items(f)[i].path[0] in Names(f)
  {
    ItemsRooted(f);
    match f { case Nil => case Cons(_, _, rest) => FirstSegments(rest); }
  }

  ghost predicate PathsOnce(items: seq<Item>) {
    forall i, j :: 0 <= i < j < |items| ==> items[i].path != items[j].path
  }

  lemma {:induction false} ItemsOnce(f: Forest)
    requires WellFormed(f)
    ensures PathsOnce(Items(f))
    decreases f
  {
    match f {
      case Nil =>
      case Cons(n, node, rest) =>
        ItemsOnce(rest);
        FirstSegments(rest);
        var head := NodeItems(n, node);
        if node.Dir? {
          ItemsOnce(node.kids);
          ItemsRooted(node.kids);
          UnderOnce(n, Items(node.kids));
        }
        assert forall i :: 0 <= i < |head| ==> head[i].path[0] == n;
    }
  }

  lemma {:induction false} UnderOnce(n: string, items: seq<Item>)
    requires PathsOnce(items) && BelowRoot(items)
    ensures PathsOnce(Under([n], items)) && forall i :: 0 <= i < |items| ==> Under([n], items)[i].path != [n]
  {
    var below := Under([n], items);
    forall i, j | 0 <= i < j < |items| ensures below[i].path != below[j].path {
      assert below[i].path[1..] == items[i].path && below[j].path[1..] == items[j].path;
    }
    forall i | 0 <= i < |items| ensures below[i].path != [n] { assert |below[i].path| > 1; }
  }

  /** The item at i has its parent directory among the items before it. */
  ghost predicate HasParent(items: seq<Item>, i: nat)
    requires i < |items| && items[i].path != []
  {
    var parent := items[i].path[..|items[i].path| - 1];
    parent == [] || exists j :: 0 <= j < i && items[j].path == parent && items[j].content.DirEntry?
  }

  lemma {:induction false} ItemsHaveParents(f: Forest, i: nat)
    requires WellFormed(f) && i < |Items(f)|
    ensures Items(f)[i].path != [] && HasParent(Items(f), i)
    decreases f
  {
    ItemsRooted(f);
    var items, n, node := Items(f), f.name, f.node;
    var head := NodeItems(n, node);
    if i >= |head| {
      var k := i - |head|;
      ItemsHaveParents(f.rest, k);
      ParentShifts(head, Items(f.rest), k);
    } else if node.Dir? && i > 0 {
      ItemsHaveParents(node.kids, i - 1);
      ParentBelow(n, node.mode, Items(node.kids), i - 1);
      ParentStays(head, Items(f.rest), i);
    }
  }

  lemma {:induction false} ParentBelow(n: string, mode: nat, inner: seq<Item>, k: nat)
    requires k < |inner| && inner[k].path != [] && HasParent(inner, k)
    ensures HasParent([Item([n], DirEntry(mode))] + Under([n], inner), k + 1)
  {
    var all := [Item([n], DirEntry(mode))] + Under([n], inner);
    var p := inner[k].path;
    assert all[k + 1].path == [n] + p;
    if |p| == 1 {
      assert all[0].path == all[k + 1].path[..1];
    } else {
      var j :| 0 <= j < k && inner[j].path == p[..|p| - 1] && inner[j].content.DirEntry?;
      assert all[j + 1].path == [n] + inner[j].path;
      assert all[k + 1].path[..|p|] == [n] + p[..|p| - 1];
    }
  }

  lemma {:induction false} ParentStays(a: seq<Item>, b: seq<Item>, k: nat)
    requires k < |a| && a[k].path != [] && HasParent(a, k)
    ensures HasParent(a + b, k)
  {
    var parent := a[k].path[..|a[k].path| - 1];
    if parent != [] {
      var j :| 0 <= j < k && a[j].path == parent && a[j].content.DirEntry?;
      assert (a + b)[j] == a[j];
    }
  }

  lemma {:induction false} ParentShifts(a: seq<Item>, b: seq<Item>, k: nat)
    requires k < |b| && b[k].path != [] && HasParent(b, k)
    ensures HasParent(a + b, |a| + k)
  {
    var parent := b[k].path[..|b[k].path| - 1];
    if parent != [] {
      var j :| 0 <= j < k && b[j].path == parent && b[j].content.DirEntry?;
      assert (a + b)[|a| + j] == b[j];
    }
  }

  /** In an archive the root comes first, each path is written once, and every other entry
      follows the directory entry of its parent. */
  lemma {:induction false} ArchiveShape(root: Node)
    requires root.Dir? && WellFormed(root.kids)
    ensures var es := ArchiveOf(root);
            && es[0] == Entry(".", DirEntry(root.mode))
            && (forall i, j :: 0 <= i < j < |es| ==> es[i].name != es[j].name)
            && (forall i :: 0 < i < |es| ==> Parsed(es)[i].path != [] && HasParent(Parsed(es), i))
  {
    var items := Items(root.kids);
    var head := [Item([], DirEntry(root.mode))];
    var all := head + items;
    ItemsRooted(root.kids);
    ItemsOnce(root.kids);
    TextsReadBack(all);
    var es := ArchiveOf(root);
    forall i, j | 0 <= i < j < |es| ensures es[i].name != es[j].name {
      assert Parsed(es)[i].path != Parsed(es)[j].path;
    }
    forall i | 0 < i < |es| ensures Parsed(es)[i].path != [] && HasParent(Parsed(es), i) {
      ItemsHaveParents(root.kids, i - 1);
      ParentShifts(head, items, i - 1);
    }
  }
}
