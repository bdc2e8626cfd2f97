/** EnsureBaseDirFS: a filesystem view with exactly one directory in its root, by translating
    paths where the filesystem does not have that shape already. */
module BaseDir {
  import opened Text
  import opened Paths
  import opened Archive

  /** What a directory listing says of an entry. */
  datatype Info = DirInfo(mode: nat) | FileInfo(mode: nat) | LinkInfo | BrokenInfo

  datatype Listed = Listed(name: string, info: Info)

  /** What opening a path shows: a listing, or a node that is not a directory. */
  datatype View = Listing(entries: seq<Listed>) | Leaf(node: Node)

  datatype FS = Tree(root: Node) | Based(inner: FS, baseDir: string)

  datatype Error = MultipleSegments | ReadFailed

  function InfoOf(n: Node): Info {
    match n
    case Dir(mode, _) => DirInfo(mode)
    case File(mode, _) => FileInfo(mode)
    case Symlink(_) => LinkInfo
    case Broken => BrokenInfo
  }

  function ListingOf(f: Forest): seq<Listed> {
    match f case Nil => [] case Cons(n, node, rest) => [Listed(n, InfoOf(node))] + ListingOf(rest)
  }

  function ViewOf(n: Node): View {
    if n.Dir? then Listing(ListingOf(n.kids)) else Leaf(n)
  }

  // ---- opening paths ----

  /** io/fs names: "." or slash-separated segments. */
  predicate ValidName(name: string) {
    var path := PathOf(name);
    forall i :: 0 <= i < |path| ==> Segment(path[i])
  }

  function OpenTree(root: Node, name: string): Option<View> {
    if !ValidName(name) then None
    else match Lookup(root, PathOf(name)) case Some(n) => Some(ViewOf(n)) case None => None
  }

  /** The mode of a directory that fstest.MapFS makes up. */
  const SYNTHESIZED := 365 // 0555

  /** The root that a one-entry fstest.MapFS lists: its entry, or the made-up directory above it. */
  function RootEntries(base: string): seq<Listed> {
    if base == "." then []
    else if '/' in base then [Listed(Split(base, '/')[0], DirInfo(SYNTHESIZED))]
    else [Listed(base, DirInfo(0))]
  }

  /** The mode that stat gives for the root. */
  function RootMode(fs: FS): Option<nat> {
    match fs
    case Tree(root) => if root.Dir? then Some(root.mode) else None
    case Based(_, base) => Some(if base == "." then 0 else SYNTHESIZED)
  }

  /** fs.FS.Open, and baseDirFS.Open where a base directory was put in front. */
  function Open(fs: FS, name: string): Option<View> {
    match fs
    case Tree(root) => OpenTree(root, name)
    case Based(inner, base) =>
      if name == "." then Some(Listing(RootEntries(base)))
      else if name == base then Open(inner, ".")
      else if base + "/" <= name then
        var sub := name[|base| + 1..];
        Open(inner, if sub == "" then "." else sub)
      else None
  }

  /** util.EnsureBaseDirFS.  A cleaned name has a directory part exactly when it has a slash. */
  function EnsureBaseDirFS(fs: FS, base: string): Result<FS, Error> {
    if '/' in Clean(base) then Failure(MultipleSegments)
    else match Open(fs, ".")
      case Some(Listing(es)) => Success(if |es| == 1 && es[0].info.DirInfo? then fs else Based(fs, base))
      case _ => Failure(ReadFailed)
  }

  /** What translation does to any name: below the base the rest of the name is opened, the base and
      the base with a slash open the root, and nothing else opens but the new root. */
  lemma {:induction false} TranslatedNames(fs: FS, base: string, sub: string, other: string)
    requires base != "."
    ensures sub != "" && base + "/" + sub != "." ==> Open(Based(fs, base), base + "/" + sub) == Open(fs, sub)
    ensures Open(Based(fs, base), base) == Open(fs, ".")
    ensures base != "" ==> Open(Based(fs, base), base + "/") == Open(fs, ".")
    ensures other != "." && other != base && !(base + "/" <= other) ==> Open(Based(fs, base), other) == None
  {
    assert (base + "/" + sub)[|base| + 1..] == sub;
    assert (base + "/")[|base| + 1..] == "";
    assert base + "/" <= base + "/" + sub;
    assert |base + "/"| == |base| + 1;
  }

  // ---- one directory in the root ----

  ghost predicate SingleDirectory(fs: FS) {
    exists n, mode :: Open(fs, ".") == Some(Listing([Listed(n, DirInfo(mode))]))
  }

  lemma {:induction false} SingleListing(fs: FS)
    requires Open(fs, ".").Some? && Open(fs, ".").value.Listing?
    ensures var es := Open(fs, ".").value.entries;
            SingleDirectory(fs) <==> |es| == 1 && es[0].info.DirInfo?
  {
    var es := Open(fs, ".").value.entries;
    if |es| == 1 && es[0].info.DirInfo? {
      assert es == [Listed(es[0].name, DirInfo(es[0].info.mode))];
    }
  }

  /** For a base name of one segment the result always shows exactly one directory in its root,
      and ensuring it again, with any such name, changes nothing. */
  lemma {:induction false} EnsuresSingleDirectory(fs: FS, base: string, again: string)
    requires Segment(base) && Segment(again) && Open(fs, ".").Some? && Open(fs, ".").value.Listing?
    ensures EnsureBaseDirFS(fs, base).Success?
    ensures var out := EnsureBaseDirFS(fs, base).value;
            && SingleDirectory(out) && EnsureBaseDirFS(out, again) == Success(out)
            && (SingleDirectory(fs) ==> out == fs)
  {
    CleanSegment(base);
    CleanSegment(again);
    SingleListing(fs);
    SingleListing(EnsureBaseDirFS(fs, base).value);
  }

  /** A base name that cleans to several segments is refused. */
  lemma {:induction false} MultipleSegmentsRefused(fs: FS, a: string, b: string)
    requires Segment(a) && Segment(b)
    ensures EnsureBaseDirFS(fs, a + "/" + b) == Failure(MultipleSegments)
  {
    CleanSegment(a);
    JoinAppends(a, b);
    SplitFree(a, '/');
    assert Settled(false, [a]);
    ResolveFixed(false, [], [a]);
    assert [] + [a] == [a];
    assert Resolved(a) == [a];
    assert Clean(a + "/" + b) == Join([a] + [b], '/');
    assert Join([a] + [b], '/')[|a|] == '/';
  }

  // ---- translation is wrapping ----

  /** The tree with a base directory above it. */
  function Wrap(base: string, root: Node): Node
    requires root.Dir?
  {
    Dir(SYNTHESIZED, Cons(base, Dir(0, root.kids), Nil))
  }

  /** A filesystem shows a tree: opening any valid name shows what is at that name in the tree. */
  ghost predicate Presents(fs: FS, root: Node) {
    forall name :: ValidName(name) ==> Open(fs, name) == OpenTree(root, name)
  }

  lemma {:induction false} WrapLookup(base: string, root: Node, path: seq<string>)
    requires root.Dir? && path != []
    ensures var found := Lookup(Wrap(base, root), path);
            if path[0] != base then found == None
            else if |path| == 1 then found == Some(Dir(0, root.kids))
            else found == Lookup(root, path[1..])
  {
    var w := Wrap(base, root);
    assert Find(w.kids, path[0]) == if path[0] == base then Some(Dir(0, root.kids)) else None;
    if path[0] == base && |path| > 1 {
      assert Lookup(Dir(0, root.kids), path[1..]) == Lookup(root, path[1..]);
    }
  }

  /** baseDirFS translates paths exactly as if the tree stood below the base directory. */
  lemma {:induction false} BasedPresentsWrapped(fs: FS, base: string, root: Node)
    requires Segment(base) && root.Dir? && Presents(fs, root)
    ensures Presents(Based(fs, base), Wrap(base, root))
  {
    forall name | ValidName(name)
      ensures Open(Based(fs, base), name) == OpenTree(Wrap(base, root), name)
    {
      if name == "." {
        assert ListingOf(Cons(base, Dir(0, root.kids), Nil)) == [Listed(base, DirInfo(0))];
      } else {
        TranslatedOpen(fs, base, root, name);
      }
    }
  }

  lemma {:induction false} TranslatedOpen(fs: FS, base: string, root: Node, name: string)
    requires Segment(base) && root.Dir? && Presents(fs, root) && ValidName(name) && name != "."
    ensures Open(Based(fs, base), name) == OpenTree(Wrap(base, root), name)
  {
    var path := PathOf(name);
    JoinSplit(name, '/');
    WrapLookup(base, root, path);
    SplitFree(base, '/');
    if path[0] == base && |path| > 1 {
      assert name == base + ['/'] + Join(path[1..], '/');
      assert base + "/" <= name;
    }
    if base + "/" <= name {
      var sub := name[|base| + 1..];
      assert name == base + ['/'] + sub;
      SplitAtSeparator(base, '/', sub);
      assert path == [base] + Split(sub, '/');
      assert path[1..] == Split(sub, '/');
      assert Segment(path[1]);
      SplitFree(".", '/');
      assert sub != "" && sub != ".";
      assert PathOf(sub) == path[1..] && ValidName(sub);
    } else if name == base {
      assert ValidName(".");
    }
  }

  /** Text whose parts are all segments is already clean, and a segment itself if slash-free. */
  lemma {:induction false} SegmentsAreClean(text: string)
    requires Segments(Split(text, '/'))
    ensures Clean(text) == text && ('/' !in text ==> Segment(text))
  {
    var parts := Split(text, '/');
    assert Segment(parts[0]);
    JoinSplit(text, '/');
    if '/' !in text { SplitFree(text, '/'); }
    assert Settled(false, parts);
    JoinStart(parts);
    assert [] + parts == parts;
    ResolveFixed(false, [], parts);
  }

  /** The check cleans the base name but the wrapper keeps it as given, so the content can be
      opened through an accepted wrapper exactly when the given name is a segment. */
  lemma {:induction false} UsableExactlyWhenSegment(fs: FS, base: string)
    requires EnsureBaseDirFS(fs, base) == Success(Based(fs, base))
    ensures (exists name :: ValidName(name) && name != "." && Open(Based(fs, base), name).Some?) <==> Segment(base)
  {
    if Segment(base) {
      SplitFree(base, '/');
      assert ValidName(base) && base != ".";
      assert Open(Based(fs, base), base).Some?;
    }
    if name :| ValidName(name) && name != "." && Open(Based(fs, base), name).Some? {
      var parts := Split(base, '/');
      if name != base {
        var sub := name[|base| + 1..];
        assert name == base + ['/'] + sub;
        SplitAtSeparator(base, '/', sub);
        forall i | 0 <= i < |parts| ensures Segment(parts[i]) { assert PathOf(name)[i] == parts[i]; }
      }
      SegmentsAreClean(base);
    }
  }

  /** A segment with a slash after it is accepted, its root lists the segment, and nothing below
      the root opens, not even what was listed. */
  lemma {:induction false} TrailingSlashLosesContent(fs: FS, s: string)
    requires Segment(s) && Open(fs, ".").Some? && Open(fs, ".").value.Listing? && !SingleDirectory(fs)
    ensures EnsureBaseDirFS(fs, s + "/") == Success(Based(fs, s + "/"))
    ensures Open(Based(fs, s + "/"), ".") == Some(Listing([Listed(s, DirInfo(SYNTHESIZED))]))
    ensures forall name :: ValidName(name) && name != "." ==> Open(Based(fs, s + "/"), name) == None
  {
    var base := s + "/";
    CleanTrailingSlash(s);
    SingleListing(fs);
    assert base[|s|] == '/';
    UsableExactlyWhenSegment(fs, base);
  }

  lemma {:induction false} CleanTrailingSlash(s: string)
    requires Segment(s)
    ensures Clean(s + "/") == s && Split(s + "/", '/') == [s, ""]
  {
    assert s + "/" == s + ['/'] + "";
    SplitAtSeparator(s, '/', "");
    SplitFree(s, '/');
    ResolveConcat(false, [], [s], [""]);
    assert Resolve(false, [s], [""]) == Resolve(false, [s], []);
    assert Resolve(false, [], [s]) == Resolve(false, [s], []);
    assert [s] + [""] == [s, ""];
    assert (s + "/")[0] == s[0] != '/';
  }

  /** "." is accepted as well, and then the root is empty. */
  lemma {:induction false} DotHidesContent(fs: FS)
    requires Open(fs, ".").Some? && Open(fs, ".").value.Listing? && !SingleDirectory(fs)
    ensures EnsureBaseDirFS(fs, ".") == Success(Based(fs, "."))
    ensures Open(Based(fs, "."), ".") == Some(Listing([])) && RootMode(Based(fs, ".")) == Some(0)
  {
    SingleListing(fs);
    SplitFree(".", '/');
    assert Resolve(false, [], ["."]) == Resolve(false, [], []);
  }

  /** It happens: an empty bundle and the name "chart/". */
  lemma {:induction false} UnusableBaseExists()
    ensures EnsureBaseDirFS(Tree(Dir(0, Nil)), "chart/") == Success(Based(Tree(Dir(0, Nil)), "chart/"))
    ensures Open(Based(Tree(Dir(0, Nil)), "chart/"), "chart") == None
    ensures !exists name :: ValidName(name) && name != "." && Open(Based(Tree(Dir(0, Nil)), "chart/"), name).Some?
  {
    var fs := Tree(Dir(0, Nil));
    assert Open(fs, ".") == Some(Listing([]));
    assert "chart" + "/" == "chart/";
    TrailingSlashLosesContent(fs, "chart");
  }

  // ---- archives of wrapped trees ----

  /** Entries moved below a base directory. */
  function Prefixed(base: string, es: seq<Entry>): seq<Entry> {
    seq(|es|, i requires 0 <= i < |es| => Entry(base + "/" + es[i].name, es[i].content))
  }

  /** The archive of a wrapped tree is the archive of the tree with every path below its root
      prefixed by the base directory, after the two directories that stand above them. */
  lemma {:induction false} WrappedArchive(base: string, root: Node)
    requires root.Dir? && Segment(base) && WellFormed(root.kids)
    ensures ArchiveOf(Wrap(base, root))
            == [Entry(".", DirEntry(SYNTHESIZED)), Entry(base, DirEntry(0))] + Prefixed(base, ArchiveOf(root)[1..])
  {
    var items := Items(root.kids);
    ItemsRooted(root.kids);
    PrefixedTexts(base, items);
    TextsConcat([Item([], DirEntry(root.mode))], items);
    TextsConcat([Item([base], DirEntry(0))], Under([base], items));
    var inner := [Item([base], DirEntry(0))] + Under([base], items);
    assert Items(Cons(base, Dir(0, root.kids), Nil)) == inner;
    TextsConcat([Item([], DirEntry(SYNTHESIZED))], inner);
    assert ArchiveOf(root)[1..] == Texts(items);
    assert Texts([Item([], DirEntry(SYNTHESIZED))]) + Texts([Item([base], DirEntry(0))])
        == [Entry(".", DirEntry(SYNTHESIZED)), Entry(base, DirEntry(0))];
  }

  lemma {:induction false} TextsConcat(a: seq<Item>, b: seq<Item>)
    ensures Texts(a + b) == Texts(a) + Texts(b)
  {
  }

  lemma {:induction false} PrefixedTexts(base: string, items: seq<Item>)
    requires BelowRoot(items)
    ensures Texts(Under([base], items)) == Prefixed(base, Texts(items))
  {
    forall i | 0 <= i < |items| ensures Texts(Under([base], items))[i] == Prefixed(base, Texts(items))[i] {
      assert ([base] + items[i].path)[1..] == items[i].path;
    }
  }
}
