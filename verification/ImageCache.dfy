/** The image unpack cache: one directory per bundle and digest, filled from a content-addressed
    registry whose tags may move.  A directory's content is the list of layers applied to it, so
    everything here holds for any way of applying a layer. */
module ImageCache {
  import opened Text
  import Admission
  import ConfigMapSource

  type Layer = string
  type Dir = seq<Layer>

  /** The hexadecimal text of a SHA-256 digest. */
  type Hex = h: string | IsHex(h) witness seq(64, _ => '0')

  predicate IsHex(text: string) {
    |text| == 64 && forall i :: 0 <= i < |text| ==> '0' <= text[i] <= '9' || 'a' <= text[i] <= 'f'
  }

  datatype ImageSource = ImageSource(ref: string, pullSecret: string, insecure: bool, certificateData: string)

  datatype Bundle = Bundle(name: string, image: Option<ImageSource>)

  /** A parsed reference: the repository's full name and, for a pinned one, its digest. */
  datatype ImageRef = ImageRef(repository: string, digest: Option<Hex>)

  /** name.ParseReference. */
  type Parser = string -> Option<ImageRef>

  function PinnedRef(repository: string, hex: Hex): string {
    repository + "@sha256:" + hex
  }

  /** A digest appended to the full name of a repository parses as that repository, pinned. */
  ghost predicate PinsParse(parse: Parser) {
    forall text, hex: Hex :: parse(text).Some? ==> PinsTo(parse, parse(text).value.repository, hex)
  }

  predicate PinsTo(parse: Parser, repository: string, hex: Hex) {
    parse(PinnedRef(repository, hex)) == Some(ImageRef(repository, Some(hex)))
  }

  // ---- the cache and the world around one call ----

  type Cache = map<string, map<Hex, Dir>>

  function Dirs(c: Cache, bundle: string): map<Hex, Dir> {
    if bundle in c then c[bundle] else map[]
  }

  /** os.RemoveAll of a bundle's directory may fail and leave part of it, damaged or not. */
  datatype Removal = Removed | RemoveFailed(left: map<Hex, Dir>)

  /** How the registry and the filesystem answer during one call: the keychain, the stat of a pinned
      reference's directory, HEAD, the stat of the resolved directory, removal of old directories,
      mkdir, the layers of the image the reference stood for when it was fetched, how many of them
      apply, and what a failed unpack leaves behind. */
  datatype World = World(authOk: bool, pinnedStatOk: bool, head: Option<Hex>, statOk: bool, removal: Removal,
                         mkdirOk: bool, image: Option<seq<Layer>>, applied: nat, leftover: Option<Dir>)

  /** A keychain is only asked for when a pull secret is named. */
  predicate Authorised(src: ImageSource, w: World) {
    src.pullSecret == "" || w.authOk
  }

  datatype Served = Served(dir: Dir, source: ImageSource)

  datatype Error =
    NoImage | BadReference | AuthFailed | HeadFailed | StatFailed | CleanupFailed | MkdirFailed | UnpackFailed

  ghost predicate PossibleRemoval(c: Cache, bundle: string, r: Removal) {
    r.RemoveFailed? ==> r.left.Keys <= Dirs(c, bundle).Keys
  }

  // ---- specification of one call ----

  function Remove(c: Cache, bundle: string, r: Removal): Cache {
    match r
    case Removed => c - {bundle}
    case RemoveFailed(left) => c[bundle := left]
  }

  /** The image was there and all its layers were applied. */
  predicate Fetched(w: World) {
    w.image.Some? && w.applied >= |w.image.value|
  }

  /** Fetching into a fresh directory. */
  function Fetch(c: Cache, bundle: string, hex: Hex, w: World): (Cache, Option<Dir>) {
    if Fetched(w) then (c[bundle := map[hex := w.image.value]], Some(w.image.value))
    else if w.leftover.Some? then (c[bundle := map[hex := w.leftover.value]], None)
    else (c[bundle := map[]], None)
  }

  function UnpackStep(parse: Parser, c: Cache, b: Bundle, w: World): (Cache, Result<Served, Error>) {
    if b.image.None? then (c, Failure(NoImage))
    else
      var src := b.image.value;
      var ref := parse(src.ref);
      if ref.None? then (c, Failure(BadReference))
      else if !Authorised(src, w) then (c, Failure(AuthFailed))
      else if ref.value.digest.Some? && w.pinnedStatOk && ref.value.digest.value in Dirs(c, b.name) then
        (c, Success(Served(Dirs(c, b.name)[ref.value.digest.value], src)))
      else if w.head.None? then (c, Failure(HeadFailed))
      else if !w.statOk then (c, Failure(StatFailed))
      else
        var hex := w.head.value;
        var pinned := src.(ref := PinnedRef(ref.value.repository, hex));
        if hex in Dirs(c, b.name) then (c, Success(Served(Dirs(c, b.name)[hex], pinned)))
        else if w.removal.RemoveFailed? then (Remove(c, b.name, w.removal), Failure(CleanupFailed))
        else if !w.mkdirOk then (Remove(c, b.name, w.removal), Failure(MkdirFailed))
        else
          var (c', dir) := Fetch(c, b.name, hex, w);
          (c', match dir case Some(d) => Success(Served(d, pinned)) case None => Failure(UnpackFailed))
  }

  /** What a successful call needs: an image that is set, parses and is authorised; and a pinned
      directory that is found, or a digest from HEAD and a working stat with either its directory
      found, or the old ones removed, a new one made and every layer applied to it. */
  ghost predicate Unpacks(parse: Parser, c: Cache, b: Bundle, w: World) {
    && b.image.Some? && parse(b.image.value.ref).Some?
    && (b.image.value.pullSecret == "" || w.authOk)
    && (|| (exists hex :: parse(b.image.value.ref).value.digest == Some(hex) && w.pinnedStatOk
                          && Cached(c, b.name, hex))
        || (w.head.Some? && w.statOk && Cached(c, b.name, w.head.value))
        || (w.head.Some? && w.statOk && w.removal == Removed && w.mkdirOk
            && w.image.Some? && |w.image.value| <= w.applied))
  }

  predicate Cached(c: Cache, bundle: string, hex: Hex) {
    bundle in c && hex in c[bundle]
  }

  lemma {:induction false} SuccessIff(parse: Parser, c: Cache, b: Bundle, w: World)
    ensures UnpackStep(parse, c, b, w).1.Success? <==> Unpacks(parse, c, b, w)
  {
  }

  /** Which error a call that fails answers with: the first thing in order that did not work. */
  lemma {:induction false} FailureIs(parse: Parser, c: Cache, b: Bundle, w: World)
    requires !Unpacks(parse, c, b, w)
    ensures UnpackStep(parse, c, b, w).1 == Failure(
              if b.image == None then NoImage
              else if parse(b.image.value.ref) == None then BadReference
              else if b.image.value.pullSecret != "" && !w.authOk then AuthFailed
              else if w.head == None then HeadFailed
              else if !w.statOk then StatFailed
              else if w.removal != Removed then CleanupFailed
              else if !w.mkdirOk then MkdirFailed
              else UnpackFailed)
  {
  }

  /** The resolved source: the pinned one as it was where its directory is found, and otherwise the
      repository at the digest from HEAD, with the secret and the TLS options as they were. */
  lemma {:induction false} ResolvedSourceIs(parse: Parser, c: Cache, b: Bundle, w: World)
    requires UnpackStep(parse, c, b, w).1.Success?
    ensures UnpackStep(parse, c, b, w).1.value.source
            == if PinnedHit(parse, c, b, w) then b.image.value
               else ImageSource(parse(b.image.value.ref).value.repository + "@sha256:" + w.head.value,
                                b.image.value.pullSecret, b.image.value.insecure, b.image.value.certificateData)
  {
  }

  /** Unpacking a tag again right after a success, with the tag where it was, gives the same directory
      and the same resolved source and leaves the cache alone, whatever the rest of the world does. */
  lemma {:induction false} UnmovedTagIsServedAgain(parse: Parser, c: Cache, b: Bundle, w: World, w2: World)
    requires UnpackStep(parse, c, b, w).1.Success? && !PinnedHit(parse, c, b, w)
    requires parse(b.image.value.ref).value.digest == None
    requires Authorised(b.image.value, w2) && w2.head == w.head && w2.statOk
    ensures var (c1, r) := UnpackStep(parse, c, b, w); UnpackStep(parse, c1, b, w2) == (c1, r)
  {
  }

  lemma {:induction false} Overwrite(c: Cache, bundle: string, a: map<Hex, Dir>, b: map<Hex, Dir>)
    ensures c[bundle := a][bundle := b] == c[bundle := b]
  {
  }

  lemma {:induction false} FetchForgets(c: Cache, bundle: string, hex: Hex, w: World)
    ensures Fetch(c - {bundle}, bundle, hex, w) == Fetch(c, bundle, hex, w)
  {
    var d := Fetch(c, bundle, hex, w).0[bundle];
    assert (c - {bundle})[bundle := d] == c[bundle := d];
  }

  // ---- admitted sources ----

  /** The bundle a source of type image asks for; how names the secret and the TLS options. */
  function BundleFor(name: string, src: ConfigMapSource.Source, how: ImageSource): Bundle {
    Bundle(name, match src.image case Some(ref) => Some(how.(ref := ref)) case None => None)
  }

  /** Admission of an image source and the unpacker agree: a source is admitted exactly when no
      unpack of it, whatever the cache and the world, fails for want of an image. */
  lemma {:induction false} AdmittedHasImage(parse: Parser, configMaps: map<string, ConfigMapSource.ConfigMap>,
                                            readsOk: bool, src: ConfigMapSource.Source, name: string,
                                            how: ImageSource, c: Cache, w: World)
    requires src.sourceType == Admission.IMAGE
    ensures Admission.SourceAdmitted(configMaps, readsOk, src)
            <==> UnpackStep(parse, c, BundleFor(name, src, how), w).1 != Failure(NoImage)
  {
  }

  // ---- the cache object ----

  class ImageRegistry {
    var cache: Cache
    const parse: Parser

    constructor (parse: Parser)
      ensures cache == map[] && this.parse == parse
    {
      cache := map[];
      this.parse := parse;
    }

    /** ImageRegistry.Cleanup. */
    method Cleanup(bundle: string, r: Removal) returns (ok: bool)
      modifies this`cache
      ensures cache == Remove(old(cache), bundle, r) && ok == r.Removed?
    {
      match r {
        case Removed =>
          cache := cache - {bundle};
          ok := true;
        case RemoveFailed(left) =>
          cache := cache[bundle := left];
          ok := false;
      }
    }

    /** unpackImage: layers are applied one by one to the directory. */
    method UnpackImage(bundle: string, hex: Hex, w: World) returns (ok: bool)
      requires bundle in cache && cache[bundle] == map[hex := []]
      modifies this`cache
      ensures ok <==> Fetched(w)
      ensures bundle in cache && cache == old(cache)[bundle := cache[bundle]]
      ensures ok ==> cache[bundle] == map[hex := w.image.value]
    {
      if w.image.None? {
        assert cache == old(cache)[bundle := cache[bundle]];
        return false;
      }
      var layers := w.image.value;
      assert cache[bundle] == map[hex := layers[..0]];
      assert cache == old(cache)[bundle := cache[bundle]];
      for i := 0 to |layers|
        invariant i <= w.applied
        invariant bundle in cache && cache[bundle] == map[hex := layers[..i]]
        invariant cache == old(cache)[bundle := cache[bundle]]
      {
        if i == w.applied { return false; }
        assert layers[..i + 1] == layers[..i] + [layers[i]];
        cache := cache[bundle := map[hex := cache[bundle][hex] + [layers[i]]]];
      }
      assert layers[..|layers|] == layers;
      ok := true;
    }

    /** Creating the directory, filling it, and removing it again on failure. */
    method FetchInto(bundle: string, hex: Hex, w: World) returns (ok: bool)
      modifies this`cache
      ensures cache == Fetch(old(cache), bundle, hex, w).0
      ensures ok == Fetch(old(cache), bundle, hex, w).1.Some?
    {
      var empty: map<Hex, Dir> := map[hex := []];
      ghost var before := cache;
      cache := cache[bundle := empty];
      ok := UnpackImage(bundle, hex, w);
      Overwrite(before, bundle, empty, cache[bundle]);
      if !ok {
        var left: map<Hex, Dir> := match w.leftover case Some(d) => map[hex := d] case None => map[];
        Overwrite(before, bundle, cache[bundle], left);
        cache := cache[bundle := left];
      }
    }

    /** ImageRegistry.Unpack. */
    method Unpack(b: Bundle, w: World) returns (r: Result<Served, Error>)
      modifies this`cache
      ensures (cache, r) == UnpackStep(parse, old(cache), b, w)
      ensures r.Success? <==> Unpacks(parse, old(cache), b, w)
    {
      SuccessIff(parse, cache, b, w);
      if b.image.None? { return Failure(NoImage); }
      var src := b.image.value;
      var ref := parse(src.ref);
      if ref.None? { return Failure(BadReference); }
      if !Authorised(src, w) { return Failure(AuthFailed); }
      if ref.value.digest.Some? {
        var hex := ref.value.digest.value;
        if w.pinnedStatOk && hex in Dirs(cache, b.name) {
          return Success(Served(Dirs(cache, b.name)[hex], src));
        }
      }
      if w.head.None? { return Failure(HeadFailed); }
      if !w.statOk { return Failure(StatFailed); }
      var hex := w.head.value;
      if hex !in Dirs(cache, b.name) {
        var cleaned := Cleanup(b.name, w.removal);
        if !cleaned { return Failure(CleanupFailed); }
        if !w.mkdirOk { return Failure(MkdirFailed); }
        FetchForgets(old(cache), b.name, hex, w);
        var fetched := FetchInto(b.name, hex, w);
        if !fetched { return Failure(UnpackFailed); }
      }
      r := Success(Served(cache[b.name][hex], src.(ref := PinnedRef(ref.value.repository, hex))));
    }
  }

  // ---- runs ----

  datatype Event = Unpack(bundle: Bundle, world: World) | Cleanup(name: string, removal: Removal)

  function Step(parse: Parser, c: Cache, e: Event): Cache {
    match e
    case Unpack(b, w) => UnpackStep(parse, c, b, w).0
    case Cleanup(n, r) => Remove(c, n, r)
  }

  function Run(parse: Parser, c: Cache, es: seq<Event>): Cache
    decreases |es|
  {
    if es == [] then c else Run(parse, Step(parse, c, es[0]), es[1..])
  }

  /** A run goes event by event. */
  lemma {:induction false} RunThen(parse: Parser, c: Cache, es: seq<Event>, e: Event)
    ensures Run(parse, c, es + [e]) == Step(parse, Run(parse, c, es), e)
    decreases |es|
  {
    if es == [] {
      assert (es + [e])[1..] == [];
    } else {
      assert (es + [e])[1..] == es[1..] + [e];
      RunThen(parse, Step(parse, c, es[0]), es[1..], e);
    }
  }

  /** What a failed removal leaves was there before. */
  ghost predicate PossibleEvent(c: Cache, e: Event) {
    match e
    case Unpack(b, w) => PossibleRemoval(c, b.name, w.removal)
    case Cleanup(n, r) => PossibleRemoval(c, n, r)
  }

  ghost predicate Possible(parse: Parser, c: Cache, es: seq<Event>)
    decreases |es|
  {
    es != [] ==>
      && PossibleEvent(c, es[0])
      && Possible(parse, Step(parse, c, es[0]), es[1..])
  }

  /** No bundle has two digest directories. */
  ghost predicate AtMostOne(c: Cache) {
    forall b, h, k :: b in c && h in c[b] && k in c[b] ==> h == k
  }

  lemma {:induction false} RemovalKeepsAtMostOne(c: Cache, b: string, r: Removal)
    requires AtMostOne(c) && PossibleRemoval(c, b, r)
    ensures AtMostOne(Remove(c, b, r))
  {
    if r.RemoveFailed? {
      assert forall h :: h in r.left ==> b in c && h in c[b];
    }
  }

  lemma {:induction false} FetchKeepsAtMostOne(c: Cache, b: string, hex: Hex, w: World)
    requires AtMostOne(c)
    ensures AtMostOne(Fetch(c, b, hex, w).0)
  {
  }

  lemma {:induction false} StepKeepsAtMostOne(parse: Parser, c: Cache, e: Event)
    requires AtMostOne(c) && PossibleEvent(c, e)
    ensures AtMostOne(Step(parse, c, e))
  {
    match e {
      case Cleanup(n, r) => RemovalKeepsAtMostOne(c, n, r);
      case Unpack(b, w) =>
        RemovalKeepsAtMostOne(c, b.name, w.removal);
        if w.head.Some? { FetchKeepsAtMostOne(c, b.name, w.head.value, w); }
        assert UnpackTouches(parse, c, b, w);
    }
  }

  /** An unpack leaves the cache alone, removes, or fetches. */
  ghost predicate UnpackTouches(parse: Parser, c: Cache, b: Bundle, w: World) {
    var c' := UnpackStep(parse, c, b, w).0;
    c' == c || c' == Remove(c, b.name, w.removal) || (w.head.Some? && c' == Fetch(c, b.name, w.head.value, w).0)
  }

  /** In every run, whatever fails, a bundle's cache holds at most one digest directory. */
  lemma {:induction false} RunKeepsAtMostOne(parse: Parser, c: Cache, es: seq<Event>)
    requires AtMostOne(c) && Possible(parse, c, es)
    ensures AtMostOne(Run(parse, c, es))
    decreases |es|
  {
    if es != [] {
      StepKeepsAtMostOne(parse, c, es[0]);
      RunKeepsAtMostOne(parse, Step(parse, c, es[0]), es[1..]);
    }
  }

  // ---- content ----

  /** content gives the layers of every digest.  A world is faithful when its removals succeed
      and the reference resolves alike for HEAD and for the fetch. */
  ghost predicate Faithful(content: Hex -> seq<Layer>, w: World) {
    && w.removal.Removed? && w.leftover.None?
    && (w.head.Some? && w.image.Some? ==> w.image.value == content(w.head.value))
  }

  ghost predicate FaithfulEvent(content: Hex -> seq<Layer>, e: Event) {
    match e case Unpack(_, w) => Faithful(content, w) case Cleanup(_, r) => r.Removed?
  }

  ghost predicate FaithfulRun(content: Hex -> seq<Layer>, es: seq<Event>) {
    forall i :: 0 <= i < |es| ==> FaithfulEvent(content, es[i])
  }

  /** Every cached directory is the full content of its digest. */
  ghost predicate Full(content: Hex -> seq<Layer>, c: Cache) {
    forall b, h :: b in c && h in c[b] ==> c[b][h] == content(h)
  }

  lemma {:induction false} RunKeepsFull(parse: Parser, content: Hex -> seq<Layer>, c: Cache, es: seq<Event>)
    requires Full(content, c) && FaithfulRun(content, es)
    ensures Full(content, Run(parse, c, es))
    decreases |es|
  {
    if es != [] {
      assert FaithfulEvent(content, es[0]);
      assert Full(content, Step(parse, c, es[0]));
      RunKeepsFull(parse, content, Step(parse, c, es[0]), es[1..]);
    }
  }

  /** After any faithful run from the empty cache, a successful unpack serves the full content
      of the digest that its resolved source names. */
  lemma {:induction false} ServedIsFull(parse: Parser, content: Hex -> seq<Layer>, es: seq<Event>,
                                        b: Bundle, w: World)
    requires PinsParse(parse) && FaithfulRun(content, es) && Faithful(content, w)
    requires UnpackStep(parse, Run(parse, map[], es), b, w).1.Success?
    ensures var (c, r) := UnpackStep(parse, Run(parse, map[], es), b, w);
            var ref := parse(r.value.source.ref);
            && ref.Some? && ref.value.digest.Some?
            && r.value.dir == content(ref.value.digest.value)
            && ref.value.digest.value in Dirs(c, b.name)
  {
    RunKeepsFull(parse, content, map[], es);
    var c := Run(parse, map[], es);
    var ref := parse(b.image.value.ref);
    if w.head.Some? {
      assert PinsTo(parse, ref.value.repository, w.head.value);
    }
  }

  /** A resolved source is reproducible: unpacking from it later, while its digest is cached,
      gives the same directory and the same resolved source whatever the registry then says,
      even if it is gone or its tags have moved, and leaves the cache alone. */
  lemma {:induction false} ResolvedSourceReproduces(parse: Parser, content: Hex -> seq<Layer>, before: seq<Event>,
                                                    b: Bundle, w: World, after: seq<Event>, w2: World)
    requires PinsParse(parse)
    requires FaithfulRun(content, before) && Faithful(content, w) && FaithfulRun(content, after)
    requires UnpackStep(parse, Run(parse, map[], before), b, w).1.Success?
    requires var (c, r) := UnpackStep(parse, Run(parse, map[], before), b, w);
             var ref := parse(r.value.source.ref);
             && ref.Some? && ref.value.digest.Some?
             && ref.value.digest.value in Dirs(Run(parse, c, after), b.name)
    requires Authorised(b.image.value, w2) && w2.pinnedStatOk
    ensures var (c, r) := UnpackStep(parse, Run(parse, map[], before), b, w);
            UnpackStep(parse, Run(parse, c, after), b.(image := Some(r.value.source)), w2)
            == (Run(parse, c, after), Success(r.value))
  {
    ServedIsFull(parse, content, before, b, w);
    RunKeepsFull(parse, content, map[], before);
    var (c, r) := UnpackStep(parse, Run(parse, map[], before), b, w);
    assert Full(content, c);
    RunKeepsFull(parse, content, c, after);
  }

  /** The events on one bundle all unpack one pinned source, with stat and authentication working. */
  ghost predicate OnlyUnpacks(es: seq<Event>, bundle: string, src: ImageSource) {
    forall i :: 0 <= i < |es| ==>
      OnlyUnpack(es[i], bundle, src)
  }

  predicate OnlyUnpack(e: Event, bundle: string, src: ImageSource) {
    match e
    case Unpack(b, w) => b.name == bundle ==> b.image == Some(src) && Authorised(src, w) && w.pinnedStatOk
    case Cleanup(n, _) => n != bundle
  }

  /** A bundle that only unpacks a pinned, cached source is never evicted, whatever other
      bundles do and whatever the registry answers. */
  lemma {:induction false} PinnedIsNeverEvicted(parse: Parser, c: Cache, es: seq<Event>,
                                                bundle: string, src: ImageSource)
    requires parse(src.ref).Some? && parse(src.ref).value.digest.Some?
    requires parse(src.ref).value.digest.value in Dirs(c, bundle)
    requires OnlyUnpacks(es, bundle, src)
    ensures Dirs(Run(parse, c, es), bundle) == Dirs(c, bundle)
    decreases |es|
  {
    if es != [] {
      var e := es[0];
      assert OnlyUnpack(e, bundle, src);
      assert Dirs(Step(parse, c, e), bundle) == Dirs(c, bundle);
      PinnedIsNeverEvicted(parse, Step(parse, c, e), es[1..], bundle, src);
    }
  }

  // ---- exactly when content and digest agree ----

  /** The call gets as far as removing the bundle's directories. */
  predicate Reaches(parse: Parser, c: Cache, b: Bundle, w: World) {
    && b.image.Some? && parse(b.image.value.ref).Some? && Authorised(b.image.value, w)
    && !PinnedHit(parse, c, b, w)
    && w.head.Some? && w.statOk && w.head.value !in Dirs(c, b.name)
  }

  /** A pinned reference whose directory is found. */
  predicate PinnedHit(parse: Parser, c: Cache, b: Bundle, w: World)
    requires b.image.Some? && parse(b.image.value.ref).Some?
  {
    var digest := parse(b.image.value.ref).value.digest;
    digest.Some? && w.pinnedStatOk && digest.value in Dirs(c, b.name)
  }

  ghost predicate FullDirs(content: Hex -> seq<Layer>, dirs: map<Hex, Dir>) {
    forall h :: h in dirs ==> dirs[h] == content(h)
  }

  ghost predicate HarmlessRemoval(content: Hex -> seq<Layer>, r: Removal) {
    r.RemoveFailed? ==> FullDirs(content, r.left)
  }

  /** A failed removal leaves full directories only; what is fetched, or left after a failed fetch,
      is the content of the digest that HEAD gave. */
  ghost predicate Harmless(content: Hex -> seq<Layer>, w: World)
    requires w.head.Some?
  {
    && HarmlessRemoval(content, w.removal)
    && (w.removal.Removed? && w.mkdirOk ==>
          && (Fetched(w) ==> w.image.value == content(w.head.value))
          && (!Fetched(w) && w.leftover.Some? ==> w.leftover.value == content(w.head.value)))
  }

  ghost predicate HarmlessEvent(parse: Parser, content: Hex -> seq<Layer>, c: Cache, e: Event) {
    match e
    case Unpack(b, w) => Reaches(parse, c, b, w) ==> Harmless(content, w)
    case Cleanup(_, r) => HarmlessRemoval(content, r)
  }

  lemma {:induction false} RemovalFullIff(content: Hex -> seq<Layer>, c: Cache, b: string, r: Removal)
    requires Full(content, c)
    ensures Full(content, Remove(c, b, r)) <==> HarmlessRemoval(content, r)
  {
    if r.RemoveFailed? { ReplacedFullIff(content, c, b, r.left); }
  }

  lemma {:induction false} ReplacedFullIff(content: Hex -> seq<Layer>, c: Cache, b: string, dirs: map<Hex, Dir>)
    requires Full(content, c)
    ensures Full(content, c[b := dirs]) <==> FullDirs(content, dirs)
  {
    if Full(content, c[b := dirs]) {
      forall h | h in dirs ensures dirs[h] == content(h) {
        assert b in c[b := dirs] && h in c[b := dirs][b];
      }
    }
  }

  lemma {:induction false} OneFullIff(content: Hex -> seq<Layer>, hex: Hex, d: Dir)
    ensures FullDirs(content, map[hex := d]) <==> d == content(hex)
  {
    assert hex in map[hex := d];
  }

  /** From a full cache, one call keeps the cache full exactly when it does not get as far as the
      removal, or what it leaves there is harmless. */
  lemma {:induction false} StepFullIff(parse: Parser, content: Hex -> seq<Layer>, c: Cache, e: Event)
    requires Full(content, c)
    ensures Full(content, Step(parse, c, e)) <==> HarmlessEvent(parse, content, c, e)
  {
    match e {
      case Cleanup(n, r) => RemovalFullIff(content, c, n, r);
      case Unpack(b, w) =>
        if Reaches(parse, c, b, w) {
          RemovalFullIff(content, c, b.name, w.removal);
          ReplacedFullIff(content, c, b.name, Fetch(c, b.name, w.head.value, w).0[b.name]);
          if w.image.Some? { OneFullIff(content, w.head.value, w.image.value); }
          if w.leftover.Some? { OneFullIff(content, w.head.value, w.leftover.value); }
        } else {
          assert UnpackStep(parse, c, b, w).0 == c;
        }
    }
  }

  /** The cache is full after every event. */
  ghost predicate AlwaysFull(parse: Parser, content: Hex -> seq<Layer>, c: Cache, es: seq<Event>)
    decreases |es|
  {
    Full(content, c) && (es != [] ==> AlwaysFull(parse, content, Step(parse, c, es[0]), es[1..]))
  }

  ghost predicate HarmlessRun(parse: Parser, content: Hex -> seq<Layer>, c: Cache, es: seq<Event>)
    decreases |es|
  {
    es != [] ==>
      && HarmlessEvent(parse, content, c, es[0])
      && HarmlessRun(parse, content, Step(parse, c, es[0]), es[1..])
  }

  /** Over a whole run from a full cache, the cache stays full exactly when every event is harmless. */
  lemma {:induction false} AlwaysFullIff(parse: Parser, content: Hex -> seq<Layer>, c: Cache, es: seq<Event>)
    requires Full(content, c)
    ensures AlwaysFull(parse, content, c, es) <==> HarmlessRun(parse, content, c, es)
    decreases |es|
  {
    if es != [] {
      StepFullIff(parse, content, c, es[0]);
      if HarmlessEvent(parse, content, c, es[0]) {
        AlwaysFullIff(parse, content, Step(parse, c, es[0]), es[1..]);
      }
    }
  }

  /** A success whose directory is the content of the digest its resolved source names. */
  ghost predicate ServesItsDigest(parse: Parser, content: Hex -> seq<Layer>, r: Result<Served, Error>) {
    && r.Success? && parse(r.value.source.ref).Some?
    && var digest := parse(r.value.source.ref).value.digest;
       digest.Some? && r.value.dir == content(digest.value)
  }

  /** The digest of the directory that a call answers with, if it answers. */
  function Answering(parse: Parser, c: Cache, b: Bundle, w: World): Hex
    requires b.image.Some? && parse(b.image.value.ref).Some? && (PinnedHit(parse, c, b, w) || w.head.Some?)
  {
    if PinnedHit(parse, c, b, w) then parse(b.image.value.ref).value.digest.value else w.head.value
  }

  /** From any cache: a call that succeeds without reaching the removal answers rightly exactly when
      the cached directory is full; one that reaches it, exactly when the fetch got what HEAD named. */
  lemma {:induction false} ServesItsDigestIff(parse: Parser, content: Hex -> seq<Layer>, c: Cache, b: Bundle, w: World)
    requires PinsParse(parse) && UnpackStep(parse, c, b, w).1.Success?
    ensures PinnedHit(parse, c, b, w) || w.head.Some?
    ensures Reaches(parse, c, b, w) <==> Answering(parse, c, b, w) !in Dirs(c, b.name)
    ensures Reaches(parse, c, b, w) ==> w.image.Some?
    ensures ServesItsDigest(parse, content, UnpackStep(parse, c, b, w).1)
            <==> (if Reaches(parse, c, b, w) then w.image.value else Dirs(c, b.name)[Answering(parse, c, b, w)])
                 == content(Answering(parse, c, b, w))
  {
    if w.head.Some? {
      assert PinsTo(parse, parse(b.image.value.ref).value.repository, w.head.value);
    }
  }

  /** Fullness is no more than the answers need: the cache is full exactly when every call that is
      answered from it, whoever makes it and however the world behaves, serves its digest. */
  lemma {:induction false} FullIffServed(parse: Parser, content: Hex -> seq<Layer>, c: Cache, text: string)
    requires PinsParse(parse) && parse(text).Some?
    ensures Full(content, c) <==>
            (forall b, w :: UnpackStep(parse, c, b, w).1.Success? && !Reaches(parse, c, b, w) ==>
               ServesItsDigest(parse, content, UnpackStep(parse, c, b, w).1))
  {
    if Full(content, c) {
      forall b, w | UnpackStep(parse, c, b, w).1.Success? && !Reaches(parse, c, b, w)
        ensures ServesItsDigest(parse, content, UnpackStep(parse, c, b, w).1)
      {
        ServesItsDigestIff(parse, content, c, b, w);
      }
    } else {
      var n, h :| n in c && h in c[n] && c[n][h] != content(h);
      assert PinsTo(parse, parse(text).value.repository, h);
      var b := Bundle(n, Some(ImageSource(PinnedRef(parse(text).value.repository, h), "", false, "")));
      var w := World(true, true, None, true, Removed, true, None, 0, None);
      assert UnpackStep(parse, c, b, w).1.Success? && !Reaches(parse, c, b, w);
      ServesItsDigestIff(parse, content, c, b, w);
    }
  }

  /** A failed unpack whose clean-up also fails leaves a partial directory that the next unpack
      serves as if it were complete. */
  lemma {:induction false} PartialDirectoryIsServed(parse: Parser, b: Bundle, hex: Hex, first: Layer, second: Layer)
    requires b.image.Some? && parse(b.image.value.ref).Some? && parse(b.image.value.ref).value.digest == Some(hex)
    ensures var failing := World(true, true, Some(hex), true, Removed, true, Some([first, second]), 1, Some([first]));
            var retry := World(true, true, Some(hex), true, Removed, true, Some([first, second]), 2, None);
            var (c, r) := UnpackStep(parse, map[], b, failing);
            r.Failure? && UnpackStep(parse, c, b, retry).1 == Success(Served([first], b.image.value))
  {
  }

  /** A tag that moves between HEAD and the fetch: the reported digest is the old one, the content
      the new one, and the wrong directory stays in the cache under the old digest. */
  lemma {:induction false} MovedTagIsMisreported(parse: Parser, content: Hex -> seq<Layer>, b: Bundle,
                                                 was: Hex, now: Hex)
    requires b.image.Some? && parse(b.image.value.ref).Some? && parse(b.image.value.ref).value.digest.None?
    requires PinsParse(parse) && content(was) != content(now)
    ensures var fetched := content(now);
            var moved := World(true, true, Some(was), true, Removed, true, Some(fetched), |fetched|, None);
            var (c, r) := UnpackStep(parse, map[], b, moved);
            && r.Success? && r.value.dir == content(now)
            && parse(r.value.source.ref) == Some(parse(b.image.value.ref).value.(digest := Some(was)))
            && !ServesItsDigest(parse, content, r) && !Full(content, c)
  {
    assert PinsTo(parse, parse(b.image.value.ref).value.repository, was);
    var fetched := content(now);
    var moved := World(true, true, Some(was), true, Removed, true, Some(fetched), |fetched|, None);
    StepFullIff(parse, content, map[], Unpack(b, moved));
  }
}
