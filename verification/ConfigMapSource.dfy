/** Unpacking a bundle from ConfigMaps: the union of their files, with every path that comes
    from two different ConfigMaps reported. */
module ConfigMapSource {
  import opened Text
  import opened Paths

  type Content = string

  datatype ConfigMap = ConfigMap(immutable: Option<bool>, data: map<string, Content>, binaryData: map<string, Content>)

  datatype Ref = Ref(configMap: string, path: string)

  /** A bundle source: its type and the fields the webhooks and this unpacker look at. */
  datatype Source = Source(sourceType: string, configMaps: Option<seq<Ref>>, image: Option<string>,
                           gitDirectory: Option<string>)

  datatype Unpacked = Unpacked(files: map<string, Content>, resolved: Source)

  datatype Error = WrongType | Unset | Unreadable(configMap: string) | Duplicates(paths: seq<string>)

  const CONFIG_MAPS := "configMaps"

  // ---- what a reference contributes ----

  /** A file a ConfigMap puts into the bundle. */
  datatype File = File(owner: string, path: string, content: Content)

  function PathOf(ref: Ref, key: string): string {
    JoinPath(Clean(ref.path), key)
  }

  ghost function FilesOf(ref: Ref, m: map<string, Content>): set<File> {
    set k | k in m :: File(ref.configMap, PathOf(ref, k), m[k])
  }

  ghost function RefFiles(cms: map<string, ConfigMap>, ref: Ref): set<File>
    requires ref.configMap in cms
  {
    FilesOf(ref, cms[ref.configMap].data) + FilesOf(ref, cms[ref.configMap].binaryData)
  }

  predicate Present(cms: map<string, ConfigMap>, refs: seq<Ref>) {
    forall i :: 0 <= i < |refs| ==> refs[i].configMap in cms
  }

  /** All files of all references. */
  ghost function AllFiles(cms: map<string, ConfigMap>, refs: seq<Ref>): set<File>
    requires Present(cms, refs)
  {
    set r, f | r in refs && f in RefFiles(cms, r) :: f
  }

  /** Some path comes from two different ConfigMaps. */
  ghost predicate Clash(files: set<File>) {
    exists f, g :: f in files && g in files && f.path == g.path && f.owner != g.owner
  }

  /** fs holds a file at exactly the contributed paths, each with contributed content. */
  ghost predicate Realizes(files: set<File>, fs: map<string, Content>) {
    && (forall f :: f in files ==> f.path in fs)
    && (forall p :: p in fs ==> exists f :: f in files && f.path == p && f.content == fs[p])
  }

  // ---- the unpacker ----

  /** seen records, for every path so far, the ConfigMaps it came from. */
  ghost predicate Recorded(files: set<File>, seen: map<string, set<string>>) {
    && (forall f :: f in files ==> f.path in seen && f.owner in seen[f.path])
    && (forall p, o :: p in seen && o in seen[p] ==> exists f :: f in files && f.path == p && f.owner == o)
  }

  /** The addToBundle closure ranged over one map, in an order of the runtime's choosing. */
  method AddAll(ref: Ref, m: map<string, Content>, fs0: map<string, Content>, seen0: map<string, set<string>>,
                ghost files: set<File>)
    returns (fs: map<string, Content>, seen: map<string, set<string>>)
    requires Realizes(files, fs0) && Recorded(files, seen0)
    ensures Realizes(files + FilesOf(ref, m), fs) && Recorded(files + FilesOf(ref, m), seen)
  {
    fs, seen := fs0, seen0;
    var todo := m.Keys;
    ghost var done := files;
    while todo != {}
      invariant todo <= m.Keys
      invariant files <= done <= files + FilesOf(ref, m)
      invariant forall k :: k in m && k !in todo ==> File(ref.configMap, PathOf(ref, k), m[k]) in done
      invariant Realizes(done, fs) && Recorded(done, seen)
    {
      var key :| key in todo;
      todo := todo - {key};
      var path := PathOf(ref, key);
      ghost var file := File(ref.configMap, path, m[key]);
      RecordOne(done, file, fs, seen);
      seen := seen[path := (if path in seen then seen[path] else {}) + {ref.configMap}];
      fs := fs[path := m[key]];
      done := done + {file};
    }
    assert done == files + FilesOf(ref, m);
  }

  lemma {:induction false} RecordOne(files: set<File>, f: File, fs: map<string, Content>,
                                     seen: map<string, set<string>>)
    requires Realizes(files, fs) && Recorded(files, seen)
    ensures Realizes(files + {f}, fs[f.path := f.content])
    ensures Recorded(files + {f}, seen[f.path := (if f.path in seen then seen[f.path] else {}) + {f.owner}])
  {
    var fs', all := fs[f.path := f.content], files + {f};
    forall p | p in fs' ensures exists g :: g in all && g.path == p && g.content == fs'[p] {
      if p == f.path {
        assert f in all;
      } else {
        var g :| g in files && g.path == p && g.content == fs[p];
        assert g in all;
      }
    }
    var seen' := seen[f.path := (if f.path in seen then seen[f.path] else {}) + {f.owner}];
    forall p, o | p in seen' && o in seen'[p] ensures exists g :: g in all && g.path == p && g.owner == o {
      if p == f.path && o == f.owner {
        assert f in all;
      } else {
        var g :| g in files && g.path == p && g.owner == o;
        assert g in all;
      }
    }
  }

  method CollectDuplicates(seen: map<string, set<string>>) returns (dups: seq<string>)
    ensures forall p :: p in dups <==> p in seen && |seen[p]| > 1
  {
    dups := [];
    var todo := seen.Keys;
    while todo != {}
      invariant todo <= seen.Keys
      invariant forall p :: p in dups <==> p in seen.Keys - todo && |seen[p]| > 1
    {
      var path :| path in todo;
      todo := todo - {path};
      if |seen[path]| > 1 { dups := dups + [path]; }
    }
  }

  lemma {:induction false} TwoOwners(s: set<string>)
    ensures |s| > 1 <==> exists a, b :: a in s && b in s && a != b
  {
    if a, b :| a in s && b in s && a != b {
      assert |{a, b}| == 2;
      SubsetSize({a, b}, s);
    }
    if |s| > 1 {
      var a :| a in s;
      assert |s - {a}| == |s| - 1;
      var b :| b in s - {a};
    }
  }

  lemma {:induction false} SubsetSize(a: set<string>, b: set<string>)
    requires a <= b
    ensures |a| <= |b|
  {
    if a != {} {
      var x :| x in a;
      SubsetSize(a - {x}, b - {x});
    }
  }

  /** A path that comes from two different ConfigMaps. */
  ghost predicate ClashAt(files: set<File>, path: string) {
    exists f, g :: f in files && g in files && f.path == g.path == path && f.owner != g.owner
  }

  lemma {:induction false} DuplicateIsClash(files: set<File>, seen: map<string, set<string>>, path: string)
    requires Recorded(files, seen)
    ensures path in seen && |seen[path]| > 1 <==> ClashAt(files, path)
  {
    if path in seen { TwoOwners(seen[path]); }
    if path in seen && |seen[path]| > 1 {
      var a, b :| a in seen[path] && b in seen[path] && a != b;
      var f :| f in files && f.path == path && f.owner == a;
      var g :| g in files && g.path == path && g.owner == b;
    }
  }

  lemma {:induction false} DuplicatesAreClashes(files: set<File>, seen: map<string, set<string>>)
    requires Recorded(files, seen)
    ensures (exists p :: p in seen && |seen[p]| > 1) <==> Clash(files)
  {
    forall p ensures p in seen && |seen[p]| > 1 <==> ClashAt(files, p) {
      DuplicateIsClash(files, seen, p);
    }
    if Clash(files) {
      var f, g :| f in files && g in files && f.path == g.path && f.owner != g.owner;
      assert ClashAt(files, f.path);
    }
  }

  lemma {:induction false} AllFilesAppend(cms: map<string, ConfigMap>, refs: seq<Ref>, ref: Ref)
    requires Present(cms, refs) && ref.configMap in cms
    ensures Present(cms, refs + [ref])
    ensures AllFiles(cms, refs + [ref])
            == AllFiles(cms, refs) + FilesOf(ref, cms[ref.configMap].data) + FilesOf(ref, cms[ref.configMap].binaryData)
  {
    var all := refs + [ref];
    assert all[|refs|] == ref;
    forall f ensures f in AllFiles(cms, all) <==> f in AllFiles(cms, refs) || f in RefFiles(cms, ref) {
      if f in AllFiles(cms, all) {
        var r :| r in all && f in RefFiles(cms, r);
        assert r in refs || r == ref;
      }
      if f in AllFiles(cms, refs) {
        var r :| r in refs && f in RefFiles(cms, r);
        assert r in all;
      }
    }
  }

  /** The loop over the references. */
  method CollectAll(refs: seq<Ref>, cms: map<string, ConfigMap>)
    returns (missing: Option<string>, fs: map<string, Content>, seen: map<string, set<string>>)
    ensures missing.None? <==> Present(cms, refs)
    ensures missing.Some? ==> missing.value !in cms && exists ref :: ref in refs && ref.configMap == missing.value
    ensures missing.None? ==> Realizes(AllFiles(cms, refs), fs) && Recorded(AllFiles(cms, refs), seen)
  {
    missing, fs, seen := None, map[], map[];
    for i := 0 to |refs|
      invariant Present(cms, refs[..i])
      invariant Realizes(AllFiles(cms, refs[..i]), fs) && Recorded(AllFiles(cms, refs[..i]), seen)
    {
      var ref := refs[i];
      if ref.configMap !in cms {
        missing := Some(ref.configMap);
        return;
      }
      ghost var files := AllFiles(cms, refs[..i]);
      var cm := cms[ref.configMap];
      fs, seen := AddAll(ref, cm.data, fs, seen, files);
      fs, seen := AddAll(ref, cm.binaryData, fs, seen, files + FilesOf(ref, cm.data));
      AllFilesAppend(cms, refs[..i], ref);
      assert refs[..i + 1] == refs[..i] + [ref];
    }
    assert refs[..|refs|] == refs;
  }

  /** When unpacking succeeds, for whatever keys the ConfigMaps hold. */
  ghost predicate Unpackable(src: Source, cms: map<string, ConfigMap>) {
    && src.sourceType == CONFIG_MAPS && src.configMaps.Some?
    && Present(cms, src.configMaps.value)
    && !Clash(AllFiles(cms, src.configMaps.value))
  }

  /** source.ConfigMaps.Unpack; cms are the ConfigMaps the reader can get. */
  method Unpack(src: Source, cms: map<string, ConfigMap>) returns (r: Result<Unpacked, Error>)
    ensures r.Success? <==> Unpackable(src, cms)
    ensures r.Success? ==> Realizes(AllFiles(cms, src.configMaps.value), r.value.files)
    ensures r.Success? ==> r.value.resolved == Source(CONFIG_MAPS, src.configMaps, None, None)
    ensures r == Failure(WrongType) <==> src.sourceType != "configMaps"
    ensures r == Failure(Unset) <==> src.sourceType == "configMaps" && src.configMaps == None
    ensures r.Failure? && r.error.Unreadable? ==>
              && r.error.configMap !in cms
              && exists ref :: ref in src.configMaps.value && ref.configMap == r.error.configMap
    ensures r.Failure? && r.error.Duplicates? ==>
              && Present(cms, src.configMaps.value)
              && forall p :: p in r.error.paths <==> ClashAt(AllFiles(cms, src.configMaps.value), p)
  {
    if src.sourceType != CONFIG_MAPS { return Failure(WrongType); }
    if src.configMaps.None? { return Failure(Unset); }
    var refs := src.configMaps.value;
    var missing, fs, seen := CollectAll(refs, cms);
    if missing.Some? { return Failure(Unreadable(missing.value)); }
    var dups := CollectDuplicates(seen);
    DuplicatesAreClashes(AllFiles(cms, refs), seen);
    forall p ensures p in dups <==> ClashAt(AllFiles(cms, refs), p) {
      DuplicateIsClash(AllFiles(cms, refs), seen, p);
    }
    if |dups| > 0 {
      assert dups[0] in dups;
      return Failure(Duplicates(dups));
    }
    r := Success(Unpacked(fs, Source(CONFIG_MAPS, src.configMaps, None, None)));
  }

  // ---- determinism ----

  /** What the API server demands of a ConfigMap: keys are single path segments, and no key is
      in both maps. */
  ghost predicate ValidConfigMap(cm: ConfigMap) {
    && (forall k :: k in cm.data || k in cm.binaryData ==> Segment(k))
    && cm.data.Keys !! cm.binaryData.Keys
  }

  ghost predicate ValidConfigMaps(cms: map<string, ConfigMap>) {
    forall n :: n in cms ==> ValidConfigMap(cms[n])
  }

  function KeyContent(cm: ConfigMap, key: string): Content
    requires key in cm.data || key in cm.binaryData
  {
    if key in cm.data then cm.data[key] else cm.binaryData[key]
  }

  lemma {:induction false} FileOrigin(cms: map<string, ConfigMap>, refs: seq<Ref>, f: File)
    returns (ref: Ref, key: string)
    requires Present(cms, refs) && ValidConfigMaps(cms) && f in AllFiles(cms, refs)
    ensures ref in refs && ref.configMap == f.owner && f.owner in cms
    ensures key in cms[f.owner].data || key in cms[f.owner].binaryData
    ensures f.path == PathOf(ref, key) && f.content == KeyContent(cms[f.owner], key)
  {
    ref :| ref in refs && f in RefFiles(cms, ref);
    assert ValidConfigMap(cms[ref.configMap]);
    if f in FilesOf(ref, cms[ref.configMap].data) {
      key :| key in cms[ref.configMap].data && f == File(ref.configMap, PathOf(ref, key), cms[ref.configMap].data[key]);
    } else {
      key :| key in cms[ref.configMap].binaryData
        && f == File(ref.configMap, PathOf(ref, key), cms[ref.configMap].binaryData[key]);
    }
  }

  /** With valid ConfigMaps and no clash, a path has one content, however it was reached. */
  lemma {:induction false} OneContentPerPath(cms: map<string, ConfigMap>, refs: seq<Ref>, f: File, g: File)
    requires Present(cms, refs) && ValidConfigMaps(cms) && !Clash(AllFiles(cms, refs))
    requires f in AllFiles(cms, refs) && g in AllFiles(cms, refs) && f.path == g.path
    ensures f == g
  {
    var r1, k1 := FileOrigin(cms, refs, f);
    var r2, k2 := FileOrigin(cms, refs, g);
    assert ValidConfigMap(cms[f.owner]) && ValidConfigMap(cms[g.owner]);
    JoinPathInjective(r1.path, k1, r2.path, k2);
  }

  lemma {:induction false} SameFiles(cms1: map<string, ConfigMap>, refs1: seq<Ref>, cms2: map<string, ConfigMap>,
                                     refs2: seq<Ref>)
    requires Present(cms1, refs1) && Present(cms2, refs2)
    requires forall r :: r in refs1 <==> r in refs2
    requires forall r :: r in refs1 ==> SameData(cms1[r.configMap], cms2[r.configMap])
    ensures AllFiles(cms1, refs1) == AllFiles(cms2, refs2)
  {
    forall r | r in refs1 ensures RefFiles(cms1, r) == RefFiles(cms2, r) {
      assert SameData(cms1[r.configMap], cms2[r.configMap]);
    }
  }

  predicate SameData(a: ConfigMap, b: ConfigMap) {
    a.data == b.data && a.binaryData == b.binaryData
  }

  /** A set with one content per path is realized by one file map. */
  lemma {:induction false} RealizedOnce(files: set<File>, fs1: map<string, Content>, fs2: map<string, Content>)
    requires forall f, g :: f in files && g in files && f.path == g.path ==> f == g
    requires Realizes(files, fs1) && Realizes(files, fs2)
    ensures fs1 == fs2
    ensures forall f :: f in files ==> fs1[f.path] == f.content
  {
    forall p | p in fs1 ensures p in fs2 && fs1[p] == fs2[p] {
      var f :| f in files && f.path == p && f.content == fs1[p];
      var g :| g in files && g.path == p && g.content == fs2[p];
    }
    forall p | p in fs2 ensures p in fs1 {
      var g :| g in files && g.path == p && g.content == fs2[p];
    }
    forall f | f in files ensures fs1[f.path] == f.content {
      var g :| g in files && g.path == f.path && g.content == fs1[f.path];
    }
  }

  /** The unpacked files are exactly the union of the ConfigMaps' files, and depend only on
      which references there are and what their ConfigMaps hold: not on the order of the
      references, on repetition, or on the order in which maps were ranged over. */
  lemma {:induction false} UnpackDetermined(cms1: map<string, ConfigMap>, refs1: seq<Ref>, fs1: map<string, Content>,
                         cms2: map<string, ConfigMap>, refs2: seq<Ref>, fs2: map<string, Content>)
    requires Present(cms1, refs1) && ValidConfigMaps(cms1) && !Clash(AllFiles(cms1, refs1))
    requires Present(cms2, refs2)
    requires forall r :: r in refs1 <==> r in refs2
    requires forall r :: r in refs1 ==> SameData(cms1[r.configMap], cms2[r.configMap])
    requires Realizes(AllFiles(cms1, refs1), fs1) && Realizes(AllFiles(cms2, refs2), fs2)
    ensures fs1 == fs2
    ensures forall f :: f in AllFiles(cms1, refs1) ==> f.path in fs1 && fs1[f.path] == f.content
    ensures forall p :: p in fs1 ==> exists f :: f in AllFiles(cms1, refs1) && f.path == p
  {
    var files := AllFiles(cms1, refs1);
    SameFiles(cms1, refs1, cms2, refs2);
    forall f, g | f in files && g in files && f.path == g.path ensures f == g {
      OneContentPerPath(cms1, refs1, f, g);
    }
    RealizedOnce(files, fs1, fs2);
  }
}
