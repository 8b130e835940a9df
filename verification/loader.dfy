/** The correction loader of ils-fixup.py (lines 26-47): every `*.ils.xml` file found
    under the airports directory contributes its `ils` elements to the table `ils_data`,
    keyed by (airport code, runway), and its path to the list `ils_filenames`.
    The directory walk and the XML parsing are outside the model: the walk is given as
    a sequence of files, each with its `ils` elements already read. */
module Loader {
  import opened PyText

  const IlsSuffix := ".ils.xml"

  /** One `ils` element: the `float()` of its `lon`, `lat`, `hdg-deg` and `elev-m`
      children, and the text of its `rwy` and `nav-id` children. */
  datatype IlsEntry = IlsEntry(lon: real, lat: real, hdg: real, elev: real, rwy: string, navId: string)

  /** One file reported by the directory walk: the directory `root` it was found in,
      its bare `name`, and (when it is a correction file) its `ils` elements in
      document order, runway by runway. */
  datatype WalkedFile = WalkedFile(root: string, name: string, ils: seq<IlsEntry>)

  /** The key of `ils_data`: (airport code, runway id). */
  datatype Key = Key(apt: string, rwy: string)

  /** The value of `ils_data`: the tuple (lon, lat, hdg, elev, navid, filename), where
      `filename` is the bare name of the file the entry came from. */
  datatype Correction = Correction(lon: real, lat: real, hdg: real, elev: real, navId: string, filename: string)

  predicate IsCorrectionFile(name: string) {
    EndsWith(name, IlsSuffix)
  }

  /** `os.path.basename(path).split('.')[0]`. */
  function AirportCode(path: string): string {
    BeforeFirst(Basename(path), '.')
  }

  /** The (key, correction) pair one `ils` element of file `f` stores. */
  function EntryOf(f: WalkedFile, e: IlsEntry): (Key, Correction) {
    (Key(AirportCode(PathJoin(f.root, f.name)), e.rwy),
     Correction(e.lon, e.lat, e.hdg, e.elev, e.navId, f.name))
  }

  /** The pairs one walked file stores, in order; none unless it is a correction file. */
  function FileEntries(f: WalkedFile): seq<(Key, Correction)> {
    if IsCorrectionFile(f.name) then seq(|f.ils|, i requires 0 <= i < |f.ils| => EntryOf(f, f.ils[i]))
    else []
  }

  /** Every pair the loader stores, in the order it stores them. */
  function AllEntries(files: seq<WalkedFile>): seq<(Key, Correction)> {
    if files == [] then [] else AllEntries(files[..|files| - 1]) + FileEntries(files[|files| - 1])
  }

  /** `m` after storing the pairs of `kvs` one by one, each overwriting any earlier value of its key. */
  function Overlay(m: map<Key, Correction>, kvs: seq<(Key, Correction)>): map<Key, Correction> {
    if kvs == [] then m
    else Overlay(m, kvs[..|kvs| - 1])[kvs[|kvs| - 1].0 := kvs[|kvs| - 1].1]
  }

  /** `ils_data` after the walk. */
  function CorrectionIndex(files: seq<WalkedFile>): map<Key, Correction> {
    Overlay(map[], AllEntries(files))
  }

  /** `ils_filenames` after the walk: the joined path of every correction file, in walk order. */
  function CorrectionPaths(files: seq<WalkedFile>): seq<string> {
    if files == [] then []
    else
      var f := files[|files| - 1];
      CorrectionPaths(files[..|files| - 1]) + (if IsCorrectionFile(f.name) then [PathJoin(f.root, f.name)] else [])
  }

  lemma {:induction false} OverlayAppend(m: map<Key, Correction>, a: seq<(Key, Correction)>, b: seq<(Key, Correction)>)
    ensures Overlay(m, a + b) == Overlay(Overlay(m, a), b)
    decreases |b|
  {
    if b == [] {
      assert a + b == a;
    } else {
      assert (a + b)[..|a + b| - 1] == a + b[..|b| - 1];
      OverlayAppend(m, a, b[..|b| - 1]);
    }
  }

  /** The loader's two nested loops (lines 29-47): the outer one appends each correction
      file's path, the inner one stores each of its `ils` elements. */
  method LoadCorrections(files: seq<WalkedFile>) returns (ilsData: map<Key, Correction>, ilsFilenames: seq<string>)
    ensures ilsData == CorrectionIndex(files)
    ensures ilsFilenames == CorrectionPaths(files)
  {
    ilsData, ilsFilenames := map[], [];
    for i := 0 to |files|
      invariant ilsData == CorrectionIndex(files[..i])
      invariant ilsFilenames == CorrectionPaths(files[..i])
    {
      var f := files[i];
      assert files[..i + 1][..i] == files[..i];
      if IsCorrectionFile(f.name) {
        var path := PathJoin(f.root, f.name);
        var apt := AirportCode(path);
        ilsFilenames := ilsFilenames + [path];
        for j := 0 to |f.ils|
          invariant ilsData == Overlay(CorrectionIndex(files[..i]), FileEntries(f)[..j])
        {
          var e := f.ils[j];
          assert FileEntries(f)[..j + 1][..j] == FileEntries(f)[..j];
          ilsData := ilsData[Key(apt, e.rwy) := Correction(e.lon, e.lat, e.hdg, e.elev, e.navId, f.name)];
        }
        assert FileEntries(f)[..|f.ils|] == FileEntries(f);
      }
      OverlayAppend(map[], AllEntries(files[..i]), FileEntries(f));
    }
    assert files[..|files|] == files;
  }

  // ---------------------------------------------------------------------------
  // What the loaded table holds
  // ---------------------------------------------------------------------------

  /** A key is in the table exactly when some stored pair has it (or it was there before). */
  lemma {:induction false} OverlayKeys(m: map<Key, Correction>, kvs: seq<(Key, Correction)>, k: Key)
    ensures k in Overlay(m, kvs) <==> k in m || exists i :: 0 <= i < |kvs| && kvs[i].0 == k
  {
    if kvs != [] {
      var n := |kvs| - 1;
      OverlayKeys(m, kvs[..n], k);
      if exists i :: 0 <= i < n && kvs[..n][i].0 == k {
        var i :| 0 <= i < n && kvs[..n][i].0 == k;
        assert kvs[i].0 == k;
      }
      if exists i :: 0 <= i < |kvs| && kvs[i].0 == k {
        var i :| 0 <= i < |kvs| && kvs[i].0 == k;
        if i < n { assert kvs[..n][i].0 == k; }
      }
    }
  }

  /** The value of a key is the one from the last pair stored under it: a later entry overwrites an earlier one. */
  lemma {:induction false} OverlayLastWins(m: map<Key, Correction>, kvs: seq<(Key, Correction)>, i: nat)
    requires i < |kvs|
    requires forall j :: i < j < |kvs| ==> kvs[j].0 != kvs[i].0
    ensures kvs[i].0 in Overlay(m, kvs) && Overlay(m, kvs)[kvs[i].0] == kvs[i].1
  {
    var n := |kvs| - 1;
    if i < n {
      forall j | i < j < n ensures kvs[..n][j].0 != kvs[..n][i].0 {
        assert kvs[..n][j] == kvs[j];
      }
      OverlayLastWins(m, kvs[..n], i);
    }
  }

  /** `ils_data` holds exactly the keys of the `ils` elements read. */
  lemma IndexKeys(files: seq<WalkedFile>, k: Key)
    ensures k in CorrectionIndex(files) <==> exists i :: 0 <= i < |AllEntries(files)| && AllEntries(files)[i].0 == k
  {
    var empty: map<Key, Correction> := map[];
    assert k !in empty;
    assert CorrectionIndex(files) == Overlay(empty, AllEntries(files));
    OverlayKeys(empty, AllEntries(files), k);
  }

  /** The value stored under a key is that of the last `ils` element read for it. */
  lemma IndexLastWins(files: seq<WalkedFile>, i: nat)
    requires i < |AllEntries(files)|
    requires forall j :: i < j < |AllEntries(files)| ==> AllEntries(files)[j].0 != AllEntries(files)[i].0
    ensures AllEntries(files)[i].0 in CorrectionIndex(files)
    ensures CorrectionIndex(files)[AllEntries(files)[i].0] == AllEntries(files)[i].1
  {
    OverlayLastWins(map[], AllEntries(files), i);
  }

  /** Where a stored pair comes from: an `ils` element of a correction file, whose bare name
      it records and whose airport code is the prefix of that name before its first '.'. */
  predicate FromFile(kv: (Key, Correction), f: WalkedFile) {
    && IsCorrectionFile(f.name)
    && kv.1.filename == f.name
    && kv.0.apt == AirportCode(PathJoin(f.root, f.name))
  }

  lemma {:induction false} EntriesFromFiles(files: seq<WalkedFile>)
    ensures forall i :: 0 <= i < |AllEntries(files)| ==> exists f :: f in files && FromFile(AllEntries(files)[i], f)
  {
    if files != [] {
      var n := |files| - 1;
      EntriesFromFiles(files[..n]);
      var all := AllEntries(files);
      forall i | 0 <= i < |all| ensures exists f :: f in files && FromFile(all[i], f) {
        var prev := AllEntries(files[..n]);
        if i < |prev| {
          assert all[i] == prev[i];
          var f :| f in files[..n] && FromFile(prev[i], f);
          assert f in files;
        } else {
          assert all[i] == FileEntries(files[n])[i - |prev|];
          assert FromFile(all[i], files[n]);
          assert files[n] in files;
        }
      }
      assert all == AllEntries(files);
      assert forall i :: 0 <= i < |all| ==> exists f :: f in files && FromFile(all[i], f);
    } else {
      assert AllEntries(files) == [];
    }
  }

  /** Every correction in `ils_data` names a correction file of the walk, and its key's airport
      code is that file name's text before its first '.', so it holds no '.'. */
  lemma IndexFromFiles(files: seq<WalkedFile>, k: Key)
    requires k in CorrectionIndex(files)
    ensures exists f :: f in files && FromFile((k, CorrectionIndex(files)[k]), f)
    ensures '.' !in k.apt
  {
    var all := AllEntries(files);
    IndexKeys(files, k);
    var i :| 0 <= i < |all| && all[i].0 == k;
    // take the last pair stored under k
    var last := i;
    while exists j :: last < j < |all| && all[j].0 == k
      invariant i <= last < |all| && all[last].0 == k
      decreases |all| - last
    {
      var j :| last < j < |all| && all[j].0 == k;
      last := j;
    }
    IndexLastWins(files, last);
    EntriesFromFiles(files);
  }

  /** The airport code of a walked file (whose name holds no '/') is its name's text
      before the first '.'. */
  lemma AirportCodeOfName(root: string, name: string)
    requires '/' !in name
    ensures AirportCode(PathJoin(root, name)) == BeforeFirst(name, '.')
  {
    BasenameOfJoin(root, name);
  }

  /** The pointwise helper of `PathsAreCorrectionFiles`: one recorded path is the join of a
      walked `.ils.xml` file's directory and name, and its base name is that name. */
  lemma {:induction false} PathOrigin(files: seq<WalkedFile>, p: string)
    requires forall f :: f in files ==> '/' !in f.name
    ensures p in CorrectionPaths(files) ==>
      exists f :: f in files && IsCorrectionFile(f.name) && p == PathJoin(f.root, f.name) && Basename(p) == f.name
  {
    if files != [] && p in CorrectionPaths(files) {
      var n := |files| - 1;
      var prev, last := files[..n], files[n];
      assert CorrectionPaths(files) == CorrectionPaths(prev) + (if IsCorrectionFile(last.name) then [PathJoin(last.root, last.name)] else []);
      if p in CorrectionPaths(prev) {
        assert forall f :: f in prev ==> f in files;
        PathOrigin(prev, p);
        var f :| f in prev && IsCorrectionFile(f.name) && p == PathJoin(f.root, f.name) && Basename(p) == f.name;
        assert f in files;
      } else {
        assert last in files;
        BasenameOfJoin(last.root, last.name);
      }
    }
  }

  /** Every recorded path ends in `.ils.xml` and has the file's name as its last component. */
  lemma PathsAreCorrectionFiles(files: seq<WalkedFile>)
    requires forall f :: f in files ==> '/' !in f.name
    ensures forall p :: p in CorrectionPaths(files) ==>
      exists f :: f in files && IsCorrectionFile(f.name) && p == PathJoin(f.root, f.name) && Basename(p) == f.name
  {
    forall p | p in CorrectionPaths(files)
      ensures exists f :: f in files && IsCorrectionFile(f.name) && p == PathJoin(f.root, f.name) && Basename(p) == f.name
    {
      PathOrigin(files, p);
    }
  }
}
