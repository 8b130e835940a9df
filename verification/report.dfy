/** The end of ils-fixup.py (lines 100-106) and the run as a whole: after the scan, every
    correction no nav.dat line matched is reported as "NO SUCH ILS", and with `--rm-script`
    a shell script lists the correction files to remove. Both are iterated from Python sets,
    in no defined order, so they are modelled as sets. */
module Report {
  import opened PyText
  import opened Loader
  import opened Scan

  /** Line 100: `set(ils_data.iterkeys()).difference(used_keys)`. */
  function NoSuchIls(ilsData: map<Key, Correction>, usedKeys: set<Key>): set<Key> {
    ilsData.Keys - usedKeys
  }

  /** Line 105 as written: `set(ils_filenames).difference(used_filenames)`. The first set
      holds joined paths, the second bare file names. */
  function RemovalTargets(paths: seq<string>, usedFilenames: set<string>): set<string> {
    set p | p in paths && p !in usedFilenames
  }

  /** Line 106: the script line for one file. */
  function RmCommand(path: string): string {
    "git rm " + path
  }

  /** Different files give different script lines, so the script has one line per file listed. */
  lemma RmCommandInjective(a: string, b: string)
    ensures RmCommand(a) == RmCommand(b) <==> a == b
  {
    if RmCommand(a) == RmCommand(b) {
      assert a == RmCommand(a)[7..];
    }
  }

  /** The lines of the removal script for the files `targets` (lines 105-106). */
  function RmScript(targets: set<string>): set<string> {
    set p | p in targets :: RmCommand(p)
  }

  /** "NO SUCH ILS" goes out exactly for the loaded keys that no scanned line matched. */
  lemma NoSuchIlsExactly(ilsData: map<Key, Correction>, fmt: Formats, lines: seq<string>, k: Key)
    ensures k in NoSuchIls(ilsData, MatchedKeys(ilsData, fmt, lines)) <==>
      k in ilsData && forall i :: 0 <= i < |lines| ==> MatchedKey(Examine(ilsData, fmt, lines[i])) != Some(k)
  {
    MatchedKeysExactly(ilsData, fmt, lines, k);
  }

  /** Every key is either matched by the scan or reported, never both. */
  lemma NoSuchIlsPartition(ilsData: map<Key, Correction>, fmt: Formats, lines: seq<string>)
    ensures NoSuchIls(ilsData, MatchedKeys(ilsData, fmt, lines)) + MatchedKeys(ilsData, fmt, lines) == ilsData.Keys
    ensures NoSuchIls(ilsData, MatchedKeys(ilsData, fmt, lines)) !! MatchedKeys(ilsData, fmt, lines)
  {
    MatchedKeysLoaded(ilsData, fmt, lines);
  }

  /** The correction of a rewritten line is the table's entry for its key. */
  lemma FixedFromTable(ilsData: map<Key, Correction>, fmt: Formats, line: string)
    requires Examine(ilsData, fmt, line).Fixed?
    ensures Examine(ilsData, fmt, line).key in ilsData
    ensures Examine(ilsData, fmt, line).correction == ilsData[Examine(ilsData, fmt, line).key]
  {
    SplitWords(line);
    assert Examine(ilsData, fmt, line) == ExamineRow(ilsData, fmt, Split(line));
  }

  /** `used_filenames` only ever holds the bare names of walked correction files. */
  lemma UsedFilenamesAreNames(files: seq<WalkedFile>, fmt: Formats, lines: seq<string>, name: string)
    ensures name in FixedFiles(CorrectionIndex(files), fmt, lines) ==>
      exists f :: f in files && IsCorrectionFile(f.name) && f.name == name
  {
    var ilsData := CorrectionIndex(files);
    FixedFilesExactly(ilsData, fmt, lines, name);
    if name in FixedFiles(ilsData, fmt, lines) {
      var i :| 0 <= i < |lines| && Examine(ilsData, fmt, lines[i]).Fixed? && Examine(ilsData, fmt, lines[i]).correction.filename == name;
      FixedFromTable(ilsData, fmt, lines[i]);
      IndexFromFiles(files, Examine(ilsData, fmt, lines[i]).key);
    }
  }

  /** As written, the removal script lists every loaded path whenever the walk reports
      files under a non-empty directory: a joined path holds a '/', a bare name does not,
      so no path is ever found among the used file names, not even that of a file whose
      correction was applied. */
  lemma RemovalListsEveryPath(files: seq<WalkedFile>, fmt: Formats, lines: seq<string>)
    requires forall f :: f in files ==> f.root != [] && '/' !in f.name
    ensures RemovalTargets(CorrectionPaths(files), FixedFiles(CorrectionIndex(files), fmt, lines))
         == set p | p in CorrectionPaths(files)
  {
    var used := FixedFiles(CorrectionIndex(files), fmt, lines);
    PathsAreCorrectionFiles(files);
    forall p | p in CorrectionPaths(files) ensures p !in used {
      var f :| f in files && IsCorrectionFile(f.name) && p == PathJoin(f.root, f.name) && Basename(p) == f.name;
      JoinedPathHasSlash(f.root, f.name);
      if p in used {
        UsedFilenamesAreNames(files, fmt, lines, p);
        assert false;
      }
    }
  }

  /** One walked file, `Airports/KSFO.ils.xml`, whose correction was applied: its name is
      used, and the script still removes it. */
  lemma RemovalListsUsedFile()
    ensures RemovalTargets(["Airports/KSFO.ils.xml"], {"KSFO.ils.xml"}) == {"Airports/KSFO.ils.xml"}
  {
    assert "Airports/KSFO.ils.xml" != "KSFO.ils.xml";
  }

  /** The evidently intended removal list: the loaded paths whose base name (the name the
      corrections record) no rewritten line used. */
  function UnusedCorrectionFiles(paths: seq<string>, usedFilenames: set<string>): set<string> {
    set p | p in paths && Basename(p) !in usedFilenames
  }

  /** With the intended comparison, a loaded correction file is listed exactly when no
      rewritten line took its correction from a correction file of that name. */
  lemma UnusedCorrectionFilesExactly(files: seq<WalkedFile>, fmt: Formats, lines: seq<string>, p: string)
    ensures var ilsData := CorrectionIndex(files);
      p in UnusedCorrectionFiles(CorrectionPaths(files), FixedFiles(ilsData, fmt, lines)) <==>
        && p in CorrectionPaths(files)
        && forall i :: 0 <= i < |lines| && Examine(ilsData, fmt, lines[i]).Fixed? ==>
             Examine(ilsData, fmt, lines[i]).correction.filename != Basename(p)
  {
    FixedFilesExactly(CorrectionIndex(files), fmt, lines, Basename(p));
  }

  /** A file whose correction was applied is kept by the intended comparison. */
  lemma UsedFileKept(files: seq<WalkedFile>, fmt: Formats, lines: seq<string>, i: nat)
    requires forall f :: f in files ==> '/' !in f.name
    requires i < |files| && IsCorrectionFile(files[i].name)
    requires files[i].name in FixedFiles(CorrectionIndex(files), fmt, lines)
    ensures PathJoin(files[i].root, files[i].name) in CorrectionPaths(files)
    ensures PathJoin(files[i].root, files[i].name) !in UnusedCorrectionFiles(CorrectionPaths(files), FixedFiles(CorrectionIndex(files), fmt, lines))
  {
    PathRecorded(files, i);
    BasenameOfJoin(files[i].root, files[i].name);
  }

  /** The path of every walked correction file is recorded. */
  lemma {:induction false} PathRecorded(files: seq<WalkedFile>, i: nat)
    requires i < |files| && IsCorrectionFile(files[i].name)
    ensures PathJoin(files[i].root, files[i].name) in CorrectionPaths(files)
  {
    var n := |files| - 1;
    if i < n {
      PathRecorded(files[..n], i);
    }
  }

  /** What a run of the script produces: the lines written to standard output and the
      diagnostics written to standard error by the scan, then either the exception that
      stopped it or the keys reported as "NO SUCH ILS" and, with `--rm-script`, the lines
      of the removal script. */
  datatype RunResult =
    | Crashed(error: ScanError, stdout: seq<string>, stderr: seq<Diagnostic>)
    | Finished(stdout: seq<string>, stderr: seq<Diagnostic>, noSuchIls: set<Key>, script: Option<set<string>>)

  /** The script from line 26 to line 106: load the corrections, scan nav.dat, report. */
  method Run(files: seq<WalkedFile>, lines: seq<string>, fmt: Formats, rmScript: bool) returns (r: RunResult)
    ensures var ilsData := CorrectionIndex(files);
      var n := FirstFailure(ilsData, fmt, lines);
      var scanned := ScannedPrefix(ilsData, fmt, lines);
      && r.stdout == Emitted(ilsData, fmt, scanned)
      && r.stderr == Diagnostics(ilsData, fmt, scanned)
      && (r.Crashed? <==> n < |lines|)
      && (r.Crashed? ==> Some(r.error) == ErrorOf(Examine(ilsData, fmt, lines[n])))
      && (r.Finished? ==>
            && r.noSuchIls == NoSuchIls(ilsData, MatchedKeys(ilsData, fmt, lines))
            && r.script == (if rmScript then Some(RmScript(RemovalTargets(CorrectionPaths(files), FixedFiles(ilsData, fmt, lines)))) else None))
  {
    var ilsData, ilsFilenames := LoadCorrections(files);
    var rec := new Reconciler(ilsData, fmt);
    var error := rec.ScanAll(lines);
    ghost var scanned := ScannedPrefix(ilsData, fmt, lines);
    assert rec.scanned == scanned;
    if error.Some? {
      r := Crashed(error.value, rec.stdout, rec.stderr);
    } else {
      assert scanned == lines;
      var noSuchIls := NoSuchIls(ilsData, rec.usedKeys);
      var script := None;
      if rmScript {
        script := Some(RmScript(RemovalTargets(ilsFilenames, rec.usedFilenames)));
      }
      r := Finished(rec.stdout, rec.stderr, noSuchIls, script);
    }
  }
}
