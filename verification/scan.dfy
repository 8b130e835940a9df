/** The scan of nav.dat in ils-fixup.py (lines 49-98). Each line is examined on its own:
    `Examine` says what the loop body does with it, as a value; `Reconciler` is the loop's
    mutable state (`used_keys`, `used_filenames` and the two output streams) and
    `Reconciler.ScanLine` is the loop body, rewriting the token list in place.
    Reading the gzip file is outside the model: its lines are given as a sequence. */
module Scan {
  import opened PyText
  import opened Loader
  import opened Tolerance

  /** The fixed-width float formats of lines 89, 90 and 92: `'% 012.8f'` for the latitude,
      `'% 013.8f'` for the longitude and `'%11.3f'` for the heading. They are parameters
      of the model; `'%6d'` (line 91) is modelled by `FormatInt`. */
  datatype Formats = Formats(lat: real -> string, lon: real -> string, hdg: real -> string)

  /** The exceptions that end the run: `int()` or `float()` rejecting a token
      (ValueError), or a row-4 line too short to have a token 8 (IndexError). */
  datatype ScanError = BadInt(token: string) | BadFloat(token: string) | IndexOutOfRange(count: nat)

  /** What the loop body does with one line. */
  datatype LineOutcome =
      /** `continue` at line 56, 60 or 65: blank, not row type 4, or no correction. */
    | Skipped
      /** An exception; `matched` is the key already added to `used_keys` (line 66) when
          the exception comes from reading the numbers after it. */
    | Failed(error: ScanError, matched: Option<Key>)
      /** Line 98: the record agrees with its correction. */
    | Agreed(key: Key)
      /** Lines 78-96: the record's tokens, the correction applied to them, the differences
          between the two and the nav-id the record carried (token 7). */
    | Fixed(key: Key, correction: Correction, deltas: Deltas, found: string, tokens: seq<string>)

  /** A line written to standard error while scanning. */
  datatype Diagnostic = Discrepancy(key: Key, parts: seq<Mismatch>) | NoDiff(key: Key)

  const IlsRowType := 4

  /** The token indices lines 89-93 overwrite. */
  const RewrittenFields: set<int> := {1, 2, 3, 6, 7}

  /** Lines 69-72 read tokens 2, 1, 3 and 6, in that order; the first one that does not
      parse raises. */
  datatype Reading = Read(fields: DbFields) | Unreadable(error: ScanError)

  function Measure(tokens: seq<string>): Reading
    requires |tokens| >= 7
  {
    match ParseFloat(tokens[2])
    case None => Unreadable(BadFloat(tokens[2]))
    case Some(lon) =>
      match ParseFloat(tokens[1])
      case None => Unreadable(BadFloat(tokens[1]))
      case Some(lat) =>
        match ParseInt(tokens[3])
        case None => Unreadable(BadInt(tokens[3]))
        case Some(elevFt) =>
          match ParseFloat(tokens[6])
          case None => Unreadable(BadFloat(tokens[6]))
          case Some(hdg) => Read(DbFields(lat, lon, elevFt, hdg))
  }

  /** The token list after lines 89-93: the five corrected fields replaced, every other
      token and the number of tokens kept. */
  function Corrected(tokens: seq<string>, c: Correction, fmt: Formats): seq<string>
    requires |tokens| >= 8
  {
    tokens[1 := fmt.lat(c.lat)][2 := fmt.lon(c.lon)][3 := FormatInt(ElevationFeet(c.elev), 6)]
          [6 := fmt.hdg(c.hdg)][7 := c.navId]
  }

  /** The rewrite keeps the number of tokens and every token outside fields 1, 2, 3, 6 and 7,
      and puts the correction's values, formatted, in those five; field 7 becomes the nav-id. */
  lemma CorrectedFields(tokens: seq<string>, c: Correction, fmt: Formats)
    requires |tokens| >= 8
    ensures var r := Corrected(tokens, c, fmt);
      && |r| == |tokens|
      && (forall i :: 0 <= i < |tokens| && i !in RewrittenFields ==> r[i] == tokens[i])
      && r[1] == fmt.lat(c.lat) && r[2] == fmt.lon(c.lon) && r[6] == fmt.hdg(c.hdg)
      && r[3] == FormatInt(ElevationFeet(c.elev), 6)
      && r[7] == c.navId
  {
  }

  /** Line 94: the line printed for a rewritten record. */
  function RewrittenLine(tokens: seq<string>, c: Correction, fmt: Formats): string
    requires |tokens| >= 8
  {
    Join(Corrected(tokens, c, fmt))
  }

  /** Lines 89-93, in place on the token list. */
  method ApplyCorrection(tokens: array<string>, c: Correction, fmt: Formats)
    requires tokens.Length >= 8
    modifies tokens
    ensures tokens[..] == Corrected(old(tokens[..]), c, fmt)
  {
    tokens[1] := fmt.lat(c.lat);
    tokens[2] := fmt.lon(c.lon);
    tokens[3] := FormatInt(ElevationFeet(c.elev), 6);
    tokens[6] := fmt.hdg(c.hdg);
    tokens[7] := c.navId;
  }

  /** Lines 89-94: the token list copied into an array, rewritten in place and joined. */
  method RewriteRow(tokens: seq<string>, c: Correction, fmt: Formats) returns (line: string)
    requires |tokens| >= 8
    ensures line == RewrittenLine(tokens, c, fmt)
  {
    var row := new string[|tokens|](i requires 0 <= i < |tokens| => tokens[i]);
    assert row[..] == tokens;
    ApplyCorrection(row, c, fmt);
    line := Join(row[..]);
  }

  /** The body of the scan loop (lines 54-98) on one line, as a value: a line with no
      tokens is skipped (line 55), any other is a row. */
  function Examine(ilsData: map<Key, Correction>, fmt: Formats, line: string): LineOutcome {
    var tokens := Split(line);
    if tokens == [] then Skipped else ExamineRow(ilsData, fmt, tokens)
  }

  /** Lines 58-67: the row type, the key (airport code, runway) and its correction. */
  function ExamineRow(ilsData: map<Key, Correction>, fmt: Formats, tokens: seq<string>): (o: LineOutcome)
    requires tokens != []
    ensures (o.Agreed? || o.Fixed?) ==> o.key in ilsData
    ensures o.Fixed? ==> o.correction == ilsData[o.key] && |o.tokens| >= 9
    ensures o.Failed? && o.matched.Some? ==> o.matched.value in ilsData
  {
    match ParseInt(tokens[0])
    case None => Failed(BadInt(tokens[0]), None)
    case Some(rowType) =>
      if rowType != IlsRowType then Skipped
      else if |tokens| < 9 then Failed(IndexOutOfRange(|tokens|), None)
      else
        var key := Key(tokens[8], tokens[|tokens| - 2]);
        if key !in ilsData then Skipped else ExamineMatch(key, ilsData[key], fmt, tokens)
  }

  /** Lines 68-98, for a row whose key has the correction `c`: read the record's numbers,
      then either rewrite it or report that it agrees. */
  function ExamineMatch(key: Key, c: Correction, fmt: Formats, tokens: seq<string>): (o: LineOutcome)
    requires |tokens| >= 9
    ensures (o.Agreed? || o.Fixed?) ==> o.key == key
    ensures o.Fixed? ==> o.correction == c && o.tokens == tokens
    ensures o.Failed? ==> o.matched == Some(key)
  {
    match Measure(tokens)
    case Unreadable(e) => Failed(e, Some(key))
    case Read(db) =>
      var d := DeltasOf(db, c);
      if NeedsCorrection(d, c.navId, tokens[7]) then Fixed(key, c, d, tokens[7], tokens)
      else Agreed(key)
  }

  // ---------------------------------------------------------------------------
  // The contribution of one line to each piece of state, and of a run of lines
  // ---------------------------------------------------------------------------

  /** The key the line adds to `used_keys` (line 66), if any. */
  function MatchedKey(o: LineOutcome): Option<Key> {
    match o
    case Agreed(k) => Some(k)
    case Fixed(k, _, _, _, _) => Some(k)
    case Failed(_, m) => m
    case Skipped => None
  }

  function KeysOf(o: LineOutcome): set<Key> {
    if MatchedKey(o).Some? then {MatchedKey(o).value} else {}
  }

  function FilesOf(o: LineOutcome): set<string> {
    if o.Fixed? then {o.correction.filename} else {}
  }

  /** `Examine` gives `Fixed` only for lines of at least nine tokens. */
  function EmittedOf(fmt: Formats, o: LineOutcome): seq<string> {
    if o.Fixed? && |o.tokens| >= 8 then [RewrittenLine(o.tokens, o.correction, fmt)] else []
  }

  function DiagnosticsOf(o: LineOutcome): seq<Diagnostic> {
    match o
    case Agreed(k) => [NoDiff(k)]
    case Fixed(k, c, d, found, _) => [Discrepancy(k, Mismatches(d, c.navId, found))]
    case _ => []
  }

  function ErrorOf(o: LineOutcome): Option<ScanError> {
    if o.Failed? then Some(o.error) else None
  }

  /** What the loop body does with each of `lines`. */
  function Outcomes(ilsData: map<Key, Correction>, fmt: Formats, lines: seq<string>): (os: seq<LineOutcome>)
    ensures |os| == |lines|
  {
    if lines == [] then []
    else Outcomes(ilsData, fmt, lines[..|lines| - 1]) + [Examine(ilsData, fmt, lines[|lines| - 1])]
  }

  /** The keys a run of outcomes adds to `used_keys`. */
  function KeysIn(os: seq<LineOutcome>): set<Key> {
    if os == [] then {} else KeysIn(os[..|os| - 1]) + KeysOf(os[|os| - 1])
  }

  /** The file names a run of outcomes adds to `used_filenames`. */
  function FilesIn(os: seq<LineOutcome>): set<string> {
    if os == [] then {} else FilesIn(os[..|os| - 1]) + FilesOf(os[|os| - 1])
  }

  /** The lines a run of outcomes writes to standard output. */
  function EmittedIn(fmt: Formats, os: seq<LineOutcome>): seq<string> {
    if os == [] then [] else EmittedIn(fmt, os[..|os| - 1]) + EmittedOf(fmt, os[|os| - 1])
  }

  /** The lines a run of outcomes writes to standard error. */
  function DiagnosticsIn(os: seq<LineOutcome>): seq<Diagnostic> {
    if os == [] then [] else DiagnosticsIn(os[..|os| - 1]) + DiagnosticsOf(os[|os| - 1])
  }

  /** `used_keys` after scanning `lines`. */
  function MatchedKeys(ilsData: map<Key, Correction>, fmt: Formats, lines: seq<string>): set<Key> {
    KeysIn(Outcomes(ilsData, fmt, lines))
  }

  /** `used_filenames` after scanning `lines`. */
  function FixedFiles(ilsData: map<Key, Correction>, fmt: Formats, lines: seq<string>): set<string> {
    FilesIn(Outcomes(ilsData, fmt, lines))
  }

  /** Standard output after scanning `lines`. */
  function Emitted(ilsData: map<Key, Correction>, fmt: Formats, lines: seq<string>): seq<string> {
    EmittedIn(fmt, Outcomes(ilsData, fmt, lines))
  }

  /** Standard error after scanning `lines`. */
  function Diagnostics(ilsData: map<Key, Correction>, fmt: Formats, lines: seq<string>): seq<Diagnostic> {
    DiagnosticsIn(Outcomes(ilsData, fmt, lines))
  }

  /** The index of the first line that raises, or `|lines|` when none does. */
  function FirstFailure(ilsData: map<Key, Correction>, fmt: Formats, lines: seq<string>): (n: nat)
    ensures n <= |lines|
  {
    if lines == [] then 0
    else if Examine(ilsData, fmt, lines[0]).Failed? then 0
    else 1 + FirstFailure(ilsData, fmt, lines[1..])
  }

  /** No line before `FirstFailure` raises, and the line at it does. */
  lemma {:induction false} FirstFailureIsFirst(ilsData: map<Key, Correction>, fmt: Formats, lines: seq<string>)
    ensures forall j :: 0 <= j < FirstFailure(ilsData, fmt, lines) ==> !Examine(ilsData, fmt, lines[j]).Failed?
    ensures FirstFailure(ilsData, fmt, lines) < |lines| ==> Examine(ilsData, fmt, lines[FirstFailure(ilsData, fmt, lines)]).Failed?
  {
    if lines != [] && !Examine(ilsData, fmt, lines[0]).Failed? {
      FirstFailureIsFirst(ilsData, fmt, lines[1..]);
      forall j | 1 <= j < FirstFailure(ilsData, fmt, lines) ensures !Examine(ilsData, fmt, lines[j]).Failed? {
        assert lines[j] == lines[1..][j - 1];
      }
    }
  }

  /** Those two facts pin `FirstFailure` down. */
  lemma {:induction false} FirstFailureUnique(ilsData: map<Key, Correction>, fmt: Formats, lines: seq<string>, n: nat)
    requires n <= |lines|
    requires forall j :: 0 <= j < n ==> !Examine(ilsData, fmt, lines[j]).Failed?
    requires n < |lines| ==> Examine(ilsData, fmt, lines[n]).Failed?
    ensures FirstFailure(ilsData, fmt, lines) == n
  {
    if n > 0 {
      forall j | 0 <= j < n - 1 ensures !Examine(ilsData, fmt, lines[1..][j]).Failed? {
        assert lines[1..][j] == lines[j + 1];
      }
      if n - 1 < |lines[1..]| {
        assert lines[1..][n - 1] == lines[n];
      }
      FirstFailureUnique(ilsData, fmt, lines[1..], n - 1);
    }
  }

  /** The lines the scan gets through: all of them, or up to and including the one that raises. */
  function ScannedPrefix(ilsData: map<Key, Correction>, fmt: Formats, lines: seq<string>): seq<string> {
    var n := FirstFailure(ilsData, fmt, lines);
    if n < |lines| then lines[..n + 1] else lines
  }

  /** Each piece of state after one more outcome is the piece before it plus that outcome's share. */
  lemma FoldStep(fmt: Formats, os: seq<LineOutcome>, o: LineOutcome)
    ensures KeysIn(os + [o]) == KeysIn(os) + KeysOf(o)
    ensures FilesIn(os + [o]) == FilesIn(os) + FilesOf(o)
    ensures EmittedIn(fmt, os + [o]) == EmittedIn(fmt, os) + EmittedOf(fmt, o)
    ensures DiagnosticsIn(os + [o]) == DiagnosticsIn(os) + DiagnosticsOf(o)
  {
    assert (os + [o])[..|os|] == os;
  }

  /** One pass of the scan loop over `lines[i]`, from a state that has taken the lines
      before it: the scanned lines grow to `lines[..i + 1]`, and
      the pass raises exactly at the first failing line. */
  lemma ScanAllStep(ilsData: map<Key, Correction>, fmt: Formats, lines: seq<string>, i: nat,
                    scanned0: seq<string>)
    requires i < |lines| && i <= FirstFailure(ilsData, fmt, lines)
    ensures scanned0 + lines[..i] + [lines[i]] == scanned0 + lines[..i + 1]
    ensures ErrorOf(Examine(ilsData, fmt, lines[i])).Some? <==> i == FirstFailure(ilsData, fmt, lines)
  {
    FirstFailureIsFirst(ilsData, fmt, lines);
    assert lines[..i + 1] == lines[..i] + [lines[i]];
  }

  /** Scanning one more line appends its outcome. */
  lemma OutcomesStep(ilsData: map<Key, Correction>, fmt: Formats, lines: seq<string>, line: string)
    ensures Outcomes(ilsData, fmt, lines + [line]) == Outcomes(ilsData, fmt, lines) + [Examine(ilsData, fmt, line)]
  {
    assert (lines + [line])[..|lines|] == lines;
  }

  // ---------------------------------------------------------------------------
  // The scan loop's state
  // ---------------------------------------------------------------------------

  class Reconciler {
    const ilsData: map<Key, Correction>
    const fmt: Formats
    var usedKeys: set<Key>
    var usedFilenames: set<string>
    /** Lines written to standard output. */
    var stdout: seq<string>
    /** Lines written to standard error by the scan. */
    var stderr: seq<Diagnostic>
    /** The nav.dat lines read so far. */
    ghost var scanned: seq<string>

    /** The state is what scanning the lines read so far against `ilsData` makes it. */
    ghost predicate Valid()
      reads this
    {
      && usedKeys == MatchedKeys(ilsData, fmt, scanned)
      && usedFilenames == FixedFiles(ilsData, fmt, scanned)
      && stdout == Emitted(ilsData, fmt, scanned)
      && stderr == Diagnostics(ilsData, fmt, scanned)
    }

    /** Lines 49-50, with the table the loader filled. */
    constructor (ilsData: map<Key, Correction>, fmt: Formats)
      ensures Valid()
      ensures this.ilsData == ilsData && this.fmt == fmt
      ensures scanned == []
      ensures usedKeys == {} && usedFilenames == {} && stdout == [] && stderr == []
    {
      this.ilsData := ilsData;
      this.fmt := fmt;
      usedKeys, usedFilenames, stdout, stderr := {}, {}, [], [];
      scanned := [];
    }

    /** The four pieces of state have taken the effect of outcome `o`. */
    twostate predicate Took(o: LineOutcome)
      reads this
    {
      && usedKeys == old(usedKeys) + KeysOf(o)
      && usedFilenames == old(usedFilenames) + FilesOf(o)
      && stdout == old(stdout) + EmittedOf(fmt, o)
      && stderr == old(stderr) + DiagnosticsOf(o)
    }

    /** One pass of the loop body (lines 54-98). */
    method ScanLine(line: string) returns (error: Option<ScanError>)
      requires Valid()
      modifies this
      ensures Valid()
      ensures scanned == old(scanned) + [line]
      ensures Took(Examine(ilsData, fmt, line))
      ensures error == ErrorOf(Examine(ilsData, fmt, line))
      ensures old(usedKeys) <= usedKeys && old(usedFilenames) <= usedFilenames
      ensures old(stdout) <= stdout && old(stderr) <= stderr
    {
      ScanStep(ilsData, fmt, scanned, line);
      SplitWords(line);
      error := None;
      if !AllSpace(line) {
        var tokens := Split(line);
        error := ScanRow(tokens);
      }
      scanned := scanned + [line];
    }

    /** Lines 58-67 of the loop body, on the tokens of a line that is not blank. */
    method ScanRow(tokens: seq<string>) returns (error: Option<ScanError>)
      requires tokens != []
      modifies this
      ensures Took(ExamineRow(ilsData, fmt, tokens))
      ensures error == ErrorOf(ExamineRow(ilsData, fmt, tokens))
      ensures scanned == old(scanned)
    {
      error := None;
      var rowType := ParseInt(tokens[0]);
      if rowType.None? {
        error := Some(BadInt(tokens[0]));
      } else if rowType.value == IlsRowType {
        if |tokens| < 9 {
          error := Some(IndexOutOfRange(|tokens|));
        } else {
          var key := Key(tokens[8], tokens[|tokens| - 2]);
          if key in ilsData {
            error := ScanMatch(key, ilsData[key], tokens);
          }
        }
      }
    }

    /** Lines 66-98 of the loop body, for a row whose key has the correction `c`. */
    method ScanMatch(key: Key, c: Correction, tokens: seq<string>) returns (error: Option<ScanError>)
      requires |tokens| >= 9
      modifies this
      ensures Took(ExamineMatch(key, c, fmt, tokens))
      ensures error == ErrorOf(ExamineMatch(key, c, fmt, tokens))
      ensures scanned == old(scanned)
    {
      error := None;
      usedKeys := usedKeys + {key};
      var reading := Measure(tokens);
      if reading.Unreadable? {
        error := Some(reading.error);
      } else {
        var d := DeltasOf(reading.fields, c);
        if NeedsCorrection(d, c.navId, tokens[7]) {
          stderr := stderr + [Discrepancy(key, Mismatches(d, c.navId, tokens[7]))];
          var fixedLine := RewriteRow(tokens, c, fmt);
          stdout := stdout + [fixedLine];
          usedFilenames := usedFilenames + {c.filename};
        } else {
          stderr := stderr + [NoDiff(key)];
        }
      }
    }

    /** The loop of lines 53-98: every line in turn, until one raises. */
    method ScanAll(lines: seq<string>) returns (error: Option<ScanError>)
      requires Valid()
      modifies this
      ensures Valid()
      ensures var n := FirstFailure(ilsData, fmt, lines);
        && scanned == old(scanned) + (if n < |lines| then lines[..n + 1] else lines)
        && (error.Some? <==> n < |lines|)
        && error == (if n < |lines| then ErrorOf(Examine(ilsData, fmt, lines[n])) else None)
    {
      ghost var n := FirstFailure(ilsData, fmt, lines);
      error := None;
      var i := 0;
      while i < |lines|
        invariant 0 <= i <= n
        invariant Valid()
        invariant scanned == old(scanned) + lines[..i]
      {
        var e := ScanLine(lines[i]);
        ScanAllStep(ilsData, fmt, lines, i, old(scanned));
        if e.Some? {
          error := e;
          return;
        }
        i := i + 1;
      }
      assert lines[..i] == lines;
    }
  }

  // ---------------------------------------------------------------------------
  // Properties of the scan
  // ---------------------------------------------------------------------------

  /** One more line adds its outcome's share to each piece of state. */
  lemma ScanStep(ilsData: map<Key, Correction>, fmt: Formats, lines: seq<string>, line: string)
    ensures var o := Examine(ilsData, fmt, line);
      && MatchedKeys(ilsData, fmt, lines + [line]) == MatchedKeys(ilsData, fmt, lines) + KeysOf(o)
      && FixedFiles(ilsData, fmt, lines + [line]) == FixedFiles(ilsData, fmt, lines) + FilesOf(o)
      && Emitted(ilsData, fmt, lines + [line]) == Emitted(ilsData, fmt, lines) + EmittedOf(fmt, o)
      && Diagnostics(ilsData, fmt, lines + [line]) == Diagnostics(ilsData, fmt, lines) + DiagnosticsOf(o)
  {
    OutcomesStep(ilsData, fmt, lines, line);
    FoldStep(fmt, Outcomes(ilsData, fmt, lines), Examine(ilsData, fmt, line));
  }

  /** Scanning more lines only ever adds: `used_keys` and `used_filenames` grow and both
      output streams are extended, never rewritten. */
  lemma {:induction false} ScanOnlyGrows(ilsData: map<Key, Correction>, fmt: Formats, lines: seq<string>, more: seq<string>)
    ensures MatchedKeys(ilsData, fmt, lines) <= MatchedKeys(ilsData, fmt, lines + more)
    ensures FixedFiles(ilsData, fmt, lines) <= FixedFiles(ilsData, fmt, lines + more)
    ensures Emitted(ilsData, fmt, lines) <= Emitted(ilsData, fmt, lines + more)
    ensures Diagnostics(ilsData, fmt, lines) <= Diagnostics(ilsData, fmt, lines + more)
    decreases |more|
  {
    if more == [] {
      assert lines + more == lines;
    } else {
      var front, last := more[..|more| - 1], more[|more| - 1];
      assert lines + more == (lines + front) + [last];
      ScanOnlyGrows(ilsData, fmt, lines, front);
      ScanStep(ilsData, fmt, lines + front, last);
    }
  }

  /** A blank line, a line whose first token is an integer other than 4, and a row-4 line
      whose key has no correction are skipped. */
  lemma IgnoredLine(ilsData: map<Key, Correction>, fmt: Formats, line: string)
    requires || AllSpace(line)
             || (var ts := Split(line);
                 && ts != [] && ParseInt(ts[0]).Some?
                 && (|| ParseInt(ts[0]).value != IlsRowType
                     || (|ts| >= 9 && Key(ts[8], ts[|ts| - 2]) !in ilsData)))
    ensures Examine(ilsData, fmt, line) == Skipped
  {
    SplitWords(line);
  }

  /** A skipped line leaves every piece of state as it was. */
  lemma IgnoredLines(ilsData: map<Key, Correction>, fmt: Formats, lines: seq<string>, line: string)
    requires Examine(ilsData, fmt, line) == Skipped
    ensures MatchedKeys(ilsData, fmt, lines + [line]) == MatchedKeys(ilsData, fmt, lines)
    ensures FixedFiles(ilsData, fmt, lines + [line]) == FixedFiles(ilsData, fmt, lines)
    ensures Emitted(ilsData, fmt, lines + [line]) == Emitted(ilsData, fmt, lines)
    ensures Diagnostics(ilsData, fmt, lines + [line]) == Diagnostics(ilsData, fmt, lines)
  {
    ScanStep(ilsData, fmt, lines, line);
  }

  /** A readable row-4 line with a correction is rewritten exactly when one of the five
      tests fires, and otherwise agrees. */
  lemma MatchedLineOutcome(ilsData: map<Key, Correction>, fmt: Formats, line: string,
                           ts: seq<string>, key: Key, db: DbFields)
    requires ts == Split(line) && |ts| >= 9 && ParseInt(ts[0]) == Some(IlsRowType)
    requires key == Key(ts[8], ts[|ts| - 2]) && key in ilsData
    requires Measure(ts) == Read(db)
    ensures var c := ilsData[key];
      var d := DeltasOf(db, c);
      && (NeedsCorrection(d, c.navId, ts[7]) ==> Examine(ilsData, fmt, line) == Fixed(key, c, d, ts[7], ts))
      && (!NeedsCorrection(d, c.navId, ts[7]) ==> Examine(ilsData, fmt, line) == Agreed(key))
  {
    assert Examine(ilsData, fmt, line) == ExamineRow(ilsData, fmt, ts);
  }

  /** For a readable row-4 line with a correction: the key is recorded as used either way;
      a rewritten line and one discrepancy diagnostic come out exactly when one of the five
      tests fires, and otherwise exactly one "NO DIFF" diagnostic and no line. */
  lemma MatchedLineDecision(ilsData: map<Key, Correction>, fmt: Formats, lines: seq<string>, line: string,
                            ts: seq<string>, key: Key, db: DbFields)
    requires ts == Split(line) && |ts| >= 9 && ParseInt(ts[0]) == Some(IlsRowType)
    requires key == Key(ts[8], ts[|ts| - 2]) && key in ilsData
    requires Measure(ts) == Read(db)
    ensures var c := ilsData[key];
      var d := DeltasOf(db, c);
      && MatchedKeys(ilsData, fmt, lines + [line]) == MatchedKeys(ilsData, fmt, lines) + {key}
      && (NeedsCorrection(d, c.navId, ts[7]) ==>
            && Emitted(ilsData, fmt, lines + [line]) == Emitted(ilsData, fmt, lines) + [RewrittenLine(ts, c, fmt)]
            && Diagnostics(ilsData, fmt, lines + [line]) == Diagnostics(ilsData, fmt, lines) + [Discrepancy(key, Mismatches(d, c.navId, ts[7]))]
            && FixedFiles(ilsData, fmt, lines + [line]) == FixedFiles(ilsData, fmt, lines) + {c.filename})
      && (!NeedsCorrection(d, c.navId, ts[7]) ==>
            && Emitted(ilsData, fmt, lines + [line]) == Emitted(ilsData, fmt, lines)
            && Diagnostics(ilsData, fmt, lines + [line]) == Diagnostics(ilsData, fmt, lines) + [NoDiff(key)]
            && FixedFiles(ilsData, fmt, lines + [line]) == FixedFiles(ilsData, fmt, lines))
  {
    MatchedLineOutcome(ilsData, fmt, line, ts, key, db);
    ScanStep(ilsData, fmt, lines, line);
  }

  /** The outcome of the i-th line. */
  lemma {:induction false} OutcomeAt(ilsData: map<Key, Correction>, fmt: Formats, lines: seq<string>, i: nat)
    requires i < |lines|
    ensures Outcomes(ilsData, fmt, lines)[i] == Examine(ilsData, fmt, lines[i])
  {
    var n := |lines| - 1;
    if i < n {
      OutcomeAt(ilsData, fmt, lines[..n], i);
    }
  }

  lemma {:induction false} KeysInExactly(os: seq<LineOutcome>, k: Key)
    ensures k in KeysIn(os) <==> exists i :: 0 <= i < |os| && MatchedKey(os[i]) == Some(k)
  {
    if os != [] {
      var n := |os| - 1;
      KeysInExactly(os[..n], k);
      if exists i :: 0 <= i < n && MatchedKey(os[..n][i]) == Some(k) {
        var i :| 0 <= i < n && MatchedKey(os[..n][i]) == Some(k);
        assert os[..n][i] == os[i];
      }
      if exists i :: 0 <= i < |os| && MatchedKey(os[i]) == Some(k) {
        var i :| 0 <= i < |os| && MatchedKey(os[i]) == Some(k);
        if i < n { assert os[..n][i] == os[i]; }
      }
    }
  }

  lemma {:induction false} FilesInExactly(os: seq<LineOutcome>, f: string)
    ensures f in FilesIn(os) <==> exists i :: 0 <= i < |os| && os[i].Fixed? && os[i].correction.filename == f
  {
    if os != [] {
      var n := |os| - 1;
      FilesInExactly(os[..n], f);
      if exists i :: 0 <= i < n && os[..n][i].Fixed? && os[..n][i].correction.filename == f {
        var i :| 0 <= i < n && os[..n][i].Fixed? && os[..n][i].correction.filename == f;
        assert os[..n][i] == os[i];
      }
      if exists i :: 0 <= i < |os| && os[i].Fixed? && os[i].correction.filename == f {
        var i :| 0 <= i < |os| && os[i].Fixed? && os[i].correction.filename == f;
        if i < n { assert os[..n][i] == os[i]; }
      }
    }
  }

  /** `used_keys` holds exactly the keys some scanned line matched, whether or not that
      line was rewritten or raised afterwards. */
  lemma MatchedKeysExactly(ilsData: map<Key, Correction>, fmt: Formats, lines: seq<string>, k: Key)
    ensures k in MatchedKeys(ilsData, fmt, lines) <==>
      exists i :: 0 <= i < |lines| && MatchedKey(Examine(ilsData, fmt, lines[i])) == Some(k)
  {
    var os := Outcomes(ilsData, fmt, lines);
    KeysInExactly(os, k);
    forall i | 0 <= i < |lines| ensures os[i] == Examine(ilsData, fmt, lines[i]) {
      OutcomeAt(ilsData, fmt, lines, i);
    }
  }

  /** `used_keys` never leaves the keys of `ils_data`. */
  lemma MatchedKeysLoaded(ilsData: map<Key, Correction>, fmt: Formats, lines: seq<string>)
    ensures MatchedKeys(ilsData, fmt, lines) <= ilsData.Keys
  {
    forall k | k in MatchedKeys(ilsData, fmt, lines) ensures k in ilsData {
      MatchedKeysExactly(ilsData, fmt, lines, k);
    }
  }

  /** In every valid state of the scan, `used_keys` is a subset of the keys of `ils_data`. */
  lemma ValidKeysLoaded(r: Reconciler)
    requires r.Valid()
    ensures r.usedKeys <= r.ilsData.Keys
  {
    MatchedKeysLoaded(r.ilsData, r.fmt, r.scanned);
  }

  /** `used_filenames` holds exactly the file names of corrections that produced a rewritten line. */
  lemma FixedFilesExactly(ilsData: map<Key, Correction>, fmt: Formats, lines: seq<string>, f: string)
    ensures f in FixedFiles(ilsData, fmt, lines) <==>
      exists i :: 0 <= i < |lines| && Examine(ilsData, fmt, lines[i]).Fixed? && Examine(ilsData, fmt, lines[i]).correction.filename == f
  {
    var os := Outcomes(ilsData, fmt, lines);
    FilesInExactly(os, f);
    forall i | 0 <= i < |lines| ensures os[i] == Examine(ilsData, fmt, lines[i]) {
      OutcomeAt(ilsData, fmt, lines, i);
    }
  }

  /** A formatted value that reads back, through `split()` and `float()`, as one token
      within `eps` of `x`. */
  predicate ReadsBack(s: string, x: real, eps: real) {
    var ws := Split(s);
    |ws| == 1 && ParseFloat(ws[0]).Some? && Abs(ParseFloat(ws[0]).value - x) <= eps
  }

  /** A row that matched a correction is a row-4 line with at least nine tokens, and its key
      is (token 8, the last token but one). */
  lemma RowMatched(ilsData: map<Key, Correction>, fmt: Formats, tokens: seq<string>)
    requires tokens != []
    requires ExamineRow(ilsData, fmt, tokens).Agreed? || ExamineRow(ilsData, fmt, tokens).Fixed?
    ensures ParseInt(tokens[0]) == Some(IlsRowType) && |tokens| >= 9
    ensures ExamineRow(ilsData, fmt, tokens).key == Key(tokens[8], tokens[|tokens| - 2])
    ensures ExamineRow(ilsData, fmt, tokens).Fixed? ==> ExamineRow(ilsData, fmt, tokens).tokens == tokens
  {
  }

  /** Splitting a rewritten line again gives its tokens back: the untouched ones as they
      were, the nav-id, the elevation's digits, and the one token each float format yields. */
  lemma ResplitRewritten(ts: seq<string>, c: Correction, fmt: Formats)
    requires |ts| >= 8
    requires forall i :: 0 <= i < |ts| ==> IsWord(ts[i])
    requires IsWord(c.navId)
    requires |Split(fmt.lat(c.lat))| == 1 && |Split(fmt.lon(c.lon))| == 1 && |Split(fmt.hdg(c.hdg))| == 1
    ensures var ts2 := Split(RewrittenLine(ts, c, fmt));
      && |ts2| == |ts|
      && (forall i :: 0 <= i < |ts| && i !in RewrittenFields ==> ts2[i] == ts[i])
      && ts2[1] == Split(fmt.lat(c.lat))[0] && ts2[2] == Split(fmt.lon(c.lon))[0]
      && ts2[3] == IntString(ElevationFeet(c.elev))
      && ts2[6] == Split(fmt.hdg(c.hdg))[0] && ts2[7] == c.navId
      && ts2[0] == ts[0] && (|ts| >= 10 ==> ts2[8] == ts[8] && ts2[|ts| - 2] == ts[|ts| - 2])
  {
    var rs := Corrected(ts, c, fmt);
    CorrectedFields(ts, c, fmt);
    FormatIntIsOneToken(ElevationFeet(c.elev), 6);
    SplitOfWord(c.navId);
    forall i | 0 <= i < |rs| ensures |Split(rs[i])| == 1 {
      if i !in RewrittenFields { SplitOfWord(ts[i]); }
    }
    SplitOfJoin(rs);
    SplitEachOfSingletons(rs);
    forall i | 0 <= i < |ts| && i !in RewrittenFields ensures Split(rs[i])[0] == ts[i] {
      SplitOfWord(ts[i]);
    }
    assert 0 !in RewrittenFields && 8 !in RewrittenFields;
    if |ts| >= 10 {
      assert |ts| - 2 !in RewrittenFields;
    }
  }

  /** A row carrying the correction's values (floats within tolerance, the elevation as
      written back, the nav-id) is readable and needs no correction. */
  lemma CorrectedRowAgrees(ts: seq<string>, c: Correction)
    requires |ts| >= 8
    requires ParseFloat(ts[1]).Some? && Abs(ParseFloat(ts[1]).value - c.lat) <= CoordDegEps
    requires ParseFloat(ts[2]).Some? && Abs(ParseFloat(ts[2]).value - c.lon) <= CoordDegEps
    requires ts[3] == IntString(ElevationFeet(c.elev))
    requires ParseFloat(ts[6]).Some? && Abs(ParseFloat(ts[6]).value - c.hdg) <= HdgDegEps
    requires ts[7] == c.navId
    ensures Measure(ts).Read?
    ensures !NeedsCorrection(DeltasOf(Measure(ts).fields, c), c.navId, ts[7])
  {
    ParseIntString(ElevationFeet(c.elev));
    ElevationReadsBack(c.elev);
  }

  /** A line whose row has the key and the values of that key's correction, within
      tolerance, is examined as agreeing with it. */
  lemma AgreeingLine(ilsData: map<Key, Correction>, fmt: Formats, key: Key, line: string)
    requires key in ilsData
    requires var ts := Split(line);
      && |ts| >= 9 && ParseInt(ts[0]) == Some(IlsRowType) && Key(ts[8], ts[|ts| - 2]) == key
      && Measure(ts).Read?
      && !NeedsCorrection(DeltasOf(Measure(ts).fields, ilsData[key]), ilsData[key].navId, ts[7])
    ensures Examine(ilsData, fmt, line) == Agreed(key)
  {
    var ts := Split(line);
    assert ExamineRow(ilsData, fmt, ts) == ExamineMatch(key, ilsData[key], fmt, ts);
  }

  /** The rewrite of a row of words, split again, keeps the row type and (with at least ten
      tokens) the key, and carries values that agree with the correction, when the nav-id
      is one token and the float formats read back within tolerance. */
  lemma RewrittenRowReads(ts: seq<string>, c: Correction, fmt: Formats)
    requires |ts| >= 10 && forall i :: 0 <= i < |ts| ==> IsWord(ts[i])
    requires IsWord(c.navId)
    requires ReadsBack(fmt.lat(c.lat), c.lat, CoordDegEps)
    requires ReadsBack(fmt.lon(c.lon), c.lon, CoordDegEps)
    requires ReadsBack(fmt.hdg(c.hdg), c.hdg, HdgDegEps)
    ensures var ts2 := Split(RewrittenLine(ts, c, fmt));
      && |ts2| == |ts| && ts2[0] == ts[0] && Key(ts2[8], ts2[|ts2| - 2]) == Key(ts[8], ts[|ts| - 2])
      && Measure(ts2).Read?
      && !NeedsCorrection(DeltasOf(Measure(ts2).fields, c), c.navId, ts2[7])
  {
    ResplitRewritten(ts, c, fmt);
    CorrectedRowAgrees(Split(RewrittenLine(ts, c, fmt)), c);
  }

  /** The rewrite of a row-4 row of words whose key has the correction `c` is examined
      again as agreeing with `c`, under the conditions of `RewrittenRowReads`. */
  lemma CorrectedRowIsStable(ilsData: map<Key, Correction>, fmt: Formats, key: Key, c: Correction, ts: seq<string>)
    requires key in ilsData && ilsData[key] == c
    requires |ts| >= 10 && forall i :: 0 <= i < |ts| ==> IsWord(ts[i])
    requires ParseInt(ts[0]) == Some(IlsRowType) && Key(ts[8], ts[|ts| - 2]) == key
    requires IsWord(c.navId)
    requires ReadsBack(fmt.lat(c.lat), c.lat, CoordDegEps)
    requires ReadsBack(fmt.lon(c.lon), c.lon, CoordDegEps)
    requires ReadsBack(fmt.hdg(c.hdg), c.hdg, HdgDegEps)
    ensures Examine(ilsData, fmt, RewrittenLine(ts, c, fmt)) == Agreed(key)
  {
    RewrittenRowReads(ts, c, fmt);
    AgreeingLine(ilsData, fmt, key, RewrittenLine(ts, c, fmt));
  }

  /** Feeding a rewritten line back through the scan finds the same key and no discrepancy:
      the rewrite is idempotent. This needs the line to have at least ten tokens (with nine,
      the runway token `tokens[-2]` is token 7, which the rewrite replaces by the nav-id),
      the nav-id to be one token, and the float formats to read back within tolerance. */
  lemma CorrectedLineIsStable(ilsData: map<Key, Correction>, fmt: Formats, line: string)
    requires Examine(ilsData, fmt, line).Fixed?
    requires |Split(line)| >= 10
    requires var c := Examine(ilsData, fmt, line).correction;
      && IsWord(c.navId)
      && ReadsBack(fmt.lat(c.lat), c.lat, CoordDegEps)
      && ReadsBack(fmt.lon(c.lon), c.lon, CoordDegEps)
      && ReadsBack(fmt.hdg(c.hdg), c.hdg, HdgDegEps)
    ensures var o := Examine(ilsData, fmt, line);
      Examine(ilsData, fmt, RewrittenLine(o.tokens, o.correction, fmt)) == Agreed(o.key)
  {
    var o := Examine(ilsData, fmt, line);
    var ts := Split(line);
    SplitWords(line);
    assert o == ExamineRow(ilsData, fmt, ts);
    RowMatched(ilsData, fmt, ts);
    CorrectedRowIsStable(ilsData, fmt, o.key, o.correction, ts);
  }

  /** A row of exactly nine tokens has its runway `tokens[-2]` in field 7, the nav-id the
      rewrite overwrites. Such a row matches only if its nav-id token is the runway, so a
      correction with another nav-id always fires, and the rewritten line, scanned again,
      carries a different key and is never found to agree with the correction. */
  lemma NineTokenRowIsRekeyed(ilsData: map<Key, Correction>, fmt: Formats, line: string)
    requires Examine(ilsData, fmt, line).Fixed?
    requires |Split(line)| == 9
    requires var o := Examine(ilsData, fmt, line);
      && o.correction.navId != o.key.rwy
      && IsWord(o.correction.navId)
      && |Split(fmt.lat(o.correction.lat))| == 1
      && |Split(fmt.lon(o.correction.lon))| == 1
      && |Split(fmt.hdg(o.correction.hdg))| == 1
    ensures var o := Examine(ilsData, fmt, line);
      Examine(ilsData, fmt, RewrittenLine(o.tokens, o.correction, fmt)) != Agreed(o.key)
  {
    var o := Examine(ilsData, fmt, line);
    var ts := Split(line);
    SplitWords(line);
    assert o == ExamineRow(ilsData, fmt, ts);
    RowMatched(ilsData, fmt, ts);
    var line2 := RewrittenLine(ts, o.correction, fmt);
    ResplitRewritten(ts, o.correction, fmt);
    var ts2 := Split(line2);
    assert ts2[7] == o.correction.navId;
    if Examine(ilsData, fmt, line2) == Agreed(o.key) {
      RowMatched(ilsData, fmt, ts2);
      assert false;
    }
  }
}
