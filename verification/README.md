# ils-fixup: reconciling ILS corrections with nav.dat

`ils-fixup.py` is a batch script. It reads every `*.ils.xml` correction file under an
airports directory into a table `ils_data`, keyed by (airport code, runway). It then scans
the gzip-compressed navigation database `nav.dat` line by line. Each row of type 4 (an
ILS localizer) whose key has a correction is compared with it: latitude, longitude,
elevation, heading and nav-id. A row that differs by more than the tolerances is rewritten
with the correction's values and printed on standard output, with a diagnostic on
standard error naming what differed. A row that agrees gets a "NO DIFF" diagnostic. At the
end, every correction no row matched is reported as "NO SUCH ILS". With `--rm-script`,
the script also writes a shell script of `git rm` lines for the correction files it
considers redundant.

The Dafny model has five modules:

- `PyText` (`text.dfy`): the Python 2 builtins the script relies on. These are
  `str.split()`, `' '.join`, `int()`, a decimal `float()`, `str(n)`, `'%6d'`,
  `round()`, `str.endswith`, `os.path.join` and `os.path.basename`. Lemmas state the
  properties the script relies on: the tokens of `split()` are words, splitting a
  space-joined line gives its parts back, `int(str(n)) == n`, `float()` reads an integer
  token as `int()` does, a `'%6d'` field is one token, `round` rounds to the nearest
  integer with halves away from zero, `s.split('.')[0]` is the text before the first '.',
  and the base name of a joined path is the name joined on. `str.endswith` is used as a
  definition only.
- `Loader` (`loader.dfy`): the two nested loops that fill `ils_data` and
  `ils_filenames`. `LoadCorrections` is an imperative method proved against the
  specification functions `CorrectionIndex` and `CorrectionPaths`.
- `Tolerance` (`tolerance.dfy`): the constants, the five-way tolerance test and the
  parts of the discrepancy diagnostic.
- `Scan` (`scan.dfy`): the scan loop.
  - `Examine` says what the loop body does with one line, as a value.
  - `Reconciler` is a class holding the loop's mutable state: `used_keys`,
    `used_filenames` and the two output streams.
  - Its methods `ScanLine`, `ScanRow`, `ScanMatch` and `ScanAll` are the loop body and
    the loop. They are proved against folds of `Examine` over the lines scanned.
  - `ApplyCorrection` overwrites the token array in place.
- `Report` (`report.dfy`): the two final set differences, and `Run`, the whole script
  from loading to reporting.

Floating-point numbers are modelled as reals. An exception (`ValueError` from `int()` or
`float()`, `IndexError` from `tokens[8]`) ends the run; the model keeps the output
already produced and the exception that stopped it.

The `--rm-script` help text (`ils-fixup.py:21-22`, "gen. rm script for redundant
files") promises a script that removes the redundant correction files, those no rewritten
line needed. The code compares joined paths with bare file names, so it lists every
loaded path. See "## Findings".

## Model

| member | source | states |
|---|---|---|
| PyText.Split | ils-fixup.py:57 | `str.split()` with no separator; see SplitWords, SplitOfWord, SplitOfJoin |
| PyText.Join | ils-fixup.py:94 | `' '.join`; see SplitAroundSpace, SplitOfJoin |
| PyText.SplitWords | ils-fixup.py:55-57 | every token of `split()` is a non-empty run without whitespace, and there are no tokens exactly when the line is blank (`not line.strip()`) |
| PyText.SplitAroundSpace | ils-fixup.py:94 | splitting `a + " " + b` gives the words of `a` followed by those of `b` |
| PyText.SplitOfJoin | ils-fixup.py:94 | splitting a space-joined token list gives the words of each token, in order |
| PyText.SplitOfWord | ils-fixup.py:57 | a word splits into itself |
| PyText.SplitAfterSpaces | ils-fixup.py:91 | leading whitespace does not change the words of a string |
| PyText.SplitEachOfSingletons | ils-fixup.py:94 | when every part is one word, the words of the parts are those parts, one each |
| PyText.ParseInt | ils-fixup.py:58 | `int()` of a token: optional sign, then decimal digits; see ParseIntString, FloatOfIntToken |
| PyText.ParseFloat | ils-fixup.py:69-72 | `float()` of a plain decimal token; see FloatOfIntToken |
| PyText.DigitsAppend | ils-fixup.py:58 | one more digit multiplies the value read by ten and adds the digit |
| PyText.DecimalString | ils-fixup.py:91 | the decimal digits of a natural number are a non-empty digit string without a leading zero |
| PyText.DigitsRoundTrip | ils-fixup.py:91 | reading the decimal digits of `n` gives `n` back |
| PyText.DecimalOfDigits | ils-fixup.py:69-72 | without a point, the decimal reader gives the value the integer reader gives, as a real |
| PyText.FloatOfIntToken | ils-fixup.py:69-72 | `float()` accepts every token `int()` accepts, with the same value |
| PyText.ParseIntString | ils-fixup.py:71 | `int(str(n)) == n` for every integer, negative ones included |
| PyText.FormatInt | ils-fixup.py:91 | `'%6d' % n`: `str(n)` padded on the left with spaces; see FormatIntIsOneToken |
| PyText.FormatIntIsOneToken | ils-fixup.py:91 | a `'%6d'` field, however padded, splits into the single token `str(n)` |
| PyText.RoundHalfAway | ils-fixup.py:91 | `round(x)` is within one half of `x`, and a tie goes away from zero |
| PyText.FirstIndexIsFirst | ils-fixup.py:33 | no '.' comes before the index found, and the index holds one unless there is none |
| PyText.BeforeFirst | ils-fixup.py:33 | `s.split('.')[0]` is a prefix of `s` without '.', followed in `s` by a '.' unless it is all of `s` |
| PyText.Basename | ils-fixup.py:33 | `os.path.basename` is a suffix of the path without '/', preceded by a '/' unless it is the whole path |
| PyText.EndsWith | ils-fixup.py:31 | `str.endswith`, the test that keeps only `.ils.xml` files; see PathsAreCorrectionFiles |
| PyText.PathJoin | ils-fixup.py:32 | `os.path.join` on POSIX paths; see BasenameOfJoin, JoinedPathHasSlash |
| PyText.BasenameAfterSlash | ils-fixup.py:32-33 | a name without '/' appended to a directory ending in '/' is its own base name |
| PyText.BasenameOfJoin | ils-fixup.py:32-33 | the base name of `os.path.join(root, filename)` is `filename` |
| PyText.JoinedPathHasSlash | ils-fixup.py:32 | a file name joined onto a non-empty directory gives a path containing '/' |
| Loader.AirportCode | ils-fixup.py:33 | the airport code of a path; see AirportCodeOfName, IndexFromFiles |
| Loader.Overlay | ils-fixup.py:46-47 | a table after storing pairs one by one; see OverlayKeys, OverlayLastWins, OverlayAppend |
| Loader.CorrectionIndex | ils-fixup.py:26-47 | `ils_data` after the walk; see LoadCorrections, IndexKeys, IndexLastWins, IndexFromFiles |
| Loader.CorrectionPaths | ils-fixup.py:27-34 | `ils_filenames` after the walk; see LoadCorrections, PathsAreCorrectionFiles, PathRecorded |
| Loader.OverlayAppend | ils-fixup.py:46-47 | storing two runs of pairs one after the other is storing their concatenation |
| Loader.LoadCorrections | ils-fixup.py:26-47 | after the nested loops, `ils_data` is the table of every `ils` element stored in walk order with later ones overwriting, and `ils_filenames` is the joined path of every `.ils.xml` file in walk order |
| Loader.OverlayKeys | ils-fixup.py:46-47 | a key is in the table exactly when some stored pair has it |
| Loader.OverlayLastWins | ils-fixup.py:46-47 | the value of a key is that of the last pair stored under it |
| Loader.IndexKeys | ils-fixup.py:37-47 | `ils_data` holds exactly the keys of the `ils` elements read |
| Loader.IndexLastWins | ils-fixup.py:37-47 | a later `ils` element with the same (airport, runway) overwrites an earlier one |
| Loader.EntriesFromFiles | ils-fixup.py:29-47 | every stored pair comes from a walked `.ils.xml` file, records that file's bare name and has that file's airport code |
| Loader.IndexFromFiles | ils-fixup.py:31-47 | every correction in `ils_data` names a walked `.ils.xml` file, and its airport code holds no '.' |
| Loader.AirportCodeOfName | ils-fixup.py:32-33 | the airport code of a walked file is the text of its name before the first '.' |
| Loader.PathsAreCorrectionFiles | ils-fixup.py:31-34 | every recorded path is the join of a walked `.ils.xml` file's directory and name, and its base name is that name |
| Loader.PathOrigin | ils-fixup.py:31-34 | the pointwise helper of PathsAreCorrectionFiles: one recorded path is the join of a walked `.ils.xml` file's directory and name, and its base name is that name |
| Tolerance.DeltasOf | ils-fixup.py:69-72 | `dlon`, `dlat`, `delev` (metres) and `dhdg`; see CorrectedRowAgrees |
| Tolerance.NeedsCorrection | ils-fixup.py:74-76 | the five-way test; see MismatchesNamed, MatchedLineOutcome, MatchedLineDecision |
| Tolerance.Mismatches | ils-fixup.py:78-87 | the parts of the discrepancy diagnostic, in order; see MismatchesNamed |
| Tolerance.MismatchesNamed | ils-fixup.py:74-87 | the discrepancy diagnostic has a part exactly when one of the five tests fires; each test that fires is named and no other; at most four parts |
| Tolerance.ElevationFeet | ils-fixup.py:91 | `int(round(elev * M_IN_FT))`; see ElevationReadsBack, RoundHalfAway |
| Tolerance.ElevationReadsBack | ils-fixup.py:71-91 | the elevation written back as `int(round(elev * M_IN_FT))` feet, read again in metres, is within half a foot of the correction and inside `ELEV_M_EPS` |
| Scan.Measure | ils-fixup.py:69-72 | the four numbers of a row, read in the order of lines 69-72, or the first parse error; see CorrectedRowAgrees, MatchedLineOutcome |
| Scan.Corrected | ils-fixup.py:89-93 | the token list after the rewrite; see CorrectedFields, ApplyCorrection |
| Scan.CorrectedFields | ils-fixup.py:89-93 | the rewrite keeps the token count and every token outside 1, 2, 3, 6 and 7, and puts the formatted correction values and the nav-id in those five |
| Scan.RewrittenLine | ils-fixup.py:89-94 | the line printed for a rewritten row; see RewriteRow, ResplitRewritten, CorrectedLineIsStable |
| Scan.ApplyCorrection | ils-fixup.py:89-93 | in place on the token array: the array becomes the corrected token list |
| Scan.RewriteRow | ils-fixup.py:89-94 | the printed line is the join of the corrected tokens |
| Scan.Examine | ils-fixup.py:54-98 | the loop body on one line, as a value; see IgnoredLine, MatchedLineOutcome, AgreeingLine, ScanLine |
| Scan.ExamineRow | ils-fixup.py:58-67 | a matched or rewritten row's key is in `ils_data` and its correction is the table's entry; a rewritten row has at least nine tokens |
| Scan.ExamineMatch | ils-fixup.py:66-98 | the outcome carries the row's key and correction, and a row whose numbers do not parse has still had its key matched |
| Scan.Outcomes | ils-fixup.py:53-98 | one outcome per scanned line |
| Scan.FirstFailure | ils-fixup.py:53-58 | the index of the first line that raises is at most the number of lines |
| Scan.FirstFailureIsFirst | ils-fixup.py:58-72 | no line before `FirstFailure` raises, and the line at it does |
| Scan.FirstFailureUnique | ils-fixup.py:58-72 | any index with those two properties is `FirstFailure` |
| Scan.FoldStep | ils-fixup.py:66-98 | each piece of state after one more outcome is the piece before plus that outcome's share |
| Scan.ScanAllStep | ils-fixup.py:53-98 | one pass of the loop over the next line extends the scanned lines by one, and raises exactly at the first failing line |
| Scan.OutcomesStep | ils-fixup.py:53 | scanning one more line appends its outcome |
| Scan.Reconciler.constructor | ils-fixup.py:49-50 | `used_keys` and `used_filenames` start empty, no output yet, and the state is valid: each field is the fold of the (no) lines scanned |
| Scan.Reconciler.ScanLine | ils-fixup.py:53-98 | one pass of the loop body adds the line's share to each piece of state, keeps every field equal to the fold over the lines scanned, returns the line's exception if any, and only ever grows the sets and extends the streams |
| Scan.Reconciler.ScanRow | ils-fixup.py:57-67 | a row with a bad type raises, a non-4 row or an unknown key changes nothing, a short row-4 line raises `IndexError` |
| Scan.Reconciler.ScanMatch | ils-fixup.py:66-98 | the key is recorded as used, then the row is rewritten with a discrepancy diagnostic, or gets "NO DIFF", or raises on an unreadable number |
| Scan.Reconciler.ScanAll | ils-fixup.py:52-98 | the loop scans every line up to and including the first that raises, the state is the fold of their outcomes, and an exception is returned exactly when some line raises |
| Scan.ScanStep | ils-fixup.py:53-98 | one more line adds its outcome's share to `used_keys`, `used_filenames` and both streams |
| Scan.ScanOnlyGrows | ils-fixup.py:66-98 | scanning more lines only adds to `used_keys` and `used_filenames` and only extends both streams |
| Scan.IgnoredLine | ils-fixup.py:55-65 | a blank line, a row of another integer type, and a row-4 line whose key has no correction are skipped |
| Scan.IgnoredLines | ils-fixup.py:55-65 | a skipped line changes neither set and emits nothing on either stream |
| Scan.MatchedLineOutcome | ils-fixup.py:61-98 | a readable row-4 line with a correction is rewritten exactly when one of the five tests fires, and agrees otherwise |
| Scan.MatchedLineDecision | ils-fixup.py:66-98 | the key is recorded either way; when a test fires exactly one rewritten line, one discrepancy diagnostic and the file name are added; otherwise exactly one "NO DIFF" and nothing else |
| Scan.OutcomeAt | ils-fixup.py:53-98 | the i-th outcome is that of the i-th line |
| Scan.KeysInExactly | ils-fixup.py:66 | a key is in the fold of outcomes exactly when one of them matched it |
| Scan.FilesInExactly | ils-fixup.py:96 | a file name is in the fold of outcomes exactly when one of them rewrote a row with its correction |
| Scan.MatchedKeysExactly | ils-fixup.py:61-66 | `used_keys` holds exactly the keys some scanned line matched, whether or not that line was rewritten or raised later |
| Scan.MatchedKeysLoaded | ils-fixup.py:63-66 | `used_keys` is a subset of the keys of `ils_data` |
| Scan.ValidKeysLoaded | ils-fixup.py:63-66 | in every valid state of the scan, `used_keys` is a subset of the keys of `ils_data` |
| Scan.FixedFilesExactly | ils-fixup.py:96 | `used_filenames` holds exactly the file names of corrections that produced a rewritten line |
| Scan.RowMatched | ils-fixup.py:58-63 | a matched row is a row-4 line of at least nine tokens whose key is (token 8, last token but one) |
| Scan.ResplitRewritten | ils-fixup.py:89-94 | splitting the printed line again gives the same number of tokens, the untouched tokens unchanged, `str` of the elevation, the nav-id and the formatted values |
| Scan.CorrectedRowAgrees | ils-fixup.py:68-76 | a row carrying the correction's values (floats within tolerance, the elevation as written back, the nav-id) is readable and needs no correction |
| Scan.AgreeingLine | ils-fixup.py:55-98 | a row-4 line with a correction whose values agree within tolerance gets "NO DIFF" |
| Scan.RewrittenRowReads | ils-fixup.py:68-94 | the printed line, split again, keeps the row type and the key and agrees with the correction |
| Scan.CorrectedRowIsStable | ils-fixup.py:55-98 | the printed line, scanned again with the same table, gets "NO DIFF" |
| Scan.CorrectedLineIsStable | ils-fixup.py:55-98 | feeding a rewritten line back through the scan matches the same key and finds no discrepancy: the rewrite is idempotent |
| Scan.NineTokenRowIsRekeyed | ils-fixup.py:61-94 | as written, a rewritten row of exactly nine tokens, whose nav-id differs from its runway, is scanned again under another key and never agrees with its correction |
| Report.NoSuchIls | ils-fixup.py:100 | the keys reported "NO SUCH ILS"; see NoSuchIlsExactly, NoSuchIlsPartition |
| Report.RemovalTargets | ils-fixup.py:105 | the files the removal script lists, as written; see RemovalListsEveryPath, RemovalListsUsedFile |
| Report.RmCommand | ils-fixup.py:106 | the script line for one file; see RmCommandInjective |
| Report.RmCommandInjective | ils-fixup.py:106 | different files give different script lines, so the script has one line per file listed |
| Report.RmScript | ils-fixup.py:105-106 | the lines of the removal script; see RmCommandInjective, Run |
| Report.NoSuchIlsExactly | ils-fixup.py:100-101 | "NO SUCH ILS" goes out for a key exactly when it is in `ils_data` and no scanned line matched it |
| Report.NoSuchIlsPartition | ils-fixup.py:100-101 | every key of `ils_data` is either matched or reported, never both |
| Report.FixedFromTable | ils-fixup.py:63-93 | the correction applied to a rewritten line is the table's entry for its key |
| Report.UsedFilenamesAreNames | ils-fixup.py:46-96 | every name in `used_filenames` is the bare name of a walked `.ils.xml` file |
| Report.RemovalListsEveryPath | ils-fixup.py:103-106 | as written, when every file sits under a non-empty directory, the removal script lists every loaded path, used or not |
| Report.RemovalListsUsedFile | ils-fixup.py:105 | as written, `Airports/KSFO.ils.xml` is listed although its name `KSFO.ils.xml` is used |
| Report.UnusedCorrectionFiles | ils-fixup.py:105 | the intended removal list, comparing each path's base name; see UnusedCorrectionFilesExactly, UsedFileKept |
| Report.UnusedCorrectionFilesExactly | ils-fixup.py:105 | with the intended comparison by base name, a loaded path is listed exactly when no rewritten line took its correction from a correction file of that name |
| Report.UsedFileKept | ils-fixup.py:105 | with the intended comparison, a file whose correction was applied is not listed |
| Report.PathRecorded | ils-fixup.py:31-34 | the path of every walked `.ils.xml` file is recorded |
| Report.Run | ils-fixup.py:26-106 | the whole script: both streams are the folds over the lines scanned; it stops with the first line's exception exactly when some line raises; otherwise it reports the unmatched keys and, with `--rm-script`, one `git rm` line per file of the as-written removal list |

## Left out

- Directory walk: `os.walk` is given as a sequence of files, each with its directory, its
  name and its `ils` elements already parsed.
- Opening files and parsing XML: a malformed correction file, and a missing or non-numeric
  `lon`, `lat`, `hdg-deg` or `elev-m` child, are not modelled; these make the script fail.
- A missing `rwy` or `nav-id` child is not modelled: `findtext` gives `None` and the
  script stores it without error (lines 43-47). A `None` runway gives a key no nav.dat row
  matches, so it is reported "NO SUCH ILS" (line 101). A `None` nav-id makes every
  matching row fail the nav-id test (line 76). The row's discrepancy diagnostic is
  printed, and `' '.join` then raises `TypeError` on the `None` token (lines 93-94). The
  model takes both children as strings.
- The gzip decompression of `nav.dat`: its lines are given as a sequence.
- Command-line parsing: the `--rm-script` flag is a boolean; the script file's name and
  its opening are not modelled.
- Floating point: numbers are reals. IEEE rounding of the subtraction, of `/ M_IN_FT` and
  of `elev * M_IN_FT` is not captured.
- `PyText.ParseFloat`: accepts only a plain decimal (optional sign, digits, at most one
  '.'). Python's `float()` also takes exponents, `inf` and `nan`; the model rejects them.
- `PyText.ParseInt`: takes a token, which has no surrounding whitespace. Python's `int()`
  would also strip it.
- The fixed-width float formats `'% 012.8f'`, `'% 013.8f'` and `'%11.3f'` are functions
  given as parameters (`Scan.Formats`). `'%6d'` is modelled.
- The text of the diagnostics: they are values (`Discrepancy` with its parts, `NoDiff`),
  not printed text.
- Output order: "NO SUCH ILS" keys and the removal script's lines come from Python sets,
  so they are sets here.
- Stream plumbing: the "NO SUCH ILS" keys are returned beside standard error rather than
  appended to it.
- Line 43 rebinds the loop variable `rwy`; the inner loop's iterator already exists, so
  this has no effect and is not modelled.
- `line.rstrip()` (line 54) is not modelled separately: it does not change `split()`.
- Scan.CorrectedLineIsStable: requires at least ten tokens. With exactly nine, token 7 is
  also the runway token `tokens[-2]`, and the rewrite replaces it with the nav-id (see
  "## Findings" and `Scan.NineTokenRowIsRekeyed`). It also
  requires the nav-id to be one word and the float formats to read back within tolerance,
  which the model cannot derive because the formats are parameters.
- Scan.CorrectedRowIsStable and Scan.RewrittenRowReads: the same conditions as
  `CorrectedLineIsStable`.
- Report.RemovalListsEveryPath: holds when every file was found under a non-empty
  directory and no file name holds '/', which is what `os.walk` reports.

## Findings

| source | as written | input that shows it | evidently intended | confidence | as-written member | corrected member |
|---|---|---|---|---|---|---|
| ils-fixup.py:105 | `set(ils_filenames).difference(used_filenames)` compares joined paths (line 32) with bare file names (line 47), so no path is ever removed from the set | the walk finds `KSFO.ils.xml` under `Airports`, and a nav.dat row is rewritten with its correction: `used_filenames` is `{"KSFO.ils.xml"}` and the script still lists `Airports/KSFO.ils.xml` | list only the loaded correction files that no rewritten line used, comparing each path's base name | not executed | Report.RemovalListsEveryPath | Report.UnusedCorrectionFilesExactly |
| ils-fixup.py:61-93 | with exactly nine tokens, the runway `tokens[-2]` is token 7, which line 93 overwrites with the nav-id, so the printed row carries a different key | the row `4 37.6188 -122.3755 13 0 0 283.0 28L KSFO` with a correction for (`KSFO`, `28L`) whose nav-id is `ISFO`: the nav-id test fires, and the printed row's key is (`KSFO`, `ISFO`), so scanning it again does not find the correction | a corrected row, scanned again with the same corrections, matches its key and agrees with it | not executed | Scan.NineTokenRowIsRekeyed | Scan.CorrectedLineIsStable |
