/** The Python 2 string, number and path builtins that ils-fixup.py relies on,
    written over `string` (the byte strings of Python 2 are taken as `seq<char>`). */
module PyText {

  datatype Option<+T> = None | Some(value: T)

  // ---------------------------------------------------------------------------
  // Whitespace, str.split() and ' '.join()
  // ---------------------------------------------------------------------------

  /** Python 2 whitespace for a byte: space, \t, \n, \r, \v (11) and \f (12). */
  predicate IsSpace(c: char) {
    c == ' ' || c == '\t' || c == '\n' || c == '\r' || c as int == 11 || c as int == 12
  }

  /** `not s.strip()`: the string is empty or all whitespace. */
  predicate AllSpace(s: string) {
    forall i :: 0 <= i < |s| ==> IsSpace(s[i])
  }

  /** What `str.split()` can produce: a non-empty run without whitespace. */
  predicate IsWord(s: string) {
    |s| > 0 && forall i :: 0 <= i < |s| ==> !IsSpace(s[i])
  }

  /** Length of the longest whitespace-free prefix of `s`. */
  function WordLength(s: string): (n: nat)
    ensures n <= |s|
    ensures forall i :: 0 <= i < n ==> !IsSpace(s[i])
    ensures n < |s| ==> IsSpace(s[n])
  {
    if s == [] || IsSpace(s[0]) then 0 else 1 + WordLength(s[1..])
  }

  /** `s.split()` with no separator: the maximal whitespace-free runs, in order. */
  function Split(s: string): seq<string>
    decreases |s|
  {
    if s == [] then []
    else if IsSpace(s[0]) then Split(s[1..])
    else
      var n := WordLength(s);
      [s[..n]] + Split(s[n..])
  }

  /** Every token of `split()` is a word, and there are none exactly when the text is
      all whitespace (`not s.strip()`). */
  lemma {:induction false} SplitWords(s: string)
    ensures forall k :: 0 <= k < |Split(s)| ==> IsWord(Split(s)[k])
    ensures Split(s) == [] <==> AllSpace(s)
    decreases |s|
  {
    if s == [] {
    } else if IsSpace(s[0]) {
      SplitWords(s[1..]);
      if AllSpace(s[1..]) {
        forall i | 0 <= i < |s| ensures IsSpace(s[i]) {
          if i > 0 { assert s[i] == s[1..][i - 1]; }
        }
      }
    } else {
      var n := WordLength(s);
      SplitWords(s[n..]);
      var r := Split(s);
      assert r == [s[..n]] + Split(s[n..]);
      forall k | 0 <= k < |r| ensures IsWord(r[k]) {
        if k > 0 { assert r[k] == Split(s[n..])[k - 1]; }
      }
    }
  }

  /** `' '.join(ts)`. */
  function Join(ts: seq<string>): string {
    if ts == [] then []
    else if |ts| == 1 then ts[0]
    else ts[0] + " " + Join(ts[1..])
  }

  /** The words of each string of `ts`, one string after the other. */
  function SplitEach(ts: seq<string>): seq<string> {
    if ts == [] then [] else Split(ts[0]) + SplitEach(ts[1..])
  }

  lemma {:induction false} WordLengthBeforeSpace(a: string, c: string)
    requires c != [] && IsSpace(c[0])
    ensures WordLength(a + c) == WordLength(a)
  {
    if a != [] && !IsSpace(a[0]) {
      assert (a + c)[1..] == a[1..] + c;
      WordLengthBeforeSpace(a[1..], c);
    }
  }

  /** Splitting two strings joined by a space gives the words of each. */
  lemma {:induction false} SplitAroundSpace(a: string, b: string)
    ensures Split(a + " " + b) == Split(a) + Split(b)
    decreases |a|
  {
    var s := a + " " + b;
    if a == [] {
      assert s[1..] == b;
    } else if IsSpace(a[0]) {
      assert s[1..] == a[1..] + " " + b;
      SplitAroundSpace(a[1..], b);
    } else {
      WordLengthBeforeSpace(a, " " + b);
      assert s == a + (" " + b);
      var n := WordLength(a);
      assert s[..n] == a[..n];
      assert s[n..] == a[n..] + " " + b;
      SplitAroundSpace(a[n..], b);
    }
  }

  /** Splitting a space-joined line gives back the words of every part. */
  lemma {:induction false} SplitOfJoin(ts: seq<string>)
    ensures Split(Join(ts)) == SplitEach(ts)
  {
    if ts == [] {
    } else if |ts| == 1 {
      assert SplitEach(ts[1..]) == [];
    } else {
      SplitAroundSpace(ts[0], Join(ts[1..]));
      SplitOfJoin(ts[1..]);
    }
  }

  lemma SplitOfWord(w: string)
    requires IsWord(w)
    ensures Split(w) == [w]
  {
    assert !IsSpace(w[0]);
    var n := WordLength(w);
    assert n == |w|;
    assert w[..n] == w && w[n..] == [];
  }

  /** Leading whitespace does not change the words of a string. */
  lemma {:induction false} SplitAfterSpaces(p: string, s: string)
    requires AllSpace(p)
    ensures Split(p + s) == Split(s)
  {
    if p != [] {
      assert IsSpace((p + s)[0]);
      assert (p + s)[1..] == p[1..] + s;
      SplitAfterSpaces(p[1..], s);
    } else {
      assert p + s == s;
    }
  }

  /** When every part of `ts` is one word, splitting their join gives those words. */
  lemma {:induction false} SplitEachOfSingletons(ts: seq<string>)
    requires forall i :: 0 <= i < |ts| ==> |Split(ts[i])| == 1
    ensures |SplitEach(ts)| == |ts|
    ensures forall i :: 0 <= i < |ts| ==> SplitEach(ts)[i] == Split(ts[i])[0]
  {
    if ts != [] {
      SplitEachOfSingletons(ts[1..]);
      forall i | 0 <= i < |ts| ensures SplitEach(ts)[i] == Split(ts[i])[0] {
        if i > 0 { assert ts[1..][i - 1] == ts[i]; }
      }
    }
  }

  // ---------------------------------------------------------------------------
  // int(), float(), '%6d' and round()
  // ---------------------------------------------------------------------------

  predicate IsDigit(c: char) { '0' <= c <= '9' }

  predicate IsDigits(s: string) { forall i :: 0 <= i < |s| ==> IsDigit(s[i]) }

  /** The value of a non-empty run of decimal digits; none when `s` is empty or holds
      anything but digits. */
  function DigitsValue(s: string): Option<nat> {
    DigitsFrom(s, 0, false)
  }

  /** Reads the rest `s` of a run of digits left to right: `acc` is the value read so far
      and `digits` whether a digit has been read yet. */
  function DigitsFrom(s: string, acc: nat, digits: bool): Option<nat>
    decreases |s|
  {
    if s == [] then (if digits then Some(acc) else None)
    else if IsDigit(s[0]) then DigitsFrom(s[1..], acc * 10 + (s[0] as int - '0' as int), true)
    else None
  }

  /** One more digit at the end multiplies the value read by ten and adds the digit. */
  lemma {:induction false} DigitsAppend(s: string, c: char, acc: nat, digits: bool)
    requires IsDigit(c) && DigitsFrom(s, acc, digits).Some?
    ensures DigitsFrom(s + [c], acc, digits) == Some(10 * DigitsFrom(s, acc, digits).value + (c as int - '0' as int))
    decreases |s|
  {
    if s != [] {
      assert (s + [c])[0] == s[0] && (s + [c])[1..] == s[1..] + [c];
      DigitsAppend(s[1..], c, acc * 10 + (s[0] as int - '0' as int), true);
    }
  }

  /** Decimal digits of `n`, without leading zeros. */
  function DecimalString(n: nat): (r: string)
    ensures |r| > 0 && IsDigits(r)
    ensures |r| > 1 ==> r[0] != '0'
  {
    if n < 10 then [('0' as int + n) as char]
    else DecimalString(n / 10) + [('0' as int + n % 10) as char]
  }

  /** `str(n)` for an integer. */
  function IntString(n: int): string {
    if n < 0 then "-" + DecimalString(-n) else DecimalString(n)
  }

  /** `int(s)` for a token without whitespace: an optional sign, then at least one digit. */
  function ParseInt(s: string): Option<int> {
    var body := if |s| > 0 && (s[0] == '-' || s[0] == '+') then s[1..] else s;
    match DigitsValue(body)
    case None => None
    case Some(v) =>
      var m: int := v;
      Some(if |s| > 0 && s[0] == '-' then -m else m)
  }

  /** Index of the first `c` in `s`, or `|s|` when there is none. */
  function FirstIndex(s: string, c: char): (i: nat)
    ensures i <= |s|
  {
    if s == [] || s[0] == c then 0 else 1 + FirstIndex(s[1..], c)
  }

  /** No `c` comes before `FirstIndex(s, c)`, and it is at that index unless there is none. */
  lemma {:induction false} FirstIndexIsFirst(s: string, c: char)
    ensures forall j :: 0 <= j < FirstIndex(s, c) ==> s[j] != c
    ensures FirstIndex(s, c) < |s| ==> s[FirstIndex(s, c)] == c
  {
    if s != [] && s[0] != c {
      FirstIndexIsFirst(s[1..], c);
    }
  }

  /** `s.split(c)[0]`: the text before the first `c`, or all of `s`. */
  function BeforeFirst(s: string, c: char): (r: string)
    ensures c !in r
    ensures r <= s
    ensures |r| < |s| ==> s[|r|] == c
  {
    FirstIndexIsFirst(s, c);
    s[..FirstIndex(s, c)]
  }

  /** `float(s)` for a plain decimal token: an optional sign, then digits with at most one
      '.' among them and at least one digit in all. */
  function ParseFloat(s: string): Option<real> {
    var body := if |s| > 0 && (s[0] == '-' || s[0] == '+') then s[1..] else s;
    match DecimalValue(body, 0, 0, false, false)
    case None => None
    case Some(v) => Some(if |s| > 0 && s[0] == '-' then -v else v)
  }

  function Pow10(k: nat): (r: nat)
    ensures r > 0
  {
    if k == 0 then 1 else 10 * Pow10(k - 1)
  }

  /** Reads the rest `s` of an unsigned decimal left to right: `num` is the integer the
      digits read so far spell, `scale` how many of them follow the point, `point` whether
      the point has been read and `digits` whether a digit has. The value is `num` divided
      by ten to the power `scale`. */
  function DecimalValue(s: string, num: nat, scale: nat, point: bool, digits: bool): Option<real>
    decreases |s|
  {
    if s == [] then (if digits then Some(num as real / Pow10(scale) as real) else None)
    else if IsDigit(s[0]) then
      DecimalValue(s[1..], num * 10 + (s[0] as int - '0' as int), if point then scale + 1 else scale, point, true)
    else if s[0] == '.' && !point then DecimalValue(s[1..], num, scale, true, digits)
    else None
  }

  /** Without a point, the decimal reader reads a run of digits as the integer reader does. */
  lemma {:induction false} DecimalOfDigits(s: string, num: nat, digits: bool)
    ensures DigitsFrom(s, num, digits).Some? ==>
      DecimalValue(s, num, 0, false, digits) == Some(DigitsFrom(s, num, digits).value as real)
    decreases |s|
  {
    if s != [] && IsDigit(s[0]) {
      DecimalOfDigits(s[1..], num * 10 + (s[0] as int - '0' as int), true);
    }
  }

  /** `float()` accepts every token `int()` accepts, with the same value. */
  lemma FloatOfIntToken(s: string)
    ensures ParseInt(s).Some? ==> ParseFloat(s) == Some(ParseInt(s).value as real)
  {
    var body := if |s| > 0 && (s[0] == '-' || s[0] == '+') then s[1..] else s;
    DecimalOfDigits(body, 0, false);
  }

  /** `k` spaces: the padding of a right-justified field. */
  function Spaces(k: nat): (r: string)
    ensures |r| == k && AllSpace(r)
  {
    if k == 0 then [] else " " + Spaces(k - 1)
  }

  /** `'%<width>d' % n`: `str(n)` right-justified with spaces to `width` characters. */
  function FormatInt(n: int, width: nat): string {
    var digits := IntString(n);
    if |digits| < width then Spaces(width - |digits|) + digits else digits
  }

  lemma {:induction false} DigitsRoundTrip(n: nat)
    ensures DigitsValue(DecimalString(n)) == Some(n)
  {
    if n >= 10 {
      DigitsRoundTrip(n / 10);
      DigitsAppend(DecimalString(n / 10), ('0' as int + n % 10) as char, 0, false);
    } else {
      var s := DecimalString(n);
      assert s[1..] == [];
      assert DigitsFrom(s, 0, false) == DigitsFrom([], n, true);
    }
  }

  /** `int(str(n)) == n`. */
  lemma ParseIntString(n: int)
    ensures ParseInt(IntString(n)) == Some(n)
  {
    var s := IntString(n);
    if n < 0 {
      assert s[1..] == DecimalString(-n);
      DigitsRoundTrip(-n);
    } else {
      DigitsRoundTrip(n);
    }
  }

  /** A '%d' field, however padded, reads back as the one token `str(n)`. */
  lemma FormatIntIsOneToken(n: int, width: nat)
    ensures Split(FormatInt(n, width)) == [IntString(n)]
  {
    var digits := IntString(n);
    assert IsWord(digits) by {
      if n < 0 {
        forall i | 0 <= i < |digits| ensures !IsSpace(digits[i]) {
          if i > 0 { assert digits[i] == DecimalString(-n)[i - 1]; }
        }
      }
    }
    SplitOfWord(digits);
    if |digits| < width {
      SplitAfterSpaces(Spaces(width - |digits|), digits);
    }
  }

  /** Python 2 `round(x)`: the nearest integer, halves away from zero. */
  function RoundHalfAway(x: real): (r: int)
    ensures -0.5 <= r as real - x <= 0.5
    ensures r as real - x == 0.5 ==> x >= 0.0
    ensures r as real - x == -0.5 ==> x < 0.0
  {
    if x >= 0.0 then (x + 0.5).Floor else -((-x + 0.5).Floor)
  }

  // ---------------------------------------------------------------------------
  // str.endswith, os.path.join, os.path.basename
  // ---------------------------------------------------------------------------

  predicate EndsWith(s: string, suffix: string) {
    |suffix| <= |s| && s[|s| - |suffix|..] == suffix
  }

  /** `posixpath.join(a, b)`. */
  function PathJoin(a: string, b: string): string {
    if |b| > 0 && b[0] == '/' then b
    else if a == [] || a[|a| - 1] == '/' then a + b
    else a + "/" + b
  }

  /** `posixpath.basename(p)`: the text after the last '/'. */
  function Basename(p: string): (r: string)
    ensures '/' !in r
    ensures |r| <= |p| && r == p[|p| - |r|..]
    ensures |r| < |p| ==> p[|p| - |r| - 1] == '/'
  {
    if p == [] || p[|p| - 1] == '/' then []
    else Basename(p[..|p| - 1]) + [p[|p| - 1]]
  }

  lemma {:induction false} BasenameAfterSlash(dir: string, name: string)
    requires dir == [] || dir[|dir| - 1] == '/'
    requires '/' !in name
    ensures Basename(dir + name) == name
  {
    if name == [] {
      assert dir + name == dir;
    } else {
      var p := dir + name;
      var front, last := name[..|name| - 1], name[|name| - 1];
      assert last in name;
      assert p[..|p| - 1] == dir + front;
      assert p[|p| - 1] == last;
      assert Basename(p) == Basename(dir + front) + [last];
      assert forall c :: c in front ==> c in name;
      BasenameAfterSlash(dir, front);
      assert name == front + [last];
    }
  }

  /** The base name of a joined path is the name that was joined on. */
  lemma BasenameOfJoin(dir: string, name: string)
    requires '/' !in name
    ensures Basename(PathJoin(dir, name)) == name
  {
    if |name| > 0 && name[0] == '/' {
      assert false;
    } else if dir == [] || dir[|dir| - 1] == '/' {
      BasenameAfterSlash(dir, name);
    } else {
      assert dir + "/" + name == (dir + "/") + name;
      BasenameAfterSlash(dir + "/", name);
    }
  }

  /** A path joined onto a non-empty directory contains a '/'. */
  lemma JoinedPathHasSlash(dir: string, name: string)
    requires dir != [] && '/' !in name
    ensures '/' in PathJoin(dir, name)
  {
    if dir[|dir| - 1] == '/' {
      assert PathJoin(dir, name)[|dir| - 1] == '/';
    } else {
      assert PathJoin(dir, name)[|dir|] == '/';
    }
  }
}
