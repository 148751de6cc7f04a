/** The pieces of the Python runtime that the two scripts lean on: the exceptions
    they can raise, `str.split()`, the `in` test on strings, `str.startswith`,
    list slicing, `int()` and `str()` on integers, and `os.path.join` /
    `os.path.dirname` (POSIX flavour). Strings are sequences of characters. */
module PyBuiltins {

  datatype Option<+T> = None | Some(value: T)

  /** The uncaught exception that ends a script. */
  datatype Error =
    | IndexError                // a list or tuple index out of range
    | ValueError                // `int()` / `float()` of a malformed token, a ragged array, too large a sample
    | NameError(name: string)   // a variable read before it was ever assigned
    | AttributeError            // `append` called on a numpy array

  datatype Result<+T> = Ok(value: T) | Err(error: Error) {
    predicate IsFailure() { Err? }

    function PropagateFailure<U>(): Result<U>
      requires Err?
    {
      Err(error)
    }

    function Extract(): T
      requires Ok?
    {
      value
    }
  }

  /** What a script has written to its output file when it stops, and the
      exception that stopped it (None when it ran to the end). */
  datatype Run<+T> = Run(output: seq<T>, error: Option<Error>)

  /** `out` written in front of whatever `rest` writes. */
  function Then<T>(out: seq<T>, rest: Run<T>): Run<T>
  {
    Run(out + rest.output, rest.error)
  }

  /** A `for i in range(count)` loop whose round `i` writes `f(i)` or raises:
      what it writes before the first exception, and that exception. */
  function Loop<T>(f: nat -> Result<T>, count: nat): Run<T>
  {
    if count == 0 then Run([], None)
    else
      var prev := Loop(f, count - 1);
      if prev.error.Some? then prev
      else match f(count - 1)
        case Err(e) => Run(prev.output, Some(e))
        case Ok(x) => Run(prev.output + [x], None)
  }

  /** Once a round has raised, later rounds do not run. */
  lemma {:induction false} LoopStop<T>(f: nat -> Result<T>, k: nat, count: nat)
    requires k <= count && Loop(f, k).error.Some?
    ensures Loop(f, count) == Loop(f, k)
    decreases count - k
  {
    if k < count {
      LoopStop(f, k, count - 1);
    }
  }

  /** The loop runs through exactly when no round raises, and then writes
      one item per round, in order. */
  lemma {:induction false} LoopMeaning<T>(f: nat -> Result<T>, count: nat)
    ensures Loop(f, count).error.None? <==> forall i :: 0 <= i < count ==> f(i).Ok?
    ensures Loop(f, count).error.None? ==>
      |Loop(f, count).output| == count &&
      forall i :: 0 <= i < count ==> Loop(f, count).output[i] == f(i).value
  {
    if count > 0 {
      LoopMeaning(f, count - 1);
      var prev := Loop(f, count - 1);
      if prev.error.Some? {
        var i :| 0 <= i < count - 1 && !f(i).Ok?;
      } else if f(count - 1).Ok? {
        var out := Loop(f, count).output;
        assert out == prev.output + [f(count - 1).value];
        forall i | 0 <= i < count - 1 ensures out[i] == f(i).value {
          assert out[i] == prev.output[i];
        }
      }
    }
  }

  /** A `for i in range(count)` loop whose round `i` writes the items of
      `f(i)` and stops the script when that round raised. */
  function Rounds<T>(f: nat -> Run<T>, count: nat): Run<T>
  {
    if count == 0 then Run([], None)
    else
      var prev := Rounds(f, count - 1);
      if prev.error.Some? then prev else Then(prev.output, f(count - 1))
  }

  /** Once a round has raised, later rounds do not run. */
  lemma {:induction false} RoundsStop<T>(f: nat -> Run<T>, k: nat, count: nat)
    requires k <= count && Rounds(f, k).error.Some?
    ensures Rounds(f, count) == Rounds(f, k)
    decreases count - k
  {
    if k < count {
      RoundsStop(f, k, count - 1);
    }
  }

  /** What the first `count` rounds write, round by round. */
  function Outputs<T>(f: nat -> Run<T>, count: nat): (r: seq<seq<T>>)
    ensures |r| == count && forall i :: 0 <= i < count ==> r[i] == f(i).output
  {
    seq(count, (i: int) requires 0 <= i < count => f(i).output)
  }

  /** The loop runs through exactly when no round raises, and then writes the
      rounds' items one round after another. */
  lemma {:induction false} RoundsMeaning<T>(f: nat -> Run<T>, count: nat)
    ensures Rounds(f, count).error.None? <==> forall i :: 0 <= i < count ==> f(i).error.None?
    ensures Rounds(f, count).error.None? ==> Rounds(f, count).output == Flatten(Outputs(f, count))
  {
    if count > 0 {
      RoundsMeaning(f, count - 1);
      var prev := Rounds(f, count - 1);
      if prev.error.Some? {
        var i :| 0 <= i < count - 1 && f(i).error.Some?;
      } else if f(count - 1).error.None? {
        var outs := Outputs(f, count);
        assert outs[..count - 1] == Outputs(f, count - 1);
        assert Flatten(outs) == Flatten(Outputs(f, count - 1)) + f(count - 1).output;
      }
    }
  }

  // ---------------------------------------------------------------------------
  // Whitespace and `str.split()`

  /** The characters for which `str.isspace()` holds, i.e. the separators of
      `str.split()` without an argument. */
  predicate IsSpace(c: char)
  {
    var k := c as int;
    (9 <= k <= 13) || (28 <= k <= 32) || k == 0x85 || k == 0xA0 || k == 0x1680 ||
    (0x2000 <= k <= 0x200A) || k == 0x2028 || k == 0x2029 || k == 0x202F ||
    k == 0x205F || k == 0x3000
  }

  /** A token `str.split()` can produce: non-empty, free of whitespace. */
  predicate IsWord(w: string)
  {
    |w| > 0 && forall i :: 0 <= i < |w| ==> !IsSpace(w[i])
  }

  /** Length of the run of non-whitespace characters at the start of `s`. */
  function WordEnd(s: string): (n: nat)
    ensures n <= |s|
    ensures forall i :: 0 <= i < n ==> !IsSpace(s[i])
    ensures n < |s| ==> IsSpace(s[n])
  {
    if s == [] || IsSpace(s[0]) then 0 else 1 + WordEnd(s[1..])
  }

  /** `s.split()`: the maximal runs of non-whitespace characters of `s`, in order. */
  function Split(s: string): (r: seq<string>)
    ensures forall k :: 0 <= k < |r| ==> IsWord(r[k])
    decreases |s|
  {
    if s == [] then []
    else if IsSpace(s[0]) then Split(s[1..])
    else
      var n := WordEnd(s);
      [s[..n]] + Split(s[n..])
  }

  /** `sep.join(ws)` */
  function Join(ws: seq<string>, sep: string): string
  {
    if ws == [] then ""
    else if |ws| == 1 then ws[0]
    else ws[0] + sep + Join(ws[1..], sep)
  }

  lemma {:induction false} WordEndOfWord(w: string, rest: string)
    requires IsWord(w)
    requires rest == [] || IsSpace(rest[0])
    ensures WordEnd(w + rest) == |w|
    decreases |w|
  {
    var s := w + rest;
    assert s[0] == w[0];
    if |w| > 1 {
      assert s[1..] == w[1..] + rest;
      WordEndOfWord(w[1..], rest);
    } else {
      assert s[1..] == rest;
    }
  }

  lemma {:induction false} SplitLeadingSpaces(sp: string, s: string)
    requires forall i :: 0 <= i < |sp| ==> IsSpace(sp[i])
    ensures Split(sp + s) == Split(s)
    decreases |sp|
  {
    if sp != [] {
      assert (sp + s)[1..] == sp[1..] + s;
      SplitLeadingSpaces(sp[1..], s);
    } else {
      assert sp + s == s;
    }
  }

  /** Splitting a word followed by whitespace and more text yields the word first. */
  lemma SplitWordThen(w: string, sp: string, s: string)
    requires IsWord(w) && |sp| > 0
    requires forall i :: 0 <= i < |sp| ==> IsSpace(sp[i])
    ensures Split(w + sp + s) == [w] + Split(s)
  {
    var t := w + sp + s;
    assert t == w + (sp + s);
    WordEndOfWord(w, sp + s);
    assert t[..|w|] == w;
    assert t[|w|..] == sp + s;
    SplitLeadingSpaces(sp, s);
  }

  lemma SplitWord(w: string)
    requires IsWord(w)
    ensures Split(w) == [w]
  {
    WordEndOfWord(w, []);
    assert w + [] == w;
    assert w[|w|..] == [];
  }

  /** Splitting distributes over a concatenation whose first part ends in
      whitespace. */
  lemma {:induction false} SplitAppend(x: string, y: string)
    requires x == [] || IsSpace(x[|x| - 1])
    ensures Split(x + y) == Split(x) + Split(y)
    decreases |x|
  {
    if x == [] {
      assert x + y == y;
    } else if IsSpace(x[0]) {
      assert (x + y)[1..] == x[1..] + y;
      SplitAppend(x[1..], y);
    } else {
      var n := WordEnd(x);
      assert n < |x|;
      WordEndOfWord(x[..n], x[n..] + y);
      assert x[..n] + (x[n..] + y) == x + y;
      assert (x + y)[..n] == x[..n];
      assert (x + y)[n..] == x[n..] + y;
      SplitAppend(x[n..], y);
    }
  }

  /** Round trip: joining words with a whitespace separator and splitting the
      result gives the words back. */
  lemma {:induction false} SplitJoin(ws: seq<string>, sep: string)
    requires forall k :: 0 <= k < |ws| ==> IsWord(ws[k])
    requires |sep| > 0 && forall i :: 0 <= i < |sep| ==> IsSpace(sep[i])
    ensures Split(Join(ws, sep)) == ws
    decreases |ws|
  {
    if ws == [] {
    } else if |ws| == 1 {
      SplitWord(ws[0]);
    } else {
      SplitWordThen(ws[0], sep, Join(ws[1..], sep));
      assert ws[0] + sep + Join(ws[1..], sep) == Join(ws, sep);
      SplitJoin(ws[1..], sep);
    }
  }

  /** Words joined by a whitespace separator, then the separator and more
      text: splitting yields the words, then the split of the rest. */
  lemma {:induction false} SplitJoinThen(ws: seq<string>, sep: string, s: string)
    requires forall k :: 0 <= k < |ws| ==> IsWord(ws[k])
    requires |sep| > 0 && forall i :: 0 <= i < |sep| ==> IsSpace(sep[i])
    ensures Split(Join(ws, sep) + sep + s) == ws + Split(s)
    decreases |ws|
  {
    if ws == [] {
      assert Join(ws, sep) + sep + s == sep + s;
      SplitLeadingSpaces(sep, s);
    } else if |ws| == 1 {
      SplitWordThen(ws[0], sep, s);
    } else {
      var rest := Join(ws[1..], sep) + sep + s;
      assert Join(ws, sep) + sep + s == ws[0] + sep + rest;
      SplitWordThen(ws[0], sep, rest);
      SplitJoinThen(ws[1..], sep, s);
      assert ws == [ws[0]] + ws[1..];
    }
  }

  // ---------------------------------------------------------------------------
  // Substrings

  /** `pat in s` on strings. */
  predicate Contains(s: string, pat: string)
    decreases |s|
  {
    pat <= s || (s != [] && Contains(s[1..], pat))
  }

  /** `Contains` holds exactly when `pat` occurs at some offset of `s`. */
  lemma {:induction false} ContainsAt(s: string, pat: string)
    ensures Contains(s, pat) <==> exists i :: 0 <= i <= |s| - |pat| && OccursAt(s, pat, i)
    decreases |s|
  {
    if s != [] {
      ContainsAt(s[1..], pat);
      if Contains(s[1..], pat) {
        var i :| 0 <= i <= |s| - 1 - |pat| && OccursAt(s[1..], pat, i);
        assert s[i + 1..i + 1 + |pat|] == s[1..][i..i + |pat|];
        assert OccursAt(s, pat, i + 1);
      }
      if exists i :: 0 <= i <= |s| - |pat| && OccursAt(s, pat, i) {
        var i :| 0 <= i <= |s| - |pat| && OccursAt(s, pat, i);
        if i > 0 {
          assert OccursAt(s[1..], pat, i - 1);
        } else {
          assert pat <= s;
        }
      }
      if pat <= s {
        assert OccursAt(s, pat, 0);
      }
    } else {
      if exists i :: 0 <= i <= |s| - |pat| && OccursAt(s, pat, i) {
        var i :| 0 <= i <= |s| - |pat| && OccursAt(s, pat, i);
        assert pat == [];
      }
      if Contains(s, pat) {
        assert OccursAt(s, pat, 0);
      }
    }
  }

  predicate OccursAt(s: string, pat: string, i: int)
    requires 0 <= i <= |s| - |pat|
  {
    s[i..i + |pat|] == pat
  }

  // ---------------------------------------------------------------------------
  // Lists

  /** Where Python puts a slice bound `k` on a list of length `n`: negative
      bounds count from the end, and both ends are clamped to the list. */
  function SliceBound(k: int, n: nat): (b: nat)
    ensures b <= n
    ensures 0 <= k <= n ==> b == k
    ensures k > n ==> b == n
    ensures -(n as int) <= k < 0 ==> b == n + k
    ensures k < -(n as int) ==> b == 0
  {
    if k < 0 then (if k + n < 0 then 0 else k + n)
    else if k > n then n
    else k
  }

  /** `s[lo:hi]` */
  function Slice<T>(s: seq<T>, lo: int, hi: int): seq<T>
  {
    var a, b := SliceBound(lo, |s|), SliceBound(hi, |s|);
    if a < b then s[a..b] else []
  }

  /** `s[i]` on a list: negative indices count from the end. */
  function Index<T>(s: seq<T>, i: int): Result<T>
  {
    if 0 <= i < |s| then Ok(s[i])
    else if -(|s| as int) <= i < 0 then Ok(s[|s| + i])
    else Err(IndexError)
  }

  /** The lists of `xss` one after the other: a list comprehension over rows,
      or `ndarray.flatten()` of a two-dimensional array (row-major). */
  function Flatten<T>(xss: seq<seq<T>>): seq<T>
  {
    if xss == [] then [] else Flatten(xss[..|xss| - 1]) + xss[|xss| - 1]
  }

  lemma MulMono(a: int, b: int, w: nat)
    requires 0 <= a <= b
    ensures a * w <= b * w
  {
  }

  lemma {:induction false} FlattenLength<T>(xss: seq<seq<T>>, w: nat)
    requires forall i :: 0 <= i < |xss| ==> |xss[i]| == w
    ensures |Flatten(xss)| == |xss| * w
  {
    if xss != [] {
      FlattenLength(xss[..|xss| - 1], w);
      assert |xss| * w == (|xss| - 1) * w + w;
    }
  }

  lemma {:induction false} FlattenAt<T>(xss: seq<seq<T>>, w: nat, i: nat, j: nat, k: int)
    requires forall i :: 0 <= i < |xss| ==> |xss[i]| == w
    requires i < |xss| && j < w && k == i * w + j
    ensures 0 <= k < |Flatten(xss)| && Flatten(xss)[k] == xss[i][j]
  {
    var init := xss[..|xss| - 1];
    var m := |init|;
    FlattenLength(xss, w);
    FlattenLength(init, w);
    if i < m {
      FlattenAt(init, w, i, j, k);
      MulMono(i + 1, m, w);
      assert (i + 1) * w == i * w + w;
    } else {
      assert i * w == m * w;
    }
  }

  /** Element `i * w + j` of `p` is `xss[i][j]`: where a row-major layout of
      rows of width `w` puts that entry. */
  ghost predicate RowMajorAt<T>(p: seq<T>, xss: seq<seq<T>>, w: nat, i: nat, j: nat)
  {
    i < |xss| && j < |xss[i]| && i * w + j < |p| && p[i * w + j] == xss[i][j]
  }

  /** Rows of one width `w` flatten row by row into `|xss| * w` elements. */
  lemma FlattenRowMajor<T>(xss: seq<seq<T>>, w: nat)
    requires forall i :: 0 <= i < |xss| ==> |xss[i]| == w
    ensures |Flatten(xss)| == |xss| * w
    ensures forall i: nat, j: nat :: i < |xss| && j < w ==> RowMajorAt(Flatten(xss), xss, w, i, j)
  {
    FlattenLength(xss, w);
    forall i: nat, j: nat | i < |xss| && j < w
      ensures RowMajorAt(Flatten(xss), xss, w, i, j)
    {
      FlattenAt(xss, w, i, j, i * w + j);
    }
  }

  /** A slice from a non-negative start takes at most `hi - lo` elements, in
      order, stopping at the end of the list. */
  lemma SliceFrom<T>(s: seq<T>, lo: nat, hi: int)
    requires lo <= hi
    ensures var r := Slice(s, lo, hi);
      |r| == (if hi <= |s| then hi - lo else if lo <= |s| then |s| - lo else 0) &&
      forall j :: 0 <= j < |r| ==> r[j] == s[lo + j]
  {
  }

  // ---------------------------------------------------------------------------
  // Integers and their decimal text

  predicate IsDigit(c: char)
  {
    '0' <= c <= '9'
  }

  /** Digit string with optional single underscores between digits, as `int()`
      accepts it after the sign. */
  predicate IsDigitGroup(s: string)
  {
    |s| > 0 && IsDigit(s[0]) && IsDigit(s[|s| - 1]) &&
    (forall i :: 0 <= i < |s| ==> IsDigit(s[i]) || s[i] == '_') &&
    (forall i :: 0 <= i < |s| - 1 ==> !(s[i] == '_' && s[i + 1] == '_'))
  }

  /** Value of a string of digits and underscores; underscores are skipped. */
  function DigitsValue(s: string): nat
  {
    if s == [] then 0
    else if s[|s| - 1] == '_' then DigitsValue(s[..|s| - 1])
    else
      var d := s[|s| - 1] as int - '0' as int;
      DigitsValue(s[..|s| - 1]) * 10 + (if 0 <= d <= 9 then d else 0)
  }

  /** `int(tok)` for a token without surrounding whitespace: an optional sign,
      then decimal digits, possibly grouped by single underscores. */
  function ParseInt(tok: string): Option<int>
  {
    if |tok| > 0 && (tok[0] == '-' || tok[0] == '+') then
      if IsDigitGroup(tok[1..]) then
        Some(if tok[0] == '-' then -(DigitsValue(tok[1..]) as int) else DigitsValue(tok[1..]))
      else None
    else if IsDigitGroup(tok) then Some(DigitsValue(tok))
    else None
  }

  function NatToDigits(n: nat): (s: string)
    ensures |s| > 0 && forall i :: 0 <= i < |s| ==> IsDigit(s[i])
  {
    var d := ['0' + (n % 10) as char];
    if n < 10 then d else NatToDigits(n / 10) + d
  }

  /** `str(n)` / `f'{n}'` */
  function IntToString(n: int): string
  {
    if n < 0 then "-" + NatToDigits(-n) else NatToDigits(n)
  }

  lemma {:induction false} DigitsValueOfNat(n: nat)
    ensures DigitsValue(NatToDigits(n)) == n
  {
    var s := NatToDigits(n);
    var d := ['0' + (n % 10) as char];
    if n < 10 {
      assert s[..|s| - 1] == [];
    } else {
      assert s[..|s| - 1] == NatToDigits(n / 10);
      DigitsValueOfNat(n / 10);
    }
  }

  /** Round trip: `int(str(n)) == n`. */
  lemma ParseIntToString(n: int)
    ensures ParseInt(IntToString(n)) == Some(n)
  {
    var m := if n < 0 then -n else n;
    DigitsValueOfNat(m);
    var s := IntToString(n);
    if n < 0 {
      assert s[1..] == NatToDigits(m);
    }
  }

  /** Decimal text of an integer is a single token. */
  lemma IntToStringIsWord(n: int)
    ensures IsWord(IntToString(n))
  {
    var s := IntToString(n);
    forall i | 0 <= i < |s| ensures !IsSpace(s[i]) {
      if n < 0 && i > 0 {
        assert s[i] == NatToDigits(-n)[i - 1];
      }
    }
  }

  // ---------------------------------------------------------------------------
  // Paths (posixpath)

  /** `os.path.join(a, b)` */
  function PathJoin(a: string, b: string): string
  {
    if "/" <= b then b
    else if a == [] || a[|a| - 1] == '/' then a + b
    else a + "/" + b
  }

  /** Index of the last '/' of `p`, as `p.rfind('/')`. */
  function LastSlash(p: string): (r: Option<nat>)
    ensures r.Some? ==> r.value < |p| && p[r.value] == '/' &&
                        forall i :: r.value < i < |p| ==> p[i] != '/'
    ensures r.None? ==> forall i :: 0 <= i < |p| ==> p[i] != '/'
  {
    if p == [] then None
    else if p[|p| - 1] == '/' then Some(|p| - 1)
    else LastSlash(p[..|p| - 1])
  }

  function RStripSlashes(s: string): string
  {
    if s != [] && s[|s| - 1] == '/' then RStripSlashes(s[..|s| - 1]) else s
  }

  /** `p[:p.rfind('/') + 1]` */
  function DirHead(p: string): string
  {
    match LastSlash(p)
    case None => ""
    case Some(i) => p[..i + 1]
  }

  /** `os.path.dirname(p)`: everything up to the last '/', with trailing
      slashes removed unless the head consists of slashes only. */
  function Dirname(p: string): string
  {
    var head := DirHead(p);
    if head != [] && exists i :: 0 <= i < |head| && head[i] != '/' then RStripSlashes(head)
    else head
  }

  /** Round trip: the directory of a file joined onto a directory is that
      directory. */
  lemma DirnameOfJoin(d: string, b: string)
    requires d != [] && d[|d| - 1] != '/'
    requires forall i :: 0 <= i < |b| ==> b[i] != '/'
    ensures Dirname(PathJoin(d, b)) == d
  {
    var p := PathJoin(d, b);
    assert b == [] || b[0] != '/';
    assert p == d + "/" + b;
    assert LastSlash(p) == Some(|d|) by {
      var r := LastSlash(p);
      assert p[|d|] == '/';
      if r.None? {
        assert false;
      } else if r.value < |d| {
        assert false;
      }
    }
    var head := p[..|d| + 1];
    assert DirHead(p) == head;
    assert head == d + "/";
    assert head[|d| - 1] != '/';
    assert head[..|head| - 1] == d;
    assert RStripSlashes(d) == d;
    assert RStripSlashes(head) == d;
    assert exists i :: 0 <= i < |head| && head[i] != '/';
  }
}
