/** The polarizability extractor. Each selected folder's aims.out is scanned
    for a polarizability block: after a `Polarizability (Bohr^3) :` or a
    `DFPT for dielectric_constant:` line, the first three tokens of each of the
    next three lines form a 3x3 tensor. A file without a block is skipped; for
    a file with one, a training record is appended holding the tensor
    flattened row by row and, unless switched off, a placeholder dipole. */
module Polarizabilities {
  import opened PyBuiltins

  const CentralisedMarker := "Polarizability (Bohr^3) :"
  const DielectricMarker := "DFPT for dielectric_constant:"

  /** The placeholder dipole attached when no dipole was computed. */
  const FakeDipole: seq<real> := [1.0, 2.0, 3.0]

  // ===========================================================================
  // The per-file scan

  /** The variable `polarizability_tensor`: the empty list it starts as, or
      the float array a marker turned it into. (A marker either turns the list
      into an array or raises, so the list is empty whenever it is observed
      between lines.) */
  datatype TensorVar = EmptyList | Array(rows: seq<seq<string>>)

  /** What the scan of one file found. */
  datatype Outcome = NoTensor | Found(rows: seq<seq<string>>) | Failed(error: Error)

  /** `line.split()[0:3]` */
  function Row(line: string): seq<string>
  {
    Slice(Split(line), 0, 3)
  }

  /** `np.array(rows, dtype=float)` succeeds: the rows all have the same
      length and every token is a float literal. */
  predicate Rectangular(rows: seq<seq<string>>, numeric: string -> bool)
  {
    && (forall r :: 0 <= r < |rows| ==> |rows[r]| == |rows[0]|)
    && (forall r, c :: 0 <= r < |rows| && 0 <= c < |rows[r]| ==> numeric(rows[r][c]))
  }

  /** The rows a marker on line `i` appends: the first three tokens of each of
      lines `i+1`, `i+2` and `i+3`. */
  function BlockRows(lines: seq<string>, i: nat): (rows: seq<seq<string>>)
    requires i + 3 < |lines|
    ensures |rows| == 3 && forall r :: 0 <= r < 3 ==> rows[r] == Row(lines[i + 1 + r])
  {
    [Row(lines[i + 1]), Row(lines[i + 2]), Row(lines[i + 3])]
  }

  /** One marker test that fired on line `i`: three `append`s (an array has no
      `append`; a missing line is an index error), then the conversion to a
      float array. */
  function Hit(lines: seq<string>, i: nat, t: TensorVar, numeric: string -> bool): Result<TensorVar>
    requires i < |lines|
  {
    if t.Array? then Err(AttributeError)
    else if i + 3 >= |lines| then Err(IndexError)
    else
      var rows := BlockRows(lines, i);
      if Rectangular(rows, numeric) then Ok(Array(rows)) else Err(ValueError)
  }

  /** Both marker tests on line `i`, in the order the script makes them. */
  function ScanLine(lines: seq<string>, i: nat, t: TensorVar, numeric: string -> bool): Result<TensorVar>
    requires i < |lines|
  {
    var t :- if Contains(lines[i], CentralisedMarker) then Hit(lines, i, t, numeric) else Ok(t);
    if Contains(lines[i], DielectricMarker) then Hit(lines, i, t, numeric) else Ok(t)
  }

  /** The variable after the loop has run over `lines[..k]`, or the exception. */
  function ScanPrefix(lines: seq<string>, k: nat, numeric: string -> bool): Result<TensorVar>
    requires k <= |lines|
  {
    if k == 0 then Ok(EmptyList)
    else
      var t :- ScanPrefix(lines, k - 1, numeric);
      ScanLine(lines, k - 1, t, numeric)
  }

  /** The outcome of the scan of a whole file: `len(polarizability_tensor) == 0`
      holds exactly for the untouched empty list. */
  function FileTensor(lines: seq<string>, numeric: string -> bool): Outcome
  {
    match ScanPrefix(lines, |lines|, numeric)
    case Err(e) => Failed(e)
    case Ok(EmptyList) => NoTensor
    case Ok(Array(rows)) => Found(rows)
  }

  lemma {:induction false} ScanStopsAt(lines: seq<string>, k: nat, numeric: string -> bool)
    requires k <= |lines| && ScanPrefix(lines, k, numeric).Err?
    ensures ScanPrefix(lines, |lines|, numeric) == ScanPrefix(lines, k, numeric)
    decreases |lines| - k
  {
    if k < |lines| {
      ScanStopsAt(lines, k + 1, numeric);
    }
  }

  /** One marker hit as the script runs it: the three appends of the inner
      loop, then the conversion. */
  method ApplyHit(lines: seq<string>, i: nat, t: TensorVar, numeric: string -> bool) returns (r: Result<TensorVar>)
    requires i < |lines|
    ensures r == Hit(lines, i, t, numeric)
  {
    if t.Array? {
      return Err(AttributeError);
    }
    var rows: seq<seq<string>> := [];
    for n := 0 to 3
      invariant i + n < |lines| && |rows| == n
      invariant forall r :: 0 <= r < n ==> rows[r] == Row(lines[i + 1 + r])
    {
      if i + 1 + n >= |lines| {
        return Err(IndexError);
      }
      rows := rows + [Row(lines[i + 1 + n])];
    }
    assert rows == BlockRows(lines, i);
    if Rectangular(rows, numeric) {
      r := Ok(Array(rows));
    } else {
      r := Err(ValueError);
    }
  }

  /** The scan of one file: both marker tests on every line, in order. */
  method ScanFile(lines: seq<string>, numeric: string -> bool) returns (o: Outcome)
    ensures o == FileTensor(lines, numeric)
  {
    var t := EmptyList;
    for i := 0 to |lines|
      invariant ScanPrefix(lines, i, numeric) == Ok(t)
    {
      if Contains(lines[i], CentralisedMarker) {
        var h := ApplyHit(lines, i, t, numeric);
        if h.Err? {
          ScanStopsAt(lines, i + 1, numeric);
          return Failed(h.error);
        }
        t := h.value;
      }
      if Contains(lines[i], DielectricMarker) {
        var h := ApplyHit(lines, i, t, numeric);
        if h.Err? {
          ScanStopsAt(lines, i + 1, numeric);
          return Failed(h.error);
        }
        t := h.value;
      }
    }
    match t
    case EmptyList => o := NoTensor;
    case Array(rows) => o := Found(rows);
  }

  // ---------------------------------------------------------------------------
  // What the scan finds, stated without the loop

  /** How many of the two markers `line` contains. */
  function MarkerCount(line: string): nat
  {
    (if Contains(line, CentralisedMarker) then 1 else 0) + (if Contains(line, DielectricMarker) then 1 else 0)
  }

  /** The first line holding a marker. */
  function FirstMarker(lines: seq<string>): (r: Option<nat>)
    ensures r.None? ==> forall j :: 0 <= j < |lines| ==> MarkerCount(lines[j]) == 0
    ensures r.Some? ==> r.value < |lines| && MarkerCount(lines[r.value]) > 0 &&
                        forall j :: 0 <= j < r.value ==> MarkerCount(lines[j]) == 0
  {
    if lines == [] then None
    else if MarkerCount(lines[0]) > 0 then Some(0)
    else match FirstMarker(lines[1..])
      case None => None
      case Some(j) => Some(j + 1)
  }

  /** A marker after line `i`, or the second marker on line `i` itself. */
  predicate MarkerAfter(lines: seq<string>, i: nat)
    requires i < |lines|
  {
    MarkerCount(lines[i]) == 2 || exists j :: i < j < |lines| && MarkerCount(lines[j]) > 0
  }

  /** The outcome of the scan, told from the markers: no marker, no tensor;
      otherwise the first marker's block decides, unless a second marker
      follows, whose `append` fails on the array. */
  function ExpectedTensor(lines: seq<string>, numeric: string -> bool): Outcome
  {
    match FirstMarker(lines)
    case None => NoTensor
    case Some(i) =>
      if i + 3 >= |lines| then Failed(IndexError)
      else if !Rectangular(BlockRows(lines, i), numeric) then Failed(ValueError)
      else if MarkerAfter(lines, i) then Failed(AttributeError)
      else Found(BlockRows(lines, i))
  }

  /** Before the first marker the variable is still the empty list. */
  lemma {:induction false} ScanBeforeMarker(lines: seq<string>, k: nat, numeric: string -> bool)
    requires k <= |lines|
    requires forall j :: 0 <= j < k ==> MarkerCount(lines[j]) == 0
    ensures ScanPrefix(lines, k, numeric) == Ok(EmptyList)
  {
    if k > 0 {
      ScanBeforeMarker(lines, k - 1, numeric);
    }
  }

  /** After the one marker line, lines without a marker change nothing. */
  lemma {:induction false} ScanAfterMarker(lines: seq<string>, i: nat, k: nat, numeric: string -> bool)
    requires i < k <= |lines|
    requires forall j :: i < j < k ==> MarkerCount(lines[j]) == 0
    ensures ScanPrefix(lines, k, numeric) == ScanPrefix(lines, i + 1, numeric)
  {
    if k > i + 1 {
      ScanAfterMarker(lines, i, k - 1, numeric);
      var p := ScanPrefix(lines, k - 1, numeric);
      if p.Ok? {
        assert MarkerCount(lines[k - 1]) == 0;
      }
    }
  }

  /** The marker line itself, scanned from the empty list. */
  lemma MarkerLine(lines: seq<string>, i: nat, numeric: string -> bool)
    requires i < |lines| && MarkerCount(lines[i]) > 0
    ensures var t := ScanLine(lines, i, EmptyList, numeric);
      && (i + 3 >= |lines| ==> t == Err(IndexError))
      && (i + 3 < |lines| && !Rectangular(BlockRows(lines, i), numeric) ==> t == Err(ValueError))
      && (i + 3 < |lines| && Rectangular(BlockRows(lines, i), numeric) ==>
            t == if MarkerCount(lines[i]) == 2 then Err(AttributeError) else Ok(Array(BlockRows(lines, i))))
  {
  }

  /** A later marker meets the array: `append` raises. */
  lemma {:induction false} ScanLaterMarker(lines: seq<string>, i: nat, j: nat, rows: seq<seq<string>>, numeric: string -> bool)
    requires i < j < |lines| && MarkerCount(lines[j]) > 0
    requires forall h :: i < h < j ==> MarkerCount(lines[h]) == 0
    requires ScanPrefix(lines, i + 1, numeric) == Ok(Array(rows))
    ensures ScanPrefix(lines, |lines|, numeric) == Err(AttributeError)
  {
    ScanAfterMarker(lines, i, j, numeric);
    assert ScanPrefix(lines, j + 1, numeric) == ScanLine(lines, j, Array(rows), numeric);
    ScanStopsAt(lines, j + 1, numeric);
  }

  /** The first marker after line `i`, when there is one. */
  lemma NextMarker(lines: seq<string>, i: nat) returns (j: nat)
    requires i < |lines| && exists j :: i < j < |lines| && MarkerCount(lines[j]) > 0
    ensures i < j < |lines| && MarkerCount(lines[j]) > 0
    ensures forall h :: i < h < j ==> MarkerCount(lines[h]) == 0
  {
    var rest := lines[i + 1..];
    var w :| i < w < |lines| && MarkerCount(lines[w]) > 0;
    assert MarkerCount(rest[w - i - 1]) > 0;
    var f := FirstMarker(rest);
    j := i + 1 + f.value;
    assert lines[j] == rest[f.value];
    forall h | i < h < j ensures MarkerCount(lines[h]) == 0 {
      assert lines[h] == rest[h - i - 1];
    }
  }

  /** The scan loop finds exactly what `ExpectedTensor` describes. */
  lemma ScanMeaning(lines: seq<string>, numeric: string -> bool)
    ensures FileTensor(lines, numeric) == ExpectedTensor(lines, numeric)
  {
    match FirstMarker(lines)
    case None =>
      ScanBeforeMarker(lines, |lines|, numeric);
    case Some(i) =>
      ScanBeforeMarker(lines, i, numeric);
      MarkerLine(lines, i, numeric);
      assert ScanPrefix(lines, i + 1, numeric) == ScanLine(lines, i, EmptyList, numeric);
      var first := ScanPrefix(lines, i + 1, numeric);
      if first.Err? {
        ScanStopsAt(lines, i + 1, numeric);
      } else if exists j :: i < j < |lines| && MarkerCount(lines[j]) > 0 {
        var j := NextMarker(lines, i);
        ScanLaterMarker(lines, i, j, first.value.rows, numeric);
      } else {
        ScanAfterMarker(lines, i, |lines|, numeric);
      }
  }

  /** A file without either marker has no tensor and is skipped. */
  lemma NoMarkerNoTensor(lines: seq<string>, numeric: string -> bool)
    ensures FileTensor(lines, numeric) == NoTensor <==>
              forall j :: 0 <= j < |lines| ==> !Contains(lines[j], CentralisedMarker) && !Contains(lines[j], DielectricMarker)
  {
    ScanMeaning(lines, numeric);
  }

  /** Line `i` holds the file's only marker. */
  predicate OnlyMarkerAt(lines: seq<string>, i: nat)
  {
    i < |lines| && MarkerCount(lines[i]) == 1 &&
    forall j :: 0 <= j < |lines| && j != i ==> MarkerCount(lines[j]) == 0
  }

  /** A found tensor is the block after the file's only marker: three rows,
      row `r` being the first three tokens of line `i + 1 + r` after the
      marker on line `i`, all of one length and numeric. */
  lemma FoundTensor(lines: seq<string>, numeric: string -> bool)
    requires FileTensor(lines, numeric).Found?
    ensures exists i: nat ::
              && i + 3 < |lines| && OnlyMarkerAt(lines, i)
              && FileTensor(lines, numeric).rows == BlockRows(lines, i)
              && Rectangular(FileTensor(lines, numeric).rows, numeric)
  {
    var i := FoundMarker(lines, numeric);
    OnlyMarker(lines, i);
  }

  /** A first marker with no marker after it is the only marker. */
  lemma OnlyMarker(lines: seq<string>, i: nat)
    requires i < |lines| && MarkerCount(lines[i]) > 0 && !MarkerAfter(lines, i)
    requires forall j :: 0 <= j < i ==> MarkerCount(lines[j]) == 0
    ensures OnlyMarkerAt(lines, i)
  {
    forall j | 0 <= j < |lines| && j != i ensures MarkerCount(lines[j]) == 0 {
      if j > i {
        assert !(i < j < |lines| && MarkerCount(lines[j]) > 0);
      }
    }
  }

  /** The marker line behind a found tensor. */
  lemma FoundMarker(lines: seq<string>, numeric: string -> bool) returns (i: nat)
    requires FileTensor(lines, numeric).Found?
    ensures i + 3 < |lines| && MarkerCount(lines[i]) > 0
    ensures forall j :: 0 <= j < i ==> MarkerCount(lines[j]) == 0
    ensures FileTensor(lines, numeric).rows == BlockRows(lines, i)
    ensures Rectangular(BlockRows(lines, i), numeric) && !MarkerAfter(lines, i)
  {
    ScanMeaning(lines, numeric);
    i := FirstMarker(lines).value;
  }

  /** A marker in one of the last three lines is an index error. */
  lemma MarkerAtEnd(lines: seq<string>, i: nat, numeric: string -> bool)
    requires i < |lines| <= i + 3 && MarkerCount(lines[i]) > 0
    requires forall j :: 0 <= j < i ==> MarkerCount(lines[j]) == 0
    ensures FileTensor(lines, numeric) == Failed(IndexError)
  {
    ScanMeaning(lines, numeric);
    assert FirstMarker(lines) == Some(i);
  }

  /** Two markers with a complete, numeric block behind the first: the second
      `append` meets the array. The second marker is on a later line `j`, or
      on line `i` itself when that line holds both markers. */
  lemma SecondMarker(lines: seq<string>, i: nat, j: nat, numeric: string -> bool)
    requires i <= j < |lines| && i + 3 < |lines|
    requires MarkerCount(lines[i]) > 0 && MarkerCount(lines[j]) > 0
    requires j == i ==> MarkerCount(lines[i]) == 2
    requires forall h :: 0 <= h < i ==> MarkerCount(lines[h]) == 0
    requires Rectangular(BlockRows(lines, i), numeric)
    ensures FileTensor(lines, numeric) == Failed(AttributeError)
  {
    ScanMeaning(lines, numeric);
    assert FirstMarker(lines) == Some(i);
    if j > i {
      assert i < j < |lines| && MarkerCount(lines[j]) > 0;
    }
    assert MarkerAfter(lines, i);
  }

  // ===========================================================================
  // Records

  /** A training record: the geometry read from `source` (opaque here), the
      reference polarizability and, when faked, the reference dipole. */
  datatype Record = Record(source: string, polarizability: seq<string>, dipole: Option<seq<real>>)

  /** `REF_polarizability = tensor.flatten()` and the optional fake dipole.
      Rows of one width are stored row by row. */
  function MakeRecord(source: string, rows: seq<seq<string>>, fakeDipole: bool): (r: Record)
    ensures r.source == source
    ensures r.dipole == (if fakeDipole then Some(FakeDipole) else None)
    ensures |rows| > 0 && (forall i :: 0 <= i < |rows| ==> |rows[i]| == |rows[0]|) ==>
              && |r.polarizability| == |rows| * |rows[0]|
              && forall i: nat, j: nat :: i < |rows| && j < |rows[0]| ==> RowMajorAt(r.polarizability, rows, |rows[0]|, i, j)
  {
    var dipole := if fakeDipole then Some(FakeDipole) else None;
    if |rows| > 0 && (forall i :: 0 <= i < |rows| ==> |rows[i]| == |rows[0]|) then
      FlattenRowMajor(rows, |rows[0]|);
      Record(source, Flatten(rows), dipole)
    else
      Record(source, Flatten(rows), dipole)
  }

  /** A found tensor's rows are equally long (three tokens when its lines
      have at least three), so its record holds three times that many values,
      row by row. */
  lemma FoundRecord(source: string, lines: seq<string>, numeric: string -> bool, fakeDipole: bool)
    requires FileTensor(lines, numeric).Found?
    ensures var rows := FileTensor(lines, numeric).rows;
      var p := MakeRecord(source, rows, fakeDipole).polarizability;
      |rows| == 3 && (forall r :: 0 <= r < 3 ==> |rows[r]| == |rows[0]|) && |p| == 3 * |rows[0]| &&
      forall r: nat, c: nat :: r < 3 && c < |rows[0]| ==> RowMajorAt(p, rows, |rows[0]|, r, c)
  {
    FoundTensor(lines, numeric);
  }

  // ===========================================================================
  // Folder selection

  /** An entry of the current directory: its name and whether it is a folder. */
  datatype DirEntry = DirEntry(name: string, isDir: bool)

  /** `[d for d in os.listdir('.') if os.path.isdir(d) and d.startswith(prefix)]` */
  function PrefixFolders(entries: seq<DirEntry>, prefix: string): seq<string>
  {
    if entries == [] then []
    else
      var e := entries[|entries| - 1];
      PrefixFolders(entries[..|entries| - 1], prefix) + (if e.isDir && prefix <= e.name then [e.name] else [])
  }

  /** `d` names a folder entry that starts with the prefix. */
  predicate PrefixFolder(entries: seq<DirEntry>, prefix: string, d: string)
  {
    exists e :: e in entries && e.isDir && prefix <= e.name && e.name == d
  }

  /** The selected folders are exactly the folder entries whose names start
      with the prefix. */
  lemma {:induction false} PrefixFoldersMeaning(entries: seq<DirEntry>, prefix: string)
    ensures forall d :: d in PrefixFolders(entries, prefix) <==> PrefixFolder(entries, prefix, d)
    ensures |PrefixFolders(entries, prefix)| <= |entries|
  {
    if entries != [] {
      var init := entries[..|entries| - 1];
      PrefixFoldersMeaning(init, prefix);
      assert entries == init + [entries[|entries| - 1]];
    }
  }

  /** `[os.path.dirname(file) for file in files]` */
  function ListedFolders(files: seq<string>): (r: seq<string>)
    ensures |r| == |files|
  {
    if files == [] then [] else ListedFolders(files[..|files| - 1]) + [Dirname(files[|files| - 1])]
  }

  /** Entry `k` of the listed folders is the directory of line `k`. */
  lemma {:induction false} ListedFoldersAt(files: seq<string>, k: nat)
    requires k < |files|
    ensures ListedFolders(files)[k] == Dirname(files[k])
  {
    if k < |files| - 1 {
      ListedFoldersAt(files[..|files| - 1], k);
    }
  }

  lemma ListedFoldersAll(files: seq<string>)
    ensures forall k :: 0 <= k < |files| ==> ListedFolders(files)[k] == Dirname(files[k])
  {
    forall k | 0 <= k < |files| ensures ListedFolders(files)[k] == Dirname(files[k]) {
      ListedFoldersAt(files, k);
    }
  }

  /** A list line naming `<folder>/<name>` selects `<folder>`, so the file
      read from it is `<folder>/<inputfile>`. */
  lemma ListedPath(files: seq<string>, k: nat, folder: string, name: string, inputfile: string)
    requires k < |files| && files[k] == PathJoin(folder, name)
    requires folder != [] && folder[|folder| - 1] != '/'
    requires forall i :: 0 <= i < |name| ==> name[i] != '/'
    ensures ListedFolders(files)[k] == folder
    ensures PathJoin(ListedFolders(files)[k], inputfile) == PathJoin(folder, inputfile)
  {
    ListedFoldersAt(files, k);
    DirnameOfJoin(folder, name);
  }

  /** `subdirs`: from the list file when one is given, else from the listing. */
  function Subdirs(listFile: Option<seq<string>>, entries: seq<DirEntry>, prefix: string): (r: seq<string>)
    ensures listFile.Some? ==>
              |r| == |listFile.value| && forall k :: 0 <= k < |r| ==> r[k] == Dirname(listFile.value[k])
    ensures listFile.None? ==>
              |r| <= |entries| && forall d :: d in r <==> PrefixFolder(entries, prefix, d)
  {
    match listFile
    case Some(files) =>
      ListedFoldersAll(files);
      ListedFolders(files)
    case None =>
      PrefixFoldersMeaning(entries, prefix);
      PrefixFolders(entries, prefix)
  }

  // ===========================================================================
  // Sampling

  /** `perm` is an ordering of `0 .. n-1`. */
  predicate IsPermutation(perm: seq<nat>, n: nat)
  {
    && |perm| == n
    && (forall k :: 0 <= k < n ==> perm[k] < n)
    && (forall k, l :: 0 <= k < l < n ==> perm[k] != perm[l])
  }

  /** `range(n)` as a list. */
  function Range(n: nat): (r: seq<nat>)
    ensures |r| == n && forall k :: 0 <= k < n ==> r[k] == k
  {
    if n == 0 then [] else Range(n - 1) + [n - 1]
  }

  /** `indices`: every folder in order, or, for a positive sample size,
      `np.random.choice(n, samples, replace=False)`, which takes the first
      `samples` entries of a random permutation `perm` of the folders and
      raises when asked for more than there are. */
  function SampleIndices(n: nat, samples: int, perm: seq<nat>): (r: Result<seq<nat>>)
    requires IsPermutation(perm, n)
    ensures r.Err? <==> samples > n
    ensures r.Ok? ==>
      && (forall k :: 0 <= k < |r.value| ==> r.value[k] < n)
      && (forall k, l :: 0 <= k < l < |r.value| ==> r.value[k] != r.value[l])
      && (samples <= 0 ==> r.value == Range(n))
      && (samples > 0 ==> |r.value| == samples)
  {
    if samples > 0 then
      if samples > n then Err(ValueError) else Ok(perm[..samples])
    else Ok(Range(n))
  }

  /** A sample of every folder visits each folder exactly once. */
  lemma FullSample(n: nat, samples: int, perm: seq<nat>)
    requires IsPermutation(perm, n)
    requires samples <= 0 || samples == n
    ensures var idx := SampleIndices(n, samples, perm);
      idx.Ok? && |idx.value| == n && forall f :: 0 <= f < n ==> f in idx.value
  {
    var idx := SampleIndices(n, samples, perm).value;
    if samples > 0 {
      forall f | 0 <= f < n ensures f in idx {
        PermutationCovers(perm, n, f);
      }
    } else {
      forall f | 0 <= f < n ensures f in idx {
        assert idx[f] == f;
      }
    }
  }

  /** A permutation of `0 .. n-1` contains each of them. */
  lemma PermutationCovers(perm: seq<nat>, n: nat, f: nat)
    requires IsPermutation(perm, n) && f < n
    ensures f in perm
  {
    var values := set k | 0 <= k < n :: perm[k];
    var all := set k | 0 <= k < n :: Range(n)[k];
    ImageSize(perm, n);
    ImageSize(Range(n), n);
    assert Range(n)[f] == f;
    if f !in perm {
      var others := all - {f};
      forall v | v in values ensures v in others {
        var k :| 0 <= k < n && perm[k] == v;
        assert Range(n)[v] == v;
      }
      SubsetSize(values, others);
      assert false;
    }
  }

  lemma SubsetSize(a: set<nat>, b: set<nat>)
    requires a <= b
    ensures |a| <= |b|
  {
    assert b == a + (b - a);
  }

  lemma {:induction false} ImageSize(perm: seq<nat>, m: nat)
    requires m <= |perm|
    requires forall k, l :: 0 <= k < l < m ==> perm[k] != perm[l]
    ensures |set k | 0 <= k < m :: perm[k]| == m
  {
    if m > 0 {
      var values := set k | 0 <= k < m :: perm[k];
      var initValues := set k | 0 <= k < m - 1 :: perm[k];
      assert values == initValues + {perm[m - 1]};
      ImageSize(perm, m - 1);
    }
  }

  // ===========================================================================
  // The folder loop

  /** The script's settings and the files it can read: the selected folders,
      the name of the file read in each, the readable files by path, the
      float-literal test and the fake-dipole flag. */
  datatype Env = Env(subdirs: seq<string>, inputfile: string, fs: map<string, seq<string>>,
                     numeric: string -> bool, fakeDipole: bool)

  /** What one round of the folder loop does. */
  datatype Visit = Skipped | Wrote(record: Record) | Stopped(error: Error)

  /** `os.path.join(subdirs[i], inputfile)` */
  function FolderPath(env: Env, i: nat): string
    requires i < |env.subdirs|
  {
    PathJoin(env.subdirs[i], env.inputfile)
  }

  /** The round for folder `i`: a missing file and a file without a tensor
      are skipped; a failed scan stops the script; a found tensor is written
      as a record. */
  function VisitFolder(env: Env, i: nat): Visit
    requires i < |env.subdirs|
  {
    var path := FolderPath(env, i);
    if path !in env.fs then Skipped
    else match FileTensor(env.fs[path], env.numeric)
      case NoTensor => Skipped
      case Failed(e) => Stopped(e)
      case Found(rows) => Wrote(MakeRecord(path, rows, env.fakeDipole))
  }

  predicate ValidIndices(env: Env, indices: seq<nat>)
  {
    forall k :: 0 <= k < |indices| ==> indices[k] < |env.subdirs|
  }

  /** What the first `k` rounds of the loop over `indices` append to the
      output file, and the exception that stopped them, if any. */
  function RecordsUpTo(env: Env, indices: seq<nat>, k: nat): Run<Record>
    requires ValidIndices(env, indices) && k <= |indices|
  {
    if k == 0 then Run([], None)
    else
      var prev := RecordsUpTo(env, indices, k - 1);
      if prev.error.Some? then prev
      else match VisitFolder(env, indices[k - 1])
        case Skipped => prev
        case Wrote(r) => Run(prev.output + [r], None)
        case Stopped(e) => Run(prev.output, Some(e))
  }

  lemma {:induction false} RecordsStop(env: Env, indices: seq<nat>, k: nat)
    requires ValidIndices(env, indices) && k <= |indices|
    requires RecordsUpTo(env, indices, k).error.Some?
    ensures RecordsUpTo(env, indices, |indices|) == RecordsUpTo(env, indices, k)
    decreases |indices| - k
  {
    if k < |indices| {
      RecordsStop(env, indices, k + 1);
    }
  }

  /** The folder loop: read each sampled folder's file, skip it when it is
      missing or holds no tensor, stop at a failed scan, else append a record. */
  method WriteRecords(env: Env, indices: seq<nat>) returns (out: Run<Record>)
    requires ValidIndices(env, indices)
    ensures out == RecordsUpTo(env, indices, |indices|)
  {
    var written: seq<Record> := [];
    for k := 0 to |indices|
      invariant RecordsUpTo(env, indices, k) == Run(written, None)
    {
      var i := indices[k];
      var path := PathJoin(env.subdirs[i], env.inputfile);
      if path in env.fs {
        var tensor := ScanFile(env.fs[path], env.numeric);
        match tensor
        case NoTensor =>
        case Failed(e) =>
          RecordsStop(env, indices, k + 1);
          return Run(written, Some(e));
        case Found(rows) =>
          written := written + [MakeRecord(path, rows, env.fakeDipole)];
      }
    }
    out := Run(written, None);
  }

  // ---------------------------------------------------------------------------
  // What the loop writes, stated without the loop

  /** The records of the rounds that wrote one, in order. */
  function Records(vs: seq<Visit>): (r: seq<Record>)
    ensures |r| <= |vs|
  {
    if vs == [] then []
    else Records(vs[..|vs| - 1]) + (if vs[|vs| - 1].Wrote? then [vs[|vs| - 1].record] else [])
  }

  /** The first round that raised. */
  function FirstStop(vs: seq<Visit>): (r: Option<nat>)
    ensures r.None? ==> forall j :: 0 <= j < |vs| ==> !vs[j].Stopped?
    ensures r.Some? ==> r.value < |vs| && vs[r.value].Stopped? &&
                        forall j :: 0 <= j < r.value ==> !vs[j].Stopped?
  {
    if vs == [] then None
    else match FirstStop(vs[..|vs| - 1])
      case Some(f) => Some(f)
      case None => if vs[|vs| - 1].Stopped? then Some(|vs| - 1) else None
  }

  /** The output of a sequence of rounds: every record written before the
      first exception, and that exception. */
  function Settle(vs: seq<Visit>): Run<Record>
  {
    match FirstStop(vs)
    case None => Run(Records(vs), None)
    case Some(f) => Run(Records(vs[..f]), Some(vs[f].error))
  }

  /** The rounds of the loop over `indices[..k]`. */
  function VisitsOf(env: Env, indices: seq<nat>, k: nat): (vs: seq<Visit>)
    requires ValidIndices(env, indices) && k <= |indices|
    ensures |vs| == k
    ensures forall j :: 0 <= j < k ==> vs[j] == VisitFolder(env, indices[j])
  {
    if k == 0 then [] else VisitsOf(env, indices, k - 1) + [VisitFolder(env, indices[k - 1])]
  }

  lemma SettleStep(vs: seq<Visit>, v: Visit)
    ensures Settle(vs + [v]) ==
      if Settle(vs).error.Some? then Settle(vs)
      else match v
        case Skipped => Settle(vs)
        case Wrote(r) => Run(Settle(vs).output + [r], None)
        case Stopped(e) => Run(Settle(vs).output, Some(e))
  {
    var ws := vs + [v];
    assert ws[..|ws| - 1] == vs;
    match FirstStop(vs)
    case Some(f) =>
      assert ws[..f] == vs[..f];
      assert ws[f] == vs[f];
    case None =>
      if v.Stopped? {
        assert ws[..|vs|] == vs;
      }
  }

  /** The loop writes the records of the rounds before the first exception
      and stops with that exception. */
  lemma {:induction false} RecordsMeaning(env: Env, indices: seq<nat>, k: nat)
    requires ValidIndices(env, indices) && k <= |indices|
    ensures RecordsUpTo(env, indices, k) == Settle(VisitsOf(env, indices, k))
  {
    if k > 0 {
      RecordsMeaning(env, indices, k - 1);
      SettleStep(VisitsOf(env, indices, k - 1), VisitFolder(env, indices[k - 1]));
    }
  }

  /** Every record written comes from a visited folder whose file was found
      and held a tensor: its source is that file and its polarizability the
      flattened tensor. */
  lemma {:induction false} RecordOrigin(vs: seq<Visit>, j: nat)
    requires j < |Records(vs)|
    ensures exists k :: 0 <= k < |vs| && vs[k] == Wrote(Records(vs)[j])
  {
    var init := vs[..|vs| - 1];
    if j < |Records(init)| {
      RecordOrigin(init, j);
      var k :| 0 <= k < |init| && init[k] == Wrote(Records(init)[j]);
      assert vs[k] == init[k];
    } else {
      assert vs[|vs| - 1] == Wrote(Records(vs)[j]);
    }
  }

  /** A written record names the file it was read from, which exists and
      holds a tensor, and carries that tensor flattened. */
  lemma WroteMeaning(env: Env, i: nat, r: Record)
    requires i < |env.subdirs| && VisitFolder(env, i) == Wrote(r)
    ensures r.source == FolderPath(env, i) && r.source in env.fs
    ensures var t := FileTensor(env.fs[r.source], env.numeric);
      t.Found? && r.polarizability == Flatten(t.rows) &&
      r.dipole == (if env.fakeDipole then Some(FakeDipole) else None)
  {
  }

  // ===========================================================================
  // The whole script

  /** The records appended to the output file, and the exception that stopped
      the script, if any. A sample larger than the number of folders stops it
      before any record is written. */
  function ExtractRecords(listFile: Option<seq<string>>, entries: seq<DirEntry>, prefix: string,
                          samples: int, perm: seq<nat>, inputfile: string,
                          fs: map<string, seq<string>>, numeric: string -> bool, fakeDipole: bool): Run<Record>
    requires IsPermutation(perm, |Subdirs(listFile, entries, prefix)|)
  {
    var subdirs := Subdirs(listFile, entries, prefix);
    var env := Env(subdirs, inputfile, fs, numeric, fakeDipole);
    match SampleIndices(|subdirs|, samples, perm)
    case Err(e) => Run([], Some(e))
    case Ok(indices) => RecordsUpTo(env, indices, |indices|)
  }

  /** The script: select the folders, choose the indices, run the folder loop. */
  method ExtractPolarizabilities(listFile: Option<seq<string>>, entries: seq<DirEntry>, prefix: string,
                                 samples: int, perm: seq<nat>, inputfile: string,
                                 fs: map<string, seq<string>>, numeric: string -> bool, fakeDipole: bool)
    returns (out: Run<Record>)
    requires IsPermutation(perm, |Subdirs(listFile, entries, prefix)|)
    ensures out == ExtractRecords(listFile, entries, prefix, samples, perm, inputfile, fs, numeric, fakeDipole)
  {
    var subdirs := Subdirs(listFile, entries, prefix);
    var indices := SampleIndices(|subdirs|, samples, perm);
    if indices.Err? {
      return Run([], Some(indices.error));
    }
    out := WriteRecords(Env(subdirs, inputfile, fs, numeric, fakeDipole), indices.value);
  }

  /** What the script writes, told from the sample size: a sample larger
      than the number of folders raises before any record is written; with no
      sample the folders are visited in order; otherwise the first `samples`
      entries of the permutation are. Either way the output is the records of
      the rounds before the first exception, and that exception. */
  lemma ExtractMeaning(listFile: Option<seq<string>>, entries: seq<DirEntry>, prefix: string,
                       samples: int, perm: seq<nat>, inputfile: string,
                       fs: map<string, seq<string>>, numeric: string -> bool, fakeDipole: bool)
    requires IsPermutation(perm, |Subdirs(listFile, entries, prefix)|)
    ensures var subdirs := Subdirs(listFile, entries, prefix);
      var n := |subdirs|;
      var env := Env(subdirs, inputfile, fs, numeric, fakeDipole);
      var out := ExtractRecords(listFile, entries, prefix, samples, perm, inputfile, fs, numeric, fakeDipole);
      && (samples > n ==> out == Run([], Some(ValueError)))
      && (samples <= 0 ==> out == Settle(VisitsOf(env, Range(n), n)))
      && (0 < samples <= n ==> out == Settle(VisitsOf(env, perm[..samples], samples)))
  {
    var subdirs := Subdirs(listFile, entries, prefix);
    var env := Env(subdirs, inputfile, fs, numeric, fakeDipole);
    var idx := SampleIndices(|subdirs|, samples, perm);
    if idx.Ok? {
      RecordsMeaning(env, idx.value, |idx.value|);
    }
  }

  /** With every folder visited (no sample, or a sample of all of them) and
      no file failing its scan, one record is written per folder whose file
      exists and holds a tensor. */
  lemma {:induction false} AllRecords(env: Env, indices: seq<nat>)
    requires ValidIndices(env, indices)
    requires forall k :: 0 <= k < |indices| ==> !VisitFolder(env, indices[k]).Stopped?
    ensures RecordsUpTo(env, indices, |indices|).error.None?
    ensures |RecordsUpTo(env, indices, |indices|).output| ==
            |set k | 0 <= k < |indices| && VisitFolder(env, indices[k]).Wrote?|
  {
    RecordsMeaning(env, indices, |indices|);
    var vs := VisitsOf(env, indices, |indices|);
    VisitsAt(env, indices, |indices|);
    WrittenCount(vs);
    assert (set k | 0 <= k < |vs| && vs[k].Wrote?) == (set k | 0 <= k < |indices| && VisitFolder(env, indices[k]).Wrote?);
  }

  lemma {:induction false} VisitsAt(env: Env, indices: seq<nat>, k: nat)
    requires ValidIndices(env, indices) && k <= |indices|
    ensures forall j :: 0 <= j < k ==> VisitsOf(env, indices, k)[j] == VisitFolder(env, indices[j])
  {
    if k > 0 {
      VisitsAt(env, indices, k - 1);
    }
  }

  /** The number of records is the number of rounds that wrote one. */
  lemma {:induction false} WrittenCount(vs: seq<Visit>)
    ensures |Records(vs)| == |set k | 0 <= k < |vs| && vs[k].Wrote?|
  {
    if vs != [] {
      var init := vs[..|vs| - 1];
      WrittenCount(init);
      var before := set k | 0 <= k < |init| && init[k].Wrote?;
      var after := set k | 0 <= k < |vs| && vs[k].Wrote?;
      if vs[|vs| - 1].Wrote? {
        assert after == before + {|vs| - 1};
      } else {
        assert after == before;
      }
    }
  }
}
