/** The geometry-optimisation history converter. One pass over the lines of an
    aims.out log collects the atom count, the lattice-vector count, every
    `lattice_vector` line, every atom line and one block of force lines per
    `Total atomic forces` marker; then one extended-XYZ frame is written per
    force block: a count line, a `Lattice="..."  pbc="T T T"` comment, and one
    tab-separated line per atom with its species, position and force. */
module GeometryHistory {
  import opened PyBuiltins

  const AtomCountMarker := "Number of atoms"
  const LatticeCountMarker := "Number of lattice vectors"
  const LatticeVectorMarker := "lattice_vector"
  const AtomMarker := "  atom  "
  const ForcesMarker := "Total atomic forces"

  /** The script's variables after the scan of a prefix of the log. The two
      counts are None while the script has not assigned them yet. */
  datatype Scan = Scan(nAtoms: Option<int>, nLatticeVectors: Option<int>,
                       latticeVectors: seq<string>, atoms: seq<string>,
                       forces: seq<seq<string>>)

  // ===========================================================================
  // Scan phase

  /** `int(line.split()[k])` */
  function Field(line: string, k: nat): Result<int>
  {
    var toks := Split(line);
    if k >= |toks| then Err(IndexError)
    else match ParseInt(toks[k])
      case None => Err(ValueError)
      case Some(n) => Ok(n)
  }

  /** The two count tests of the scan loop: `n_atoms` from field 5 of a
      `Number of atoms` line, `n_lattice_vectors` from field 6 of a
      `Number of lattice vectors` line. */
  function CountLine(line: string, st: Scan): Result<Scan>
  {
    var st :- if Contains(line, AtomCountMarker) then
                var n :- Field(line, 5); Ok(st.(nAtoms := Some(n)))
              else Ok(st);
    if Contains(line, LatticeCountMarker) then
      var n :- Field(line, 6); Ok(st.(nLatticeVectors := Some(n)))
    else Ok(st)
  }

  /** The two collecting tests: `lattice_vector` lines and atom lines. */
  function CollectLine(line: string, st: Scan): Scan
  {
    var st := if Contains(line, LatticeVectorMarker) then st.(latticeVectors := st.latticeVectors + [line]) else st;
    if Contains(line, AtomMarker) then st.(atoms := st.atoms + [line]) else st
  }

  /** The forces test on line `i`: the block `lines[i+1:i+1+n_atoms]`. */
  function ForcesLine(lines: seq<string>, i: nat, st: Scan): Result<Scan>
    requires i < |lines|
  {
    if Contains(lines[i], ForcesMarker) then
      match st.nAtoms
      case None => Err(NameError("n_atoms"))
      case Some(n) => Ok(st.(forces := st.forces + [Slice(lines, i + 1, i + 1 + n)]))
    else Ok(st)
  }

  /** The body of the scan loop for line `i`: five independent tests, in the
      order the script makes them. */
  function ScanLine(lines: seq<string>, i: nat, st: Scan): Result<Scan>
    requires i < |lines|
  {
    var st :- CountLine(lines[i], st);
    ForcesLine(lines, i, CollectLine(lines[i], st))
  }

  /** The variables after the scan loop has processed `lines[..k]`. */
  function ScanPrefix(lines: seq<string>, k: nat): Result<Scan>
    requires k <= |lines|
  {
    if k == 0 then Ok(Scan(None, None, [], [], []))
    else
      var st :- ScanPrefix(lines, k - 1);
      ScanLine(lines, k - 1, st)
  }

  /** The scan loop of the script. */
  method ScanLog(lines: seq<string>) returns (r: Result<Scan>)
    ensures r == ScanPrefix(lines, |lines|)
  {
    var nAtoms: Option<int> := None;
    var nLatticeVectors: Option<int> := None;
    var latticeVectors: seq<string> := [];
    var atoms: seq<string> := [];
    var forces: seq<seq<string>> := [];
    for i := 0 to |lines|
      invariant ScanPrefix(lines, i) == Ok(Scan(nAtoms, nLatticeVectors, latticeVectors, atoms, forces))
    {
      ghost var st := Scan(nAtoms, nLatticeVectors, latticeVectors, atoms, forces);
      ScanNext(lines, i, st);
      var line := lines[i];
      if Contains(line, AtomCountMarker) {
        var n := Field(line, 5);
        if n.Err? {
          ScanStopsAt(lines, i + 1);
          return Err(n.error);
        }
        nAtoms := Some(n.value);
      }
      if Contains(line, LatticeCountMarker) {
        var n := Field(line, 6);
        if n.Err? {
          ScanStopsAt(lines, i + 1);
          return Err(n.error);
        }
        nLatticeVectors := Some(n.value);
      }
      if Contains(line, LatticeVectorMarker) {
        latticeVectors := latticeVectors + [line];
      }
      if Contains(line, AtomMarker) {
        atoms := atoms + [line];
      }
      if Contains(line, ForcesMarker) {
        if nAtoms.None? {
          ScanStopsAt(lines, i + 1);
          return Err(NameError("n_atoms"));
        }
        forces := forces + [Slice(lines, i + 1, i + 1 + nAtoms.value)];
      }
    }
    return Ok(Scan(nAtoms, nLatticeVectors, latticeVectors, atoms, forces));
  }

  /** Round `i` of the scan loop, after rounds that raised nothing. */
  lemma ScanNext(lines: seq<string>, i: nat, st: Scan)
    requires i < |lines| && ScanPrefix(lines, i) == Ok(st)
    ensures ScanPrefix(lines, i + 1) == ScanLine(lines, i, st)
  {
  }

  /** The first exception ends the scan: later lines change nothing. */
  lemma {:induction false} ScanStopsAt(lines: seq<string>, k: nat)
    requires k <= |lines| && ScanPrefix(lines, k).Err?
    ensures ScanPrefix(lines, |lines|) == ScanPrefix(lines, k)
    decreases |lines| - k
  {
    if k < |lines| {
      ScanStopsAt(lines, k + 1);
    }
  }

  // ---------------------------------------------------------------------------
  // What the scan collects, stated without the loop

  /** The lines containing `pat`, in file order. */
  function Filter(lines: seq<string>, pat: string): seq<string>
  {
    if lines == [] then []
    else Filter(lines[..|lines| - 1], pat) + (if Contains(lines[|lines| - 1], pat) then [lines[|lines| - 1]] else [])
  }

  /** The indices of the lines containing `pat`, ascending. */
  function Positions(lines: seq<string>, pat: string): (r: seq<nat>)
    ensures forall j :: 0 <= j < |r| ==> r[j] < |lines| && Contains(lines[r[j]], pat)
    ensures forall j, j' :: 0 <= j < j' < |r| ==> r[j] < r[j']
    ensures forall i :: 0 <= i < |lines| && Contains(lines[i], pat) ==> i in r
  {
    if lines == [] then []
    else
      var last := |lines| - 1;
      Positions(lines[..last], pat) + (if Contains(lines[last], pat) then [last] else [])
  }

  /** `int(line.split()[k])` of the last line containing `marker`; None when no
      line contains it (or that field is not an integer). */
  function LastField(lines: seq<string>, marker: string, k: nat): Option<int>
  {
    if lines == [] then None
    else if Contains(lines[|lines| - 1], marker) then
      match Field(lines[|lines| - 1], k)
      case Ok(n) => Some(n)
      case Err(_) => None
    else LastField(lines[..|lines| - 1], marker, k)
  }

  /** No line makes the scan fail: every count line has an integer at its field,
      and every forces marker has an atom-count line at or before it. */
  predicate ScanWellFormed(lines: seq<string>, k: nat)
    requires k <= |lines|
  {
    && (forall i :: 0 <= i < k && Contains(lines[i], AtomCountMarker) ==> Field(lines[i], 5).Ok?)
    && (forall i :: 0 <= i < k && Contains(lines[i], LatticeCountMarker) ==> Field(lines[i], 6).Ok?)
    && (forall i :: 0 <= i < k && Contains(lines[i], ForcesMarker) ==>
          exists h :: 0 <= h <= i && Contains(lines[h], AtomCountMarker))
  }

  /** `block` is what the forces test stores for a marker on line `m`: the
      `n_atoms` lines after it, `n_atoms` being the count read at or before
      line `m`. */
  predicate ForceBlockOf(lines: seq<string>, m: nat, block: seq<string>)
  {
    m < |lines| &&
    match LastField(lines[..m + 1], AtomCountMarker, 5)
    case None => false
    case Some(n) => block == Slice(lines, m + 1, m + 1 + n)
  }

  /** What the variables hold after a successful scan of `lines[..k]`. */
  predicate Collected(lines: seq<string>, k: nat, st: Scan)
    requires k <= |lines|
  {
    && st.nAtoms == LastField(lines[..k], AtomCountMarker, 5)
    && st.nLatticeVectors == LastField(lines[..k], LatticeCountMarker, 6)
    && st.latticeVectors == Filter(lines[..k], LatticeVectorMarker)
    && st.atoms == Filter(lines[..k], AtomMarker)
    && CollectedForces(lines, Positions(lines[..k], ForcesMarker), st.forces)
  }

  predicate CollectedForces(lines: seq<string>, marks: seq<nat>, forces: seq<seq<string>>)
  {
    |forces| == |marks| &&
    forall j :: 0 <= j < |marks| ==> ForceBlockOf(lines, marks[j], forces[j])
  }

  lemma LastFieldExists(lines: seq<string>, marker: string, k: nat)
    requires forall i :: 0 <= i < |lines| && Contains(lines[i], marker) ==> Field(lines[i], k).Ok?
    ensures LastField(lines, marker, k).Some? <==> exists h :: 0 <= h < |lines| && Contains(lines[h], marker)
  {
    if lines != [] {
      var init := lines[..|lines| - 1];
      LastFieldExists(init, marker, k);
      if exists h :: 0 <= h < |init| && Contains(init[h], marker) {
        var h :| 0 <= h < |init| && Contains(init[h], marker);
        assert lines[h] == init[h];
      }
      if exists h :: 0 <= h < |lines| && Contains(lines[h], marker) {
        var h :| 0 <= h < |lines| && Contains(lines[h], marker);
        if h < |init| {
          assert init[h] == lines[h];
        }
      }
    }
  }

  /** The scan of `lines[..k]` succeeds exactly when those lines are well
      formed, and then it has collected the counts of the last count lines,
      the lattice-vector and atom lines in file order, and one force block of
      the following `n_atoms` lines (clamped at the end of the file) per
      forces marker. */
  lemma {:induction false} ScanMeaning(lines: seq<string>, k: nat)
    requires k <= |lines|
    ensures ScanPrefix(lines, k).Ok? <==> ScanWellFormed(lines, k)
    ensures ScanPrefix(lines, k).Ok? ==> Collected(lines, k, ScanPrefix(lines, k).value)
  {
    if k > 0 {
      ScanMeaning(lines, k - 1);
      var pre := lines[..k - 1];
      var cur := lines[..k];
      assert cur[..k - 1] == pre;
      var line := lines[k - 1];
      assert cur[k - 1] == line;
      if ScanPrefix(lines, k - 1).Ok? {
        var st := ScanPrefix(lines, k - 1).value;
        ScanLineMeaning(lines, k, st);
      } else {
        assert !ScanWellFormed(lines, k);
      }
    }
  }

  /** The count lines of `line` are well formed. */
  predicate CountsWellFormed(line: string)
  {
    && (Contains(line, AtomCountMarker) ==> Field(line, 5).Ok?)
    && (Contains(line, LatticeCountMarker) ==> Field(line, 6).Ok?)
  }

  lemma ScanLineOk(lines: seq<string>, i: nat, st: Scan)
    requires i < |lines|
    ensures ScanLine(lines, i, st).Ok? <==>
      CountsWellFormed(lines[i]) &&
      (Contains(lines[i], ForcesMarker) ==> Contains(lines[i], AtomCountMarker) || st.nAtoms.Some?)
    ensures ScanLine(lines, i, st).Ok? ==>
      var line := lines[i];
      var st' := ScanLine(lines, i, st).value;
      && st'.nAtoms == (if Contains(line, AtomCountMarker) then Some(Field(line, 5).value) else st.nAtoms)
      && st'.nLatticeVectors == (if Contains(line, LatticeCountMarker) then Some(Field(line, 6).value) else st.nLatticeVectors)
      && st'.latticeVectors == st.latticeVectors + (if Contains(line, LatticeVectorMarker) then [line] else [])
      && st'.atoms == st.atoms + (if Contains(line, AtomMarker) then [line] else [])
      && st'.forces == st.forces + (if Contains(line, ForcesMarker) then [Slice(lines, i + 1, i + 1 + st'.nAtoms.value)] else [])
  {
  }

  /** Well-formedness grows one line at a time. */
  lemma WellFormedStep(lines: seq<string>, k: nat)
    requires 0 < k <= |lines|
    ensures ScanWellFormed(lines, k) <==>
      ScanWellFormed(lines, k - 1) && CountsWellFormed(lines[k - 1]) &&
      (Contains(lines[k - 1], ForcesMarker) ==>
         Contains(lines[k - 1], AtomCountMarker) || exists h :: 0 <= h < k - 1 && Contains(lines[h], AtomCountMarker))
  {
    var line := lines[k - 1];
    if ScanWellFormed(lines, k) && Contains(line, ForcesMarker) && !Contains(line, AtomCountMarker) {
      var h :| 0 <= h <= k - 1 && Contains(lines[h], AtomCountMarker);
      assert h < k - 1;
    }
  }

  /** The atom count is bound after a well-formed prefix exactly when some line
      of it is an atom-count line. */
  lemma CountBound(lines: seq<string>, k: nat, st: Scan)
    requires k <= |lines|
    requires ScanWellFormed(lines, k) && Collected(lines, k, st)
    ensures st.nAtoms.Some? <==> exists h :: 0 <= h < k && Contains(lines[h], AtomCountMarker)
  {
    var pre := lines[..k];
    assert forall i :: 0 <= i < |pre| ==> pre[i] == lines[i];
    LastFieldExists(pre, AtomCountMarker, 5);
    if exists h :: 0 <= h < k && Contains(lines[h], AtomCountMarker) {
      var h :| 0 <= h < k && Contains(lines[h], AtomCountMarker);
      assert Contains(pre[h], AtomCountMarker);
    }
  }

  /** One step of `ScanMeaning`. */
  lemma ScanLineMeaning(lines: seq<string>, k: nat, st: Scan)
    requires 0 < k <= |lines|
    requires ScanWellFormed(lines, k - 1) && Collected(lines, k - 1, st)
    ensures ScanLine(lines, k - 1, st).Ok? <==> ScanWellFormed(lines, k)
    ensures ScanLine(lines, k - 1, st).Ok? ==> Collected(lines, k, ScanLine(lines, k - 1, st).value)
  {
    ScanLineOk(lines, k - 1, st);
    WellFormedStep(lines, k);
    CountBound(lines, k - 1, st);
    if ScanLine(lines, k - 1, st).Ok? {
      CollectedStep(lines, k, st, ScanLine(lines, k - 1, st).value);
    }
  }

  lemma CollectedStep(lines: seq<string>, k: nat, st: Scan, st': Scan)
    requires 0 < k <= |lines|
    requires Collected(lines, k - 1, st)
    requires ScanLine(lines, k - 1, st) == Ok(st')
    ensures Collected(lines, k, st')
  {
    var pre := lines[..k - 1];
    var cur := lines[..k];
    assert cur[..k - 1] == pre;
    var line := lines[k - 1];
    assert cur[k - 1] == line;
    ScanLineOk(lines, k - 1, st);
    var marks0 := Positions(pre, ForcesMarker);
    var marks := Positions(cur, ForcesMarker);
    assert marks == marks0 + (if Contains(line, ForcesMarker) then [k - 1] else []);
    if Contains(line, ForcesMarker) {
      assert ForceBlockOf(lines, k - 1, st'.forces[|st.forces|]);
    }
    assert CollectedForces(lines, marks, st'.forces) by {
      forall j | 0 <= j < |marks| ensures ForceBlockOf(lines, marks[j], st'.forces[j]) {
        if j < |marks0| {
          assert marks[j] == marks0[j] && st'.forces[j] == st.forces[j];
        }
      }
    }
  }
  /** A forces marker before any `Number of atoms` line stops the script with
      a NameError: `n_atoms` has not been assigned yet. */
  lemma ForcesBeforeAtomCount(lines: seq<string>, m: nat)
    requires m < |lines| && Contains(lines[m], ForcesMarker)
    requires forall h :: 0 <= h <= m ==> !Contains(lines[h], AtomCountMarker)
    requires forall h :: 0 <= h < m ==> CountsWellFormed(lines[h]) && !Contains(lines[h], ForcesMarker)
    requires CountsWellFormed(lines[m])
    ensures ScanPrefix(lines, |lines|) == Err(NameError("n_atoms"))
  {
    NoAtomCountYet(lines, m);
    UnboundAtomCount(lines, m);
  }

  /** Before the first `Number of atoms` line, a scan that met no error has
      not bound `n_atoms`. */
  lemma NoAtomCountYet(lines: seq<string>, m: nat)
    requires m <= |lines|
    requires forall h :: 0 <= h < m ==> !Contains(lines[h], AtomCountMarker)
    requires forall h :: 0 <= h < m ==> CountsWellFormed(lines[h]) && !Contains(lines[h], ForcesMarker)
    ensures ScanPrefix(lines, m).Ok? && ScanPrefix(lines, m).value.nAtoms.None?
  {
    assert ScanWellFormed(lines, m);
    ScanMeaning(lines, m);
    CountBound(lines, m, ScanPrefix(lines, m).value);
  }

  /** A forces marker met while `n_atoms` is unbound raises the NameError. */
  lemma UnboundAtomCount(lines: seq<string>, m: nat)
    requires m < |lines| && ScanPrefix(lines, m).Ok? && ScanPrefix(lines, m).value.nAtoms.None?
    requires Contains(lines[m], ForcesMarker) && !Contains(lines[m], AtomCountMarker) && CountsWellFormed(lines[m])
    ensures ScanPrefix(lines, |lines|) == Err(NameError("n_atoms"))
  {
    UnboundAtomCountStep(lines, m);
    ScanStopsAt(lines, m + 1);
  }

  lemma UnboundAtomCountStep(lines: seq<string>, m: nat)
    requires m < |lines| && ScanPrefix(lines, m).Ok? && ScanPrefix(lines, m).value.nAtoms.None?
    requires Contains(lines[m], ForcesMarker) && !Contains(lines[m], AtomCountMarker) && CountsWellFormed(lines[m])
    ensures ScanPrefix(lines, m + 1) == Err(NameError("n_atoms"))
  {
    var st := ScanPrefix(lines, m).value;
    var st1 := CountLine(lines[m], st);
    assert st1.Ok? && st1.value.nAtoms.None?;
    var st2 := CollectLine(lines[m], st1.value);
    assert st2.nAtoms.None?;
    assert ScanPrefix(lines, m + 1) == ScanLine(lines, m, st);
  }

  // ===========================================================================
  // Write phase

  /** `len(range(n))` */
  function RangeLen(n: int): nat
  {
    if n > 0 then n else 0
  }

  /** The comment line of a frame around the lattice text. */
  function Comment(ilattice: string): string
  {
    "Lattice=\"" + ilattice + "\"  pbc=\"T T T\""
  }

  /** `ilattice` built from the rows of `tmp`: each row's tokens joined by
      single spaces and followed by one space. */
  function LatticeText(rows: seq<seq<string>>): (t: string)
    ensures t == [] || IsSpace(t[|t| - 1])
  {
    if rows == [] then ""
    else LatticeText(rows[..|rows| - 1]) + Join(rows[|rows| - 1], " ") + " "
  }

  /** `tmp` after `count` rounds of the lattice loop of a frame whose first
      vector is `lattice_vector[base]`: tokens 1..3 of each vector line. */
  function LatticeRows(lv: seq<string>, base: int, count: nat): Result<seq<seq<string>>>
  {
    if count == 0 then Ok([])
    else
      var rows :- LatticeRows(lv, base, count - 1);
      var v :- Index(lv, base + count - 1);
      Ok(rows + [Slice(Split(v), 1, 4)])
  }

  /** The line written for one atom: the species (token 4 of its atom line),
      its position (tokens 1..3) and its force (tokens 2..4 of its force
      line), separated by tabs. */
  function AtomText(atomLine: string, forceLine: string): string
    requires |Split(atomLine)| > 4
  {
    var toks := Split(atomLine);
    toks[4] + "\t" + Join(Slice(toks, 1, 4), "\t") + "\t" + Join(Slice(Split(forceLine), 2, 5), "\t")
  }

  /** The line for atom `atom` of a frame whose first atom line is
      `atoms[base]` and whose force block is `block`, or the IndexError
      raised while building it. */
  function AtomLine(atoms: seq<string>, block: seq<string>, base: int, atom: nat): Result<string>
  {
    var line :- Index(atoms, base + atom);
    var species :- Index(Split(line), 4);
    var forceLine :- Index(block, atom);
    Ok(AtomText(line, forceLine))
  }

  /** One round of the atom loop of a frame. */
  function AtomRound(atoms: seq<string>, block: seq<string>, base: int): nat -> Result<string>
  {
    (atom: nat) => AtomLine(atoms, block, base, atom)
  }

  /** What the atom loop of frame `step` writes in its first `count` rounds. */
  function AtomLines(st: Scan, step: nat, base: int, count: nat): Run<string>
    requires step < |st.forces|
  {
    Loop(AtomRound(st.atoms, st.forces[step], base), count)
  }

  /** What one round of the frame loop writes. */
  function Frame(st: Scan, step: nat): Run<string>
    requires step < |st.forces|
  {
    match st.nAtoms
    case None => Run([], Some(NameError("n_atoms")))
    case Some(n) =>
      var count := IntToString(n);
      match st.nLatticeVectors
      case None => Run([count], Some(NameError("n_lattice_vectors")))
      case Some(nlv) =>
        match LatticeRows(st.latticeVectors, step * nlv, RangeLen(nlv))
        case Err(e) => Run([count], Some(e))
        case Ok(rows) => Then([count, Comment(LatticeText(rows))], AtomLines(st, step, step * n, RangeLen(n)))
  }

  /** Round `step` of the frame loop (there is no round past the last force
      block). */
  function FrameRound(st: Scan): nat -> Run<string>
  {
    (step: nat) => if step < |st.forces| then Frame(st, step) else Run([], None)
  }

  /** The extended-XYZ file the script writes from the scanned variables:
      one frame per force block, stopping at the first exception. */
  function Extxyz(st: Scan): Run<string>
  {
    Rounds(FrameRound(st), |st.forces|)
  }

  lemma {:induction false} LatticeRowsStop(lv: seq<string>, base: int, k: nat, count: nat)
    requires k <= count && LatticeRows(lv, base, k).Err?
    ensures LatticeRows(lv, base, count) == LatticeRows(lv, base, k)
    decreases count - k
  {
    if k < count {
      LatticeRowsStop(lv, base, k, count - 1);
    }
  }

  /** The `tmp` loop of a frame: tokens 1..3 of `lattice_vector[base + vec]`
      for each `vec` in `range(count)`. */
  method CollectLatticeRows(lv: seq<string>, base: int, count: nat) returns (r: Result<seq<seq<string>>>)
    ensures r == LatticeRows(lv, base, count)
  {
    var tmp: seq<seq<string>> := [];
    for vec := 0 to count
      invariant LatticeRows(lv, base, vec) == Ok(tmp)
    {
      var v := Index(lv, base + vec);
      if v.Err? {
        LatticeRowsStop(lv, base, vec + 1, count);
        return Err(v.error);
      }
      tmp := tmp + [Slice(Split(v.value), 1, 4)];
    }
    return Ok(tmp);
  }

  /** The `ilattice` loop of a frame. */
  method JoinLatticeRows(rows: seq<seq<string>>) returns (ilattice: string)
    ensures ilattice == LatticeText(rows)
  {
    ilattice := "";
    for k := 0 to |rows|
      invariant ilattice == LatticeText(rows[..k])
    {
      assert rows[..k + 1][..k] == rows[..k];
      ilattice := ilattice + Join(rows[k], " ") + " ";
    }
    assert rows[..|rows|] == rows;
  }

  /** Round `k` of the atom loop, after `k` rounds that raised nothing. */
  lemma AtomLinesNext(st: Scan, step: nat, base: int, k: nat)
    requires step < |st.forces| && AtomLines(st, step, base, k).error.None?
    ensures var prev := AtomLines(st, step, base, k).output;
      AtomLines(st, step, base, k + 1) ==
        match AtomLine(st.atoms, st.forces[step], base, k)
        case Err(e) => Run(prev, Some(e))
        case Ok(l) => Run(prev + [l], None)
  {
    assert AtomRound(st.atoms, st.forces[step], base)(k) == AtomLine(st.atoms, st.forces[step], base, k);
  }

  /** The atom loop of frame `step`. */
  method WriteAtoms(st: Scan, step: nat, nAtoms: int) returns (r: Run<string>)
    requires step < |st.forces|
    ensures r == AtomLines(st, step, step * nAtoms, RangeLen(nAtoms))
  {
    var written: seq<string> := [];
    var idxAtoms := step * nAtoms;
    for atom := 0 to RangeLen(nAtoms)
      invariant AtomLines(st, step, idxAtoms, atom) == Run(written, None)
    {
      AtomLinesNext(st, step, idxAtoms, atom);
      var atomLine := Index(st.atoms, idxAtoms + atom);
      if atomLine.Err? {
        LoopStop(AtomRound(st.atoms, st.forces[step], idxAtoms), atom + 1, RangeLen(nAtoms));
        return Run(written, Some(atomLine.error));
      }
      var tokens := Split(atomLine.value);
      var iatom := Slice(tokens, 1, 4);
      var ispecies := Index(tokens, 4);
      if ispecies.Err? {
        LoopStop(AtomRound(st.atoms, st.forces[step], idxAtoms), atom + 1, RangeLen(nAtoms));
        return Run(written, Some(ispecies.error));
      }
      var forceLine := Index(st.forces[step], atom);
      if forceLine.Err? {
        LoopStop(AtomRound(st.atoms, st.forces[step], idxAtoms), atom + 1, RangeLen(nAtoms));
        return Run(written, Some(forceLine.error));
      }
      var iforces := Slice(Split(forceLine.value), 2, 5);
      var text := ispecies.value + "\t" + Join(iatom, "\t") + "\t" + Join(iforces, "\t");
      assert AtomLine(st.atoms, st.forces[step], idxAtoms, atom) == Ok(text);
      written := written + [text];
    }
    return Run(written, None);
  }

  /** One round of the frame loop: the count line, the comment line and the
      atom lines of frame `step`. */
  method WriteFrame(st: Scan, step: nat) returns (r: Run<string>)
    requires step < |st.forces|
    ensures r == Frame(st, step)
  {
    if st.nAtoms.None? {
      return Run([], Some(NameError("n_atoms")));
    }
    var nAtoms := st.nAtoms.value;
    var written := [IntToString(nAtoms)];
    if st.nLatticeVectors.None? {
      return Run(written, Some(NameError("n_lattice_vectors")));
    }
    var nLatticeVectors := st.nLatticeVectors.value;
    var tmp := CollectLatticeRows(st.latticeVectors, step * nLatticeVectors, RangeLen(nLatticeVectors));
    if tmp.Err? {
      return Run(written, Some(tmp.error));
    }
    var ilattice := JoinLatticeRows(tmp.value);
    written := written + [Comment(ilattice)];
    var atomLines := WriteAtoms(st, step, nAtoms);
    return Run(written + atomLines.output, atomLines.error);
  }

  /** Round `k` of the frame loop, after `k` rounds that raised nothing. */
  lemma FramesNext(st: Scan, k: nat, frame: Run<string>)
    requires k < |st.forces| && Rounds(FrameRound(st), k).error.None? && frame == Frame(st, k)
    ensures Rounds(FrameRound(st), k + 1) == Run(Rounds(FrameRound(st), k).output + frame.output, frame.error)
  {
    assert FrameRound(st)(k) == Frame(st, k);
  }

  /** The frame loop of the script. */
  method WriteExtxyz(st: Scan) returns (out: Run<string>)
    ensures out == Extxyz(st)
  {
    var written: seq<string> := [];
    var steps := |st.forces|;
    var step := 0;
    while step < steps
      invariant 0 <= step <= steps
      invariant Rounds(FrameRound(st), step) == Run(written, None)
    {
      var frame := WriteFrame(st, step);
      FramesNext(st, step, frame);
      written := written + frame.output;
      if frame.error.Some? {
        RoundsStop(FrameRound(st), step + 1, steps);
        return Run(written, frame.error);
      }
      step := step + 1;
    }
    return Run(written, None);
  }

  // ---------------------------------------------------------------------------
  // What the writer produces, stated without the loops

  /** An atom line the writer can use: it has a token at index 4 (the species). */
  predicate HasSpecies(line: string)
  {
    |Split(line)| > 4
  }

  /** The lattice loop of a frame starting at a non-negative `base` succeeds
      exactly when the lines `base .. base + count - 1` exist, and then row
      `v` is tokens 1..3 of line `base + v`. */
  lemma {:induction false} LatticeRowsMeaning(lv: seq<string>, base: nat, count: nat)
    ensures LatticeRows(lv, base, count).Ok? <==> count == 0 || base + count <= |lv|
    ensures LatticeRows(lv, base, count).Ok? ==>
      var rows := LatticeRows(lv, base, count).value;
      |rows| == count && forall v :: 0 <= v < count ==> rows[v] == Slice(Split(lv[base + v]), 1, 4)
  {
    if count > 0 {
      LatticeRowsMeaning(lv, base, count - 1);
    }
  }

  /** The line of atom `a` of a frame exists exactly when its atom line
      exists and has a species token and the frame's force block reaches `a`. */
  lemma AtomLineMeaning(atoms: seq<string>, block: seq<string>, base: nat, a: nat)
    ensures AtomLine(atoms, block, base, a).Ok? <==>
      base + a < |atoms| && HasSpecies(atoms[base + a]) && a < |block|
    ensures AtomLine(atoms, block, base, a).Ok? ==>
      AtomLine(atoms, block, base, a).value == AtomText(atoms[base + a], block[a])
  {
  }

  /** The atom loop of a frame whose first atom line is `atoms[base]` runs
      through exactly when its `count` atom lines exist and have species
      tokens and its force block has at least `count` lines; it then writes
      one line per atom. */
  lemma AtomsOfFrame(st: Scan, step: nat, base: nat, count: nat)
    requires step < |st.forces|
    ensures AtomLines(st, step, base, count).error.None? <==>
      && (count == 0 || base + count <= |st.atoms|)
      && (forall k :: base <= k < base + count ==> HasSpecies(st.atoms[k]))
      && count <= |st.forces[step]|
    ensures AtomLines(st, step, base, count).error.None? ==>
      var out := AtomLines(st, step, base, count).output;
      |out| == count &&
      forall a :: 0 <= a < count ==>
        base + a < |st.atoms| && a < |st.forces[step]| && HasSpecies(st.atoms[base + a]) &&
        out[a] == AtomText(st.atoms[base + a], st.forces[step][a])
  {
    var atoms, block := st.atoms, st.forces[step];
    var f := AtomRound(atoms, block, base);
    LoopMeaning(f, count);
    forall a | 0 <= a < count
      ensures f(a).Ok? <==> base + a < |atoms| && HasSpecies(atoms[base + a]) && a < |block|
      ensures f(a).Ok? ==> f(a).value == AtomText(atoms[base + a], block[a])
    {
      assert f(a) == AtomLine(atoms, block, base, a);
      AtomLineMeaning(atoms, block, base, a);
    }
    if Loop(f, count).error.None? && count > 0 {
      assert f(count - 1).Ok?;
      forall k | base <= k < base + count ensures HasSpecies(atoms[k]) {
        assert f(k - base).Ok?;
      }
    }
    if && (count == 0 || base + count <= |atoms|)
       && (forall k :: base <= k < base + count ==> HasSpecies(atoms[k]))
       && count <= |block| {
      forall a | 0 <= a < count ensures f(a).Ok? {
        assert HasSpecies(atoms[base + a]);
      }
    }
  }

  /** Frame `step` fits the scanned data: its lattice-vector lines and atom
      lines exist, the atom lines have species tokens, and its force block
      has a line per atom. */
  predicate FrameFits(st: Scan, step: nat, n: int, nlv: int)
    requires step < |st.forces|
  {
    && (step + 1) * nlv <= |st.latticeVectors|
    && (step + 1) * n <= |st.atoms|
    && (forall k :: step * n <= k < (step + 1) * n ==> HasSpecies(st.atoms[k]))
    && n <= |st.forces[step]|
  }

  lemma MulNonneg(a: nat, b: nat)
    ensures a * b >= 0
  {
  }

  lemma MulSign(a: nat, b: int)
    requires b <= 0
    ensures a * b <= 0
  {
  }

  /** The lattice loop of frame `step` succeeds exactly when the frame's
      `n_lattice_vectors` lines exist; row `v` is then tokens 1..3 of line
      `step * n_lattice_vectors + v`. */
  lemma LatticeOfFrame(lv: seq<string>, step: nat, nlv: int)
    ensures LatticeRows(lv, step * nlv, RangeLen(nlv)).Ok? <==> (step + 1) * nlv <= |lv|
    ensures LatticeRows(lv, step * nlv, RangeLen(nlv)).Ok? ==>
      var rows := LatticeRows(lv, step * nlv, RangeLen(nlv)).value;
      |rows| == RangeLen(nlv) &&
      forall v :: 0 <= v < RangeLen(nlv) ==>
        step * nlv + v < |lv| && rows[v] == Slice(Split(lv[step * nlv + v]), 1, 4)
  {
    assert (step + 1) * nlv == step * nlv + nlv;
    if nlv > 0 {
      LatticeRowsMeaning(lv, step * nlv, nlv);
    } else {
      MulSign(step + 1, nlv);
    }
  }

  /** The atom loop of frame `step` with `n` atoms per frame. */
  lemma AtomsOfStep(st: Scan, step: nat, n: int)
    requires step < |st.forces|
    ensures AtomLines(st, step, step * n, RangeLen(n)).error.None? <==>
      && (step + 1) * n <= |st.atoms|
      && (forall k :: step * n <= k < (step + 1) * n ==> HasSpecies(st.atoms[k]))
      && n <= |st.forces[step]|
    ensures AtomLines(st, step, step * n, RangeLen(n)).error.None? ==>
      var out := AtomLines(st, step, step * n, RangeLen(n)).output;
      |out| == RangeLen(n) &&
      forall a :: 0 <= a < RangeLen(n) ==>
        0 <= step * n + a < |st.atoms| && a < |st.forces[step]| && HasSpecies(st.atoms[step * n + a]) &&
        out[a] == AtomText(st.atoms[step * n + a], st.forces[step][a])
  {
    assert (step + 1) * n == step * n + n;
    if n > 0 {
      AtomsOfFrame(st, step, step * n, n);
    } else {
      MulSign(step + 1, n);
      MulSign(step, n);
    }
  }

  /** A frame whose count is bound: the count line, then either the error of
      the lattice loop or the comment line and the atom loop's output. */
  lemma FrameUnfold(st: Scan, step: nat, n: int, nlv: int)
    requires step < |st.forces|
    requires st.nAtoms == Some(n) && st.nLatticeVectors == Some(nlv)
    ensures var rows := LatticeRows(st.latticeVectors, step * nlv, RangeLen(nlv));
      Frame(st, step) ==
        if rows.Err? then Run([IntToString(n)], Some(rows.error))
        else Then([IntToString(n), Comment(LatticeText(rows.value))], AtomLines(st, step, step * n, RangeLen(n)))
  {
  }

  /** One frame is written completely exactly when it fits. */
  lemma FrameSucceeds(st: Scan, step: nat, n: int, nlv: int)
    requires step < |st.forces|
    requires st.nAtoms == Some(n) && st.nLatticeVectors == Some(nlv)
    ensures Frame(st, step).error.None? <==> FrameFits(st, step, n, nlv)
  {
    FrameUnfold(st, step, n, nlv);
    LatticeOfFrame(st.latticeVectors, step, nlv);
    AtomsOfStep(st, step, n);
  }

  /** A complete frame has `n_atoms + 2` lines (two when `n_atoms` is not
      positive), the first being the atom count; `FrameComment` and
      `FrameAtom` state the others. */
  lemma FrameShape(st: Scan, step: nat, n: int, nlv: int)
    requires step < |st.forces|
    requires st.nAtoms == Some(n) && st.nLatticeVectors == Some(nlv)
    requires Frame(st, step).error.None?
    ensures |Frame(st, step).output| == RangeLen(n) + 2 && Frame(st, step).output[0] == IntToString(n)
  {
    FrameUnfold(st, step, n, nlv);
    AtomsOfStep(st, step, n);
  }

  /** The first `m` frames fit the scanned data: there are `m * n_lattice_vectors`
      lattice-vector lines and `m * n_atoms` atom lines, all those atom lines
      have species tokens, and each of the `m` force blocks has `n_atoms`
      lines. With no frame at all nothing is required. */
  predicate WriteFits(st: Scan, m: nat)
    requires m <= |st.forces|
  {
    m == 0 ||
    (st.nAtoms.Some? && st.nLatticeVectors.Some? &&
     var n, nlv := st.nAtoms.value, st.nLatticeVectors.value;
     && m * nlv <= |st.latticeVectors|
     && m * n <= |st.atoms|
     && (forall k :: 0 <= k < m * n ==> HasSpecies(st.atoms[k]))
     && (forall s :: 0 <= s < m ==> n <= |st.forces[s]|))
  }

  lemma FitsStep(st: Scan, m: nat, n: int, nlv: int)
    requires 0 < m <= |st.forces|
    requires st.nAtoms == Some(n) && st.nLatticeVectors == Some(nlv)
    ensures WriteFits(st, m) <==> WriteFits(st, m - 1) && FrameFits(st, m - 1, n, nlv)
  {
    var p := m - 1;
    assert m * nlv == p * nlv + nlv;
    assert m * n == p * n + n;
    if nlv < 0 {
      MulSign(p, nlv);
    }
    if n < 0 {
      MulSign(p, n);
    }
    if p == 0 {
      assert p * n == 0 && p * nlv == 0;
    }
  }

  /** The first `m` frames are written without an exception exactly when they
      fit the scanned data. */
  lemma {:induction false} FramesSucceed(st: Scan, m: nat)
    requires m <= |st.forces|
    ensures Rounds(FrameRound(st), m).error.None? <==> WriteFits(st, m)
  {
    if m > 0 {
      FramesSucceed(st, m - 1);
      assert FrameRound(st)(m - 1) == Frame(st, m - 1);
      if st.nAtoms.Some? && st.nLatticeVectors.Some? {
        var n, nlv := st.nAtoms.value, st.nLatticeVectors.value;
        FitsStep(st, m, n, nlv);
        FrameSucceeds(st, m - 1, n, nlv);
      }
    }
  }

  /** Every frame of a file written without an exception is complete. */
  lemma FramesComplete(st: Scan, s: nat)
    requires Extxyz(st).error.None? && s < |st.forces|
    ensures Frame(st, s).error.None?
  {
    RoundsMeaning(FrameRound(st), |st.forces|);
    assert FrameRound(st)(s) == Frame(st, s);
  }

  lemma FramesAllWide(st: Scan, n: int)
    requires Extxyz(st).error.None? && st.nAtoms == Some(n) && st.nLatticeVectors.Some?
    ensures forall t :: 0 <= t < |st.forces| ==> |Outputs(FrameRound(st), |st.forces|)[t]| == RangeLen(n) + 2
  {
    var m := |st.forces|;
    forall t | 0 <= t < m ensures |Outputs(FrameRound(st), m)[t]| == RangeLen(n) + 2 {
      FramesComplete(st, t);
      FrameShape(st, t, n, st.nLatticeVectors.value);
      assert FrameRound(st)(t) == Frame(st, t);
    }
  }

  /** A file written without an exception holds `n_atoms + 2` lines per frame
      (just the two header lines when `n_atoms` is not positive). */
  lemma ExtxyzLength(st: Scan, n: int)
    requires Extxyz(st).error.None? && st.nAtoms == Some(n)
    ensures |Extxyz(st).output| == |st.forces| * (RangeLen(n) + 2)
  {
    if |st.forces| > 0 {
      FramesComplete(st, 0);
      assert st.nLatticeVectors.Some?;
      ExtxyzFrames(st, n);
      FlattenLength(Outputs(FrameRound(st), |st.forces|), RangeLen(n) + 2);
    }
  }

  /** The file is the frames' outputs, one after the other, each `n_atoms + 2`
      lines long. */
  lemma ExtxyzFrames(st: Scan, n: int)
    requires Extxyz(st).error.None? && st.nAtoms == Some(n) && st.nLatticeVectors.Some?
    ensures Extxyz(st).output == Flatten(Outputs(FrameRound(st), |st.forces|))
    ensures forall t :: 0 <= t < |st.forces| ==> |Outputs(FrameRound(st), |st.forces|)[t]| == RangeLen(n) + 2
  {
    RoundsMeaning(FrameRound(st), |st.forces|);
    FramesAllWide(st, n);
  }

  /** Line `j` of frame `s` is line `s * (n_atoms + 2) + j` of the file. */
  lemma ExtxyzLayout(st: Scan, n: int, s: nat, j: nat, line: int)
    requires Extxyz(st).error.None? && st.nAtoms == Some(n) && st.nLatticeVectors.Some?
    requires s < |st.forces| && j < RangeLen(n) + 2 && line == s * (RangeLen(n) + 2) + j
    ensures 0 <= line < |Extxyz(st).output| && j < |Frame(st, s).output| &&
      Extxyz(st).output[line] == Frame(st, s).output[j]
  {
    var w := RangeLen(n) + 2;
    ExtxyzFrames(st, n);
    var frames := Outputs(FrameRound(st), |st.forces|);
    FlattenAt(frames, w, s, j, line);
    assert frames[s] == FrameRound(st)(s).output == Frame(st, s).output;
  }

  // ---------------------------------------------------------------------------
  // Reading the written lines back

  /** Rows of whitespace-free, non-empty tokens. */
  predicate WordRows(rows: seq<seq<string>>)
  {
    forall r, k :: 0 <= r < |rows| && 0 <= k < |rows[r]| ==> IsWord(rows[r][k])
  }

  /** The lattice text splits back into the lattice rows' tokens, row after row. */
  lemma {:induction false} LatticeTextSplit(rows: seq<seq<string>>)
    requires WordRows(rows)
    ensures Split(LatticeText(rows)) == Flatten(rows)
  {
    if rows != [] {
      var init, last := rows[..|rows| - 1], rows[|rows| - 1];
      assert WordRows(init) by {
        forall r, k | 0 <= r < |init| && 0 <= k < |init[r]| ensures IsWord(init[r][k]) {
          assert init[r] == rows[r];
        }
      }
      LatticeTextSplit(init);
      LatticeRowSplit(LatticeText(init), last);
      assert LatticeText(rows) == LatticeText(init) + (Join(last, " ") + " ");
      assert Flatten(rows) == Flatten(init) + last;
    }
  }

  lemma LatticeRowSplit(text: string, row: seq<string>)
    requires text == [] || IsSpace(text[|text| - 1])
    requires forall k :: 0 <= k < |row| ==> IsWord(row[k])
    ensures Split(text + (Join(row, " ") + " ")) == Split(text) + row
  {
    SplitAppend(text, Join(row, " ") + " ");
    SplitJoinThen(row, " ", "");
    assert Join(row, " ") + " " + "" == Join(row, " ") + " ";
  }

  /** An atom line splits back into the species, the three position tokens
      and the (up to three) force tokens it was built from. */
  lemma AtomTextSplit(atomLine: string, forceLine: string)
    requires |Split(atomLine)| > 4
    ensures var toks := Split(atomLine);
      Split(AtomText(atomLine, forceLine)) == [toks[4]] + toks[1..4] + Slice(Split(forceLine), 2, 5)
  {
    var toks := Split(atomLine);
    var pos := Slice(toks, 1, 4);
    var force := Slice(Split(forceLine), 2, 5);
    assert pos == toks[1..4];
    var ws := [toks[4]] + pos;
    assert ws[1..] == pos;
    assert Join(ws, "\t") == toks[4] + "\t" + Join(pos, "\t");
    assert AtomText(atomLine, forceLine) == Join(ws, "\t") + "\t" + Join(force, "\t");
    SplitJoinThen(ws, "\t", Join(force, "\t"));
    SliceFrom(Split(forceLine), 2, 5);
    SplitJoin(force, "\t");
  }

  // ---------------------------------------------------------------------------
  // The whole script

  /** What running the script leaves behind: an exception during the scan
      stops it before the output file is opened; otherwise the file is
      created and holds what the frame loop wrote, with the exception that
      stopped the loop, if any. */
  datatype Conversion = NotWritten(error: Error) | Written(file: Run<string>)

  function ConvertLog(lines: seq<string>): Conversion
  {
    match ScanPrefix(lines, |lines|)
    case Err(e) => NotWritten(e)
    case Ok(st) => Written(Extxyz(st))
  }

  /** The script: scan the log, then write the extended-XYZ file. */
  method Convert(lines: seq<string>) returns (c: Conversion)
    ensures c == ConvertLog(lines)
  {
    var scanned := ScanLog(lines);
    if scanned.Err? {
      return NotWritten(scanned.error);
    }
    var file := WriteExtxyz(scanned.value);
    c := Written(file);
  }

  /** A log that is scanned and written without an exception yields one
      frame of `n_atoms + 2` lines per `Total atomic forces` line. */
  lemma ConvertedLength(lines: seq<string>, n: int)
    requires ConvertLog(lines).Written? && ConvertLog(lines).file.error.None?
    requires LastField(lines, AtomCountMarker, 5) == Some(n)
    ensures |ConvertLog(lines).file.output| == |Positions(lines, ForcesMarker)| * (RangeLen(n) + 2)
  {
    var st := ScanPrefix(lines, |lines|).value;
    ScannedCounts(lines);
    ExtxyzLength(st, n);
  }

  /** After a successful scan of the whole log, `n_atoms` is field 5 of the
      last atom-count line and there is one force block per forces marker. */
  lemma ScannedCounts(lines: seq<string>)
    requires ScanPrefix(lines, |lines|).Ok?
    ensures ScanPrefix(lines, |lines|).value.nAtoms == LastField(lines, AtomCountMarker, 5)
    ensures |ScanPrefix(lines, |lines|).value.forces| == |Positions(lines, ForcesMarker)|
  {
    ScanMeaning(lines, |lines|);
    assert lines[..|lines|] == lines;
  }

  /** Line `2 + a` of a complete frame is the atom text of its atom `a`,
      whose atom line is `atoms[k]`. */
  lemma FrameAtom(st: Scan, s: nat, n: int, a: nat, k: int)
    requires s < |st.forces| && st.nAtoms == Some(n) && st.nLatticeVectors.Some?
    requires Frame(st, s).error.None? && a < RangeLen(n) && k == s * n + a
    ensures 0 <= k < |st.atoms| && a < |st.forces[s]| && HasSpecies(st.atoms[k])
    ensures 2 + a < |Frame(st, s).output| && Frame(st, s).output[2 + a] == AtomText(st.atoms[k], st.forces[s][a])
  {
    MulNonneg(s, n);
    FrameUnfold(st, s, n, st.nLatticeVectors.value);
    AtomsOfStep(st, s, n);
    assert Frame(st, s).output[2 + a] == AtomText(st.atoms[s * n + a], st.forces[s][a]);
  }

  /** Line `2 + a` of frame `s` of a file written without an exception splits
      into the species and position of atom line `s * n_atoms + a` followed by
      the force tokens of line `a` of force block `s`. */
  lemma ExtxyzAtom(st: Scan, n: int, s: nat, a: nat, k: int, line: int)
    requires Extxyz(st).error.None? && st.nAtoms == Some(n) && st.nLatticeVectors.Some?
    requires s < |st.forces| && a < RangeLen(n)
    requires k == s * n + a && line == s * (RangeLen(n) + 2) + 2 + a
    ensures 0 <= k < |st.atoms| && a < |st.forces[s]| && |Split(st.atoms[k])| > 4
    ensures 0 <= line < |Extxyz(st).output| &&
      var toks := Split(st.atoms[k]);
      Split(Extxyz(st).output[line]) == [toks[4]] + toks[1..4] + Slice(Split(st.forces[s][a]), 2, 5)
  {
    FramesComplete(st, s);
    FrameAtom(st, s, n, a, k);
    ExtxyzLayout(st, n, s, 2 + a, line);
    AtomTextSplit(st.atoms[k], st.forces[s][a]);
  }

  /** The comment line of a complete frame, built from rows of tokens 1..3
      of the frame's lattice-vector lines. */
  lemma FrameComment(st: Scan, s: nat, n: int, nlv: int)
    requires s < |st.forces| && st.nAtoms == Some(n) && st.nLatticeVectors == Some(nlv)
    requires Frame(st, s).error.None?
    ensures var rows := LatticeRows(st.latticeVectors, s * nlv, RangeLen(nlv));
      && rows.Ok? && WordRows(rows.value) && |rows.value| == RangeLen(nlv)
      && (forall v :: 0 <= v < RangeLen(nlv) ==>
            0 <= s * nlv + v < |st.latticeVectors| &&
            rows.value[v] == Slice(Split(st.latticeVectors[s * nlv + v]), 1, 4))
      && 1 < |Frame(st, s).output| && Frame(st, s).output[1] == Comment(LatticeText(rows.value))
  {
    FrameUnfold(st, s, n, nlv);
    LatticeOfFrame(st.latticeVectors, s, nlv);
    var rows := LatticeRows(st.latticeVectors, s * nlv, RangeLen(nlv)).value;
    if nlv > 0 {
      MulNonneg(s, nlv);
      forall r, k | 0 <= r < |rows| && 0 <= k < |rows[r]| ensures IsWord(rows[r][k]) {
        var toks := Split(st.latticeVectors[s * nlv + r]);
        assert rows[r] == Slice(toks, 1, 4);
        SliceFrom(toks, 1, 4);
      }
    }
  }

  /** The comment line of frame `s` of a file written without an exception
      carries, between the quotes, the tokens of the frame's lattice rows
      (tokens 1..3 of its lattice-vector lines, as `FrameComment` states),
      row after row. */
  lemma ExtxyzLattice(st: Scan, n: int, nlv: int, s: nat, line: int)
    requires Extxyz(st).error.None? && st.nAtoms == Some(n) && st.nLatticeVectors == Some(nlv)
    requires s < |st.forces| && line == s * (RangeLen(n) + 2) + 1
    ensures (s + 1) * nlv <= |st.latticeVectors|
    ensures LatticeRows(st.latticeVectors, s * nlv, RangeLen(nlv)).Ok?
    ensures var rows := LatticeRows(st.latticeVectors, s * nlv, RangeLen(nlv)).value;
      && 0 <= line < |Extxyz(st).output|
      && Extxyz(st).output[line] == Comment(LatticeText(rows))
      && Split(LatticeText(rows)) == Flatten(rows)
  {
    FramesComplete(st, s);
    FrameSucceeds(st, s, n, nlv);
    FrameComment(st, s, n, nlv);
    ExtxyzLayout(st, n, s, 1, line);
    LatticeTextSplit(LatticeRows(st.latticeVectors, s * nlv, RangeLen(nlv)).value);
  }
}
