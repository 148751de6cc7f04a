# Simulation-log converters, modelled in Dafny

Two small scripts read the text log of an FHI-aims run (`aims.out`) and turn the
numbers they find into training data. This project models and proves the core
of both.

- `fhi_vis_geometry_history.py` converts the history of a geometry optimisation
  into an extended-XYZ trajectory. First, one pass over the log lines collects
  five things:
  - the atom count;
  - the lattice-vector count;
  - every `lattice_vector` line;
  - every `  atom  ` line;
  - one block of force lines per `Total atomic forces` marker.

  Then it writes one frame per force block. Each frame has a count line, a
  `Lattice="..."  pbc="T T T"` comment, and one tab-separated line per atom
  giving its species, position and force. This is modelled in
  `geometry_history.dfy` (module `GeometryHistory`).
- `tctk_convert_polarizabilities_aims2train.py` first selects folders, either
  by name prefix or from a list file, and optionally samples them at random. In
  each selected folder it scans `aims.out` for a 3x3 polarizability block.
  Folders without one are skipped. For each block it finds, it appends a record
  holding the tensor flattened row by row and, optionally, a placeholder
  dipole. This is modelled in `polarizabilities.dfy` (module
  `Polarizabilities`).

`py_builtins.dfy` (module `PyBuiltins`) holds the parts of the Python runtime
the scripts depend on:
- `str.split()`, with the full `str.isspace` set;
- the `in` test on strings;
- list slicing with negative and clamped bounds, and negative indexing;
- `int()` and `str()` on integers;
- `os.path.join` and `os.path.dirname`;
- the exceptions the scripts can raise.

Both scripts are modelled in their own imperative form. Each loop is a method
that is proved equal to a fold over a prefix of its input, and lemmas then give
that fold a meaning stated without the loop. Script output is a `Run`: the lines
or records written so far, together with the uncaught exception that stopped the
script, if there was one.

## Model

| member | source | states |
|---|---|---|
| `GeometryHistory.ScanLog` | fhi_vis_geometry_history.py:16-28 | The scan loop, with its five independent `if` tests, computes `ScanPrefix` over the whole log. The first exception ends the scan. |
| `GeometryHistory.ScanMeaning` | fhi_vis_geometry_history.py:18-28 | The scan succeeds exactly when every count line has an integer at its field and every forces marker has a `Number of atoms` line at or before it. On success it yields four things. The counts come from the last matching lines. The `lattice_vector` and `  atom  ` lines are kept in file order. There is one force block per marker, and it is `lines[m+1 : m+1+n_atoms]`, clamped as slicing clamps. |
| `GeometryHistory.Positions` | fhi_vis_geometry_history.py:27-28 | The marker positions are the indices of exactly the lines that contain the marker, in ascending order. |
| `GeometryHistory.ForcesBeforeAtomCount` | fhi_vis_geometry_history.py:20-28 | A forces marker with no `Number of atoms` line at or before it stops the script with a NameError on `n_atoms`. |
| `GeometryHistory.CountBound` | fhi_vis_geometry_history.py:19-20 | After a well-formed prefix, `n_atoms` is bound exactly when some line of that prefix contains `Number of atoms`. |
| `GeometryHistory.CollectLatticeRows` | fhi_vis_geometry_history.py:43-45 | The lattice loop computes `LatticeRows`, which is the tokens 1..3 of each of the frame's lattice-vector lines, or an IndexError. |
| `GeometryHistory.LatticeRowsMeaning` | fhi_vis_geometry_history.py:44-45 | The lattice loop succeeds exactly when lines `base .. base+count-1` exist. Row `v` is then tokens 1..3 of line `base + v`. |
| `GeometryHistory.LatticeOfFrame` | fhi_vis_geometry_history.py:42-45 | For frame `step`, the lattice loop succeeds exactly when `(step+1)*n_lattice_vectors` lattice-vector lines exist. It then reads lines `step*nlv .. step*nlv+nlv-1`. |
| `GeometryHistory.JoinLatticeRows` | fhi_vis_geometry_history.py:47-50 | The `ilattice += ...` loop builds `LatticeText`: each row joined by single spaces, followed by one space. |
| `GeometryHistory.LatticeTextSplit` | fhi_vis_geometry_history.py:47-53 | Reading the lattice text back with `split()` gives the rows' tokens, row after row. |
| `GeometryHistory.WriteAtoms` | fhi_vis_geometry_history.py:56-62 | The atom loop writes `AtomLines`, stopping at the first IndexError. |
| `GeometryHistory.AtomsOfFrame` | fhi_vis_geometry_history.py:57-62 | The atom loop succeeds exactly when three things hold. The atom lines `base .. base+count-1` exist. Each of them has a species token. The force block has a line per atom. Line `a` is then the atom text of atom line `base + a` and force line `a`. |
| `GeometryHistory.AtomsOfStep` | fhi_vis_geometry_history.py:56-62 | The atoms of frame `step` are read from atom lines `step*n_atoms + a`. The loop succeeds exactly when those lines exist and have species tokens, and the force block has `n_atoms` lines. |
| `GeometryHistory.AtomTextSplit` | fhi_vis_geometry_history.py:59-62 | An atom line read back with `split()` gives the species (token 4), then tokens 1..3 of the atom line, then tokens 2..4 of the force line. |
| `GeometryHistory.WriteFrame` | fhi_vis_geometry_history.py:39-62 | One round of the frame loop writes `Frame`. That is the count line, the comment, and the atom lines, or the output up to a NameError or IndexError. |
| `GeometryHistory.FrameSucceeds` | fhi_vis_geometry_history.py:39-62 | A frame is written without an exception exactly when its lattice-vector lines, its atom lines with species, and its full force block are present. |
| `GeometryHistory.FrameShape` | fhi_vis_geometry_history.py:39-62 | A complete frame has `n_atoms + 2` lines, or two when `n_atoms` is not positive. Line 0 is `str(n_atoms)`. |
| `GeometryHistory.FrameComment` | fhi_vis_geometry_history.py:42-53 | The comment of a complete frame is `Comment(LatticeText(rows))`. Its rows are tokens 1..3 of lattice-vector lines `s*nlv + v`, and all of them are whitespace-free tokens. |
| `GeometryHistory.FrameAtom` | fhi_vis_geometry_history.py:56-62 | Line `2 + a` of a complete frame is built from atom line `s*n_atoms + a`, which has a species token, and from force line `a` of the frame's block. |
| `GeometryHistory.WriteExtxyz` | fhi_vis_geometry_history.py:31-63 | The `while step < steps` loop writes `Extxyz`: the frames one after another, up to the first exception. |
| `GeometryHistory.FramesSucceed` | fhi_vis_geometry_history.py:38-63 | All frames are written exactly when they fit the data. There are enough lattice-vector and atom lines, all atom lines have species, and every force block has `n_atoms` lines. With no frame, nothing is required. |
| `GeometryHistory.FramesComplete` | fhi_vis_geometry_history.py:38-63 | Every frame of a file written without an exception is complete. |
| `GeometryHistory.ExtxyzFrames` | fhi_vis_geometry_history.py:38-63 | A file written without an exception is the frames concatenated in step order, each `max(n_atoms, 0) + 2` lines long. |
| `GeometryHistory.ExtxyzLength` | fhi_vis_geometry_history.py:32-63 | A file written without an exception has `steps * (max(n_atoms, 0) + 2)` lines. |
| `GeometryHistory.ExtxyzLayout` | fhi_vis_geometry_history.py:32-63 | In a file written without an exception, line `j` of frame `s` is line `s*(max(n_atoms, 0)+2) + j` of the file. |
| `GeometryHistory.ExtxyzAtom` | fhi_vis_geometry_history.py:56-62 | Line `s*(max(n_atoms, 0)+2) + 2 + a` of the file splits into the species and position tokens of atom line `s*n_atoms + a`, followed by the force tokens of force line `a` of block `s`. |
| `GeometryHistory.ExtxyzLattice` | fhi_vis_geometry_history.py:42-53 | Line `s*(max(n_atoms, 0)+2) + 1` of the file is `Lattice="<text>"  pbc="T T T"`. The text splits back into the tokens of frame `s`'s lattice rows. |
| `GeometryHistory.Convert` | fhi_vis_geometry_history.py:16-63 | The script either stops during the scan, in which case no file is written, or writes `Extxyz` of the scanned variables. |
| `GeometryHistory.ConvertedLength` | fhi_vis_geometry_history.py:27-39 | A log converted without an exception yields `(number of forces markers) * (max(n_atoms, 0) + 2)` lines, where `n_atoms` is read from the last `Number of atoms` line. |
| `PyBuiltins.LoopMeaning` | fhi_vis_geometry_history.py:56-62 | A loop whose rounds each write one line or raise runs through exactly when no round raises. It then writes one line per round, in round order. |
| `PyBuiltins.RoundsMeaning` | fhi_vis_geometry_history.py:38-63 | A loop whose rounds each write some lines or raise runs through exactly when no round raises. It then writes the rounds' lines one round after another. |
| `PyBuiltins.Split` | fhi_vis_geometry_history.py:20 | Every token `str.split()` returns is non-empty and free of whitespace. |
| `PyBuiltins.SplitJoin` | fhi_vis_geometry_history.py:49 | Joining tokens with a whitespace separator and splitting the result gives the tokens back. |
| `PyBuiltins.SplitAppend` | fhi_vis_geometry_history.py:49-50 | Splitting text that ends in whitespace, followed by more text, gives the split of the first part followed by the split of the rest. |
| `PyBuiltins.ContainsAt` | fhi_vis_geometry_history.py:19 | `pat in s` holds exactly when `pat` occurs at some offset of `s`. |
| `PyBuiltins.SliceFrom` | fhi_vis_geometry_history.py:28 | A slice `s[lo:hi]` with `0 <= lo <= hi` has `min(hi, len(s)) - lo` elements (0 when `lo` is past the end), and element `j` is `s[lo + j]`. |
| `PyBuiltins.ParseIntToString` | fhi_vis_geometry_history.py:39 | The count line `str(n_atoms)` parses back with `int()` to `n_atoms`. |
| `PyBuiltins.FlattenAt` | tctk_convert_polarizabilities_aims2train.py:90 | Rows of equal width `w` flatten row by row. Element `i*w + j` of the result is `rows[i][j]`. |
| `PyBuiltins.DirnameOfJoin` | tctk_convert_polarizabilities_aims2train.py:55 | `os.path.dirname(os.path.join(d, b))` is `d` when `d` is non-empty, does not end in `/`, and `b` holds no `/`. |
| `Polarizabilities.ApplyHit` | tctk_convert_polarizabilities_aims2train.py:78-80 | A marker hit fails in one of three ways. Calling `append` on an array raises AttributeError. A missing next line raises IndexError. A ragged or non-numeric block raises ValueError. Otherwise the hit gives the array of the next three lines' first three tokens. |
| `Polarizabilities.ScanFile` | tctk_convert_polarizabilities_aims2train.py:72-88 | The per-file loop, which makes both marker tests on every line, computes `FileTensor`. |
| `Polarizabilities.FirstMarker` | tctk_convert_polarizabilities_aims2train.py:77-82 | Returns the first line that contains either marker, or None exactly when no line does. |
| `Polarizabilities.ScanMeaning` | tctk_convert_polarizabilities_aims2train.py:72-88 | The scan's outcome is fixed by the markers. With no marker, there is no tensor. Otherwise the first marker's block decides: IndexError if it runs past the end, ValueError if it is not rectangular and numeric. AttributeError if a second marker follows. Otherwise the tensor is found. |
| `Polarizabilities.NoMarkerNoTensor` | tctk_convert_polarizabilities_aims2train.py:72-88 | A file yields no tensor, and is skipped, exactly when none of its lines contains either marker. |
| `Polarizabilities.FoundTensor` | tctk_convert_polarizabilities_aims2train.py:77-85 | A found tensor comes from the only marker line `i`. It has three rows, and row `r` is the first three tokens of line `i+1+r`, rectangular and numeric. |
| `Polarizabilities.MarkerAtEnd` | tctk_convert_polarizabilities_aims2train.py:79 | A first marker in one of the last three lines is an IndexError. |
| `Polarizabilities.SecondMarker` | tctk_convert_polarizabilities_aims2train.py:80-85 | After a successful first hit, any later marker raises AttributeError, including the second marker on the same line. |
| `Polarizabilities.MakeRecord` | tctk_convert_polarizabilities_aims2train.py:89-92 | A record names the file it was read from. For rows of one width `w`, its polarizability has `rows * w` values and value `i*w + j` is `tensor[i][j]` (a 3x3 tensor gives 9 values, value `3r + c` being `tensor[r][c]`). Its dipole is `[1.0, 2.0, 3.0]` exactly when the fake dipole is on, and absent otherwise. |
| `Polarizabilities.FoundRecord` | tctk_convert_polarizabilities_aims2train.py:77-90 | The record of a found tensor holds `3 * width` values, row by row. |
| `Polarizabilities.PrefixFoldersMeaning` | tctk_convert_polarizabilities_aims2train.py:59 | The selected folders are exactly the directory entries whose names start with the prefix. There are no more of them than there are entries. |
| `Polarizabilities.ListedFoldersAt` | tctk_convert_polarizabilities_aims2train.py:55 | Entry `k` of the folder list is `os.path.dirname` of line `k` of the list file. |
| `Polarizabilities.ListedPath` | tctk_convert_polarizabilities_aims2train.py:55-70 | A list line `<folder>/<name>` selects `<folder>`, so the file read is `<folder>/<inputfile>`. |
| `Polarizabilities.Subdirs` | tctk_convert_polarizabilities_aims2train.py:47-59 | With a list file, folder `k` is `os.path.dirname` of line `k` and there is one folder per line. Without one, the folders are exactly the directory entries whose names start with the prefix, and there are no more of them than entries. |
| `Polarizabilities.SampleIndices` | tctk_convert_polarizabilities_aims2train.py:62-64 | The sample is every index in order when `samples <= 0`. Otherwise it is `samples` distinct indices below the folder count. It is a ValueError exactly when `samples` exceeds the count. |
| `Polarizabilities.FullSample` | tctk_convert_polarizabilities_aims2train.py:62-66 | With no sample, or with a sample of all folders, every folder is visited exactly once. |
| `Polarizabilities.PermutationCovers` | tctk_convert_polarizabilities_aims2train.py:64 | A permutation of `0 .. n-1` contains each of those numbers. |
| `Polarizabilities.WriteRecords` | tctk_convert_polarizabilities_aims2train.py:69-94 | The folder loop computes `RecordsUpTo`. It skips missing files and files without a tensor, stops at a failed scan, and otherwise appends a record. |
| `Polarizabilities.RecordsMeaning` | tctk_convert_polarizabilities_aims2train.py:69-94 | The loop writes the records of the rounds before the first exception, in order, and stops with that exception. |
| `Polarizabilities.RecordOrigin` | tctk_convert_polarizabilities_aims2train.py:69-94 | Every written record comes from a round of the loop that wrote it. |
| `Polarizabilities.AllRecords` | tctk_convert_polarizabilities_aims2train.py:69-94 | When no scan fails, the loop ends without an exception and writes one record per visited folder whose file exists and holds a tensor. |
| `Polarizabilities.WroteMeaning` | tctk_convert_polarizabilities_aims2train.py:69-92 | A record written for a folder names the file `join(folder, inputfile)`, which exists and whose scan found a tensor. The record carries that tensor flattened, and the fake dipole when it is on. |
| `Polarizabilities.ExtractPolarizabilities` | tctk_convert_polarizabilities_aims2train.py:47-94 | The script selects the folders, samples the indices, and runs the folder loop, computing `ExtractRecords`. |
| `Polarizabilities.ExtractMeaning` | tctk_convert_polarizabilities_aims2train.py:59-94 | A sample larger than the number of folders raises ValueError before any record is written. With no sample, the output is the records of folders `0 .. n-1`, visited in order, up to the first exception, and that exception. With a sample of `k`, it is the same over the first `k` entries of the permutation. |

## Left out

- File and directory I/O is not modelled. The log is a sequence of lines; the
  folders are a list of entries; the readable files are a map from path to
  lines; the output is a sequence of lines or records. Written lines are
  modelled without their trailing newline. Opening a path that names a
  directory, and a missing list file, are not modelled.
- Argument parsing is not modelled; the options are parameters. The parsing of
  `--samples` with `int()` is also left out, and the sample size is an integer
  parameter. The records go to `outputfile`, which is always `train.xyz`,
  rather than to the `-o` value. Since writing is not modelled, this does not
  show in the model.
- The `print` calls are left out, including the final summary lines.
- ASE `read` and `write` are not modelled, because ASE is a foreign library. A
  record names the path its geometry would be read from. An ASE parse failure
  is not modelled.
- Floating-point values are not modelled. Tensor entries stay as their token
  strings, and whether `float()` accepts a token is a parameter, `numeric`. The
  fake dipole is the literal `[1.0, 2.0, 3.0]`.
- The randomness of `np.random.choice(n, k, replace=False)` is not modelled. Its
  legacy implementation takes the first `k` entries of a random permutation,
  and that permutation is a parameter.
- `int()` is modelled on ASCII digits, with an optional sign and single
  underscores between digits. Other Unicode decimal digits are not modelled.
- The order of `os.listdir` is whatever order the entries parameter gives.
- When the scan of the geometry script raises, no output file is opened. When
  the polarizability script raises, the records already appended stay in the
  file. Records that a previous run left in `train.xyz` are not modelled.
