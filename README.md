# liteviz Gaussian-splat data loader, in Dafny

The project models the data side of the liteviz viewer (`liteviz/dataloader.h`):

- `GaussianData`: a splat cloud held as five column blocks, `xyz` (N x 3), `rot`
  (N x 4 quaternion), `scale` (N x 3), `opacity` (N x 1) and `sh` (N x 3C colour
  coefficients). Its methods `size()`, `sh_dim()` and `flat()` turn it into one
  row-interleaved float buffer with stride `11 + sh_dim()`.
- `GaussianData::load_ply`, which runs in this order:
  1. It rejects a name that does not end in `.ply`, then a stream that did not open.
  2. It asks the PLY reader for the fourteen fixed vertex properties.
  3. For SH degree `d` it sets `C = (d+1)^2` and requests `3(C-1)` `f_rest_*`
     properties. The file stores them channel-major; the loader requests them
     coefficient-major, which interleaves them.
  4. It builds the five blocks. Rotations are normalised row by row, scales go
     through `exp`, opacity goes through the logistic function, and colours are
     copied into `sh` as `f_dc_0..2` followed by the interleaved `f_rest` list.
- `naive_data()`: the built-in four-splat scene.
- `sort(data, P)`: the draw order. It gives each splat the key
  `P(2,0) x + P(2,1) y + P(2,2) z` and sorts the indices `0 .. N-1` by ascending key.

How the model is built:

- **Modules.** `Dense` models Eigen's `MatrixXf` as a column-major value. `Gaussian`
  covers the data structure, `flat()` and `naive_data()`. `ShLayout` holds the
  coefficient index arithmetic. `PlyNames` holds the property names.
  `PlyLoader` covers `load_ply`. `DepthSort` covers `sort`.
- **Loops.** Every loop of the source is a `method` with loop invariants, proved
  against a specification function:
  - the `push_back` loops of `flat()`;
  - the `f_rest` request loop;
  - the column fills and the per-row `normalize()`;
  - the depth fill and the index sort.
- **The PLY reader.** tinyply is outside the model. The vertex element the header
  declares is given as a table that maps property names to columns of N values.
  A request looks its name up there. The first undeclared property, in request
  order, is the error.
- **Floating point.** Floats are reals. `exp` and Eigen's `normalize()` are
  parameters (`Numerics.FloatOps`), and all the model assumes of them is what
  their types say:
  - `exp` is positive;
  - `normalize()` keeps a vector's length.
- **Errors.** `load_ply` throws; here it returns a `Result`:
  - `NotPlyFile` for a bad file name;
  - `OpenFailed` for a stream that did not open;
  - `MissingElement` for a header with no vertex element;
  - `MissingProperty` for an undeclared property.
- **Degree mismatch.** A load fails only when the file lacks a property it asks
  for. A file that declares more `f_rest_*` properties than `3(C-1)` loads
  without error, and the extra ones are ignored (`LoadVertexOutcome`: success
  exactly when every requested property is declared).
- **Malformed headers.** `dataloader.h` raises no error of its own for a
  malformed header: the result of `parse_header` is discarded. What tinyply
  does with such a header is outside the model.

## Model

| member | source | states |
|---|---|---|
| Gaussian.GaussianData.Size | liteviz/dataloader.h:20 | `size()`, the rows of xyz, is the row count of every block of valid data |
| Gaussian.GaussianData.ShDim | liteviz/dataloader.h:22 | `sh_dim()` is the number of colour columns actually stored in sh |
| Gaussian.DcFromRgb | liteviz/dataloader.h:148 | `(v - 0.5) / 0.28209` is the DC coefficient that the degree-0 colour `0.5 + 0.28209 dc` maps back to v |
| Gaussian.Flat | liteviz/dataloader.h:24-37 | the nested `push_back` loops of `flat()` produce exactly the row-interleaved buffer `Interleaved(g)` |
| Gaussian.PushRow | liteviz/dataloader.h:29-33 | one inner loop appends row i of a block, entry by entry, in column order |
| Gaussian.InterleavedLength | liteviz/dataloader.h:24-37 | `flat()` has exactly `size() * (11 + sh_dim())` entries |
| Gaussian.FlatLayout | liteviz/dataloader.h:28-34 | with stride s, position `i*s + o` holds xyz(i,o) for o<3, rot(i,o-3) for o<7, scale(i,o-7) for o<10, opacity(i,0) at 10 and sh(i,o-11) beyond |
| Gaussian.RowsAt | liteviz/dataloader.h:28-34 | after n rows the buffer holds n strides, and position `i*s + o` is entry o of record i |
| Gaussian.Unflat | liteviz/dataloader.h:24-37 | the inverse of `flat()`: cutting a buffer of n records back up gives valid blocks with n rows and the given sh_dim |
| Gaussian.UnflatInterleaved | liteviz/dataloader.h:24-37 | `flat()` loses nothing: unflattening its buffer gives back the original data |
| Gaussian.InterleavedUnflat | liteviz/dataloader.h:24-37 | every buffer of n records is the `flat()` of the data cut from it (the other direction of the round trip) |
| Gaussian.NaiveData | liteviz/dataloader.h:124-154 | `naive_data()` has four splats and degree-0 colour (sh_dim 3), identity rotations, positive scales and opacities in [0, 1] |
| Numerics.Logistic | liteviz/dataloader.h:108-109 | `1/(1+exp(-v))` lies strictly between 0 and 1 for any positive exponential |
| PlyLoader.HasPlySuffix | liteviz/dataloader.h:43 | the name test passes exactly for names of at least 4 characters that are some stem followed by `.ply` |
| PlyLoader.PlyStemPasses | liteviz/dataloader.h:43-45 | every `stem + ".ply"`, the bare `.ply` included, passes the name test |
| PlyLoader.LoadPly | liteviz/dataloader.h:39-122 | errors in the source's order: not `.ply`, then open failure, then missing vertex element; otherwise the result is the vertex load with `C = (d+1)^2 >= 1`; the degree defaults to 3 |
| PlyLoader.ReadVertex | liteviz/dataloader.h:53-121 | the fixed requests, the f_rest loop and the assembly give exactly `LoadVertex`, with the first failing request ending the load |
| PlyLoader.LoadVertex | liteviz/dataloader.h:53-121 | a successful load has valid blocks with N rows (the vertex count) and `3C` sh columns |
| PlyLoader.LoadVertexOutcome | liteviz/dataloader.h:53-80 | a load succeeds iff every requested property is declared, and otherwise fails naming the first undeclared one in request order |
| PlyLoader.LoadVertexFixedFails | liteviz/dataloader.h:57-71 | a failing fixed request fails the whole load with its own error, before any f_rest request |
| PlyLoader.LoadVertexRestFails | liteviz/dataloader.h:76-80 | once the fixed requests succeed, a failing f_rest request fails the load with its error |
| PlyLoader.LoadVertexReads | liteviz/dataloader.h:82-121 | when both request runs succeed, the load assembles the fixed columns followed by `f_rest_list`, each with N values |
| PlyLoader.Request | liteviz/dataloader.h:53-55 | `request(name)` succeeds exactly when the vertex element declares the name, then with one value per vertex, and otherwise fails with `MissingProperty(name)` |
| PlyLoader.Requests | liteviz/dataloader.h:57-80 | `load_ply` makes `14 + 3(C-1)` requests in all (their order: `FixedOrder`, `RestOrder`) |
| PlyLoader.FirstMissing | liteviz/dataloader.h:53-80 | the position of the first undeclared property: undeclared itself, and every earlier one declared |
| PlyLoader.AndThen | liteviz/dataloader.h:57-80 | two request runs in turn succeed iff both do, join their columns, and otherwise return the first failure |
| PlyLoader.AndThenAssoc | liteviz/dataloader.h:57-80 | running requests in turn is associative |
| PlyLoader.RequestedMeaning | liteviz/dataloader.h:53-80 | a request sequence succeeds iff every property is declared, then gives each property's column at its position, and otherwise fails naming the first undeclared property |
| PlyLoader.FailsAt | liteviz/dataloader.h:53-80 | a sequence whose first undeclared property is at k fails with that property's name |
| PlyLoader.SucceedsWith | liteviz/dataloader.h:53-80 | a sequence of declared properties yields exactly their columns |
| PlyLoader.RequestedConcat | liteviz/dataloader.h:57-80 | requesting a list then another is requesting their concatenation |
| PlyLoader.RunShape | liteviz/dataloader.h:84-88 | a successful run has one column per property, each with one value per vertex |
| PlyLoader.RunColumn | liteviz/dataloader.h:84-88 | column k of a successful run is the declared column of property k |
| PlyLoader.RestUpTo | liteviz/dataloader.h:76-80 | the first i loop iterations request exactly 3i f_rest properties |
| PlyLoader.RestProps | liteviz/dataloader.h:76-80 | the f_rest loop requests exactly `3(C-1)` properties |
| PlyLoader.RestUpToAt | liteviz/dataloader.h:76-80 | iteration i of the loop puts `f_rest_(i + k(C-1))` at request slot `3i + k` |
| PlyLoader.RestPropAt | liteviz/dataloader.h:76-80 | request slot `3i + k` of the f_rest list names `f_rest_(i + k(C-1))` |
| PlyLoader.RestPropsSource | liteviz/dataloader.h:76-80 | request slot j reads `f_rest_(RestSource(C, j))`, the interleave map |
| PlyLoader.RequestNext | liteviz/dataloader.h:77-79 | one `push_back(request(...))`: a failure is the failure of the whole run, otherwise the column is appended |
| PlyLoader.RequestRest | liteviz/dataloader.h:74-80 | the `f_rest_list` loop returns exactly the requests of the interleaved f_rest list, in order |
| PlyLoader.FixedOrder | liteviz/dataloader.h:57-71 | the request list is x, y, z, opacity, rot_0..3, scale_0..2, f_dc_0..2, then the 3(C-1) f_rest requests |
| PlyLoader.XyzOpacityOrder | liteviz/dataloader.h:57-60 | requests 0-2 are x, y, z and request 3 is opacity |
| PlyLoader.RotOrder | liteviz/dataloader.h:61-64 | requests 4-7 are rot_0..rot_3 |
| PlyLoader.ScaleOrder | liteviz/dataloader.h:65-67 | requests 8-10 are scale_0..scale_2 |
| PlyLoader.DcOrder | liteviz/dataloader.h:69-71 | requests 11-13 are f_dc_0..f_dc_2 |
| PlyLoader.RestOrder | liteviz/dataloader.h:76-80 | request `14 + 3i + k` asks for `f_rest_(i + k(C-1))` |
| PlyLoader.ExpAll | liteviz/dataloader.h:104-106 | the array `exp()` maps each entry to its exponential, which is positive |
| PlyLoader.LogisticAll | liteviz/dataloader.h:108-109 | the opacity transform maps each entry v to `1/(1+exp(-v))` |
| PlyLoader.NormalizeRows | liteviz/dataloader.h:101 | row i of the result is `normalize(row i)`, and the shape is kept |
| PlyLoader.NormalizeEachRow | liteviz/dataloader.h:101 | the loop `rot.row(i).normalize()` over all rows gives `NormalizeRows` |
| PlyLoader.FillColumns | liteviz/dataloader.h:117-119 | `m.col(from + j) = cols[j]` for each j sets exactly those columns and leaves the others unchanged |
| PlyLoader.FromColumns | liteviz/dataloader.h:90-99 | a freshly sized matrix filled column by column is the matrix of those columns |
| PlyLoader.LoadSh | liteviz/dataloader.h:111-119 | sh has `3C` columns: f_dc_0..2 in columns 0-2 and `f_rest_list[i]` in column `3 + i` |
| PlyLoader.ColumnsReadJoin | liteviz/dataloader.h:111-119 | the fixed columns followed by `f_rest_list` are a full read, and from position 11 on they are f_dc followed by `f_rest_list` |
| PlyLoader.Assemble | liteviz/dataloader.h:84-121 | the blocks built from the columns read have N rows and 3, 4, 3, 1 and 3C columns |
| PlyLoader.AssembleBlocks | liteviz/dataloader.h:84-121 | the column-filling code after `file.read` builds exactly `Assemble` of the columns read |
| PlyLoader.AssembleScale | liteviz/dataloader.h:103-106 | assembled scale entry (i, k) is exp of read column 8 + k at row i |
| PlyLoader.AssembleOpacity | liteviz/dataloader.h:108-109 | assembled opacity entry i is the logistic of read column 3 at row i |
| PlyLoader.AssembleRot | liteviz/dataloader.h:95-101 | assembled rot row i is the normalised quaternion from read columns 4-7 at row i |
| PlyLoader.LoadedColumn | liteviz/dataloader.h:84-121 | in a successful load, read column k is the declared column of the k-th requested property, and the result is their assembly |
| PlyLoader.LoadedXyz | liteviz/dataloader.h:90-93 | xyz(i, k) is vertex i's x, y or z value |
| PlyLoader.LoadedRotColumn | liteviz/dataloader.h:95-99 | read column 4 + k is rot_k |
| PlyLoader.LoadedRot | liteviz/dataloader.h:95-101 | row i of rot is `normalize(rot_0, rot_1, rot_2, rot_3)` of vertex i |
| PlyLoader.LoadedScale | liteviz/dataloader.h:103-106 | scale(i, k) is `exp(scale_k)` of vertex i |
| PlyLoader.LoadedOpacity | liteviz/dataloader.h:108-109 | opacity(i) is `1/(1+exp(-opacity))` of vertex i |
| PlyLoader.LoadedDc | liteviz/dataloader.h:111-114 | sh columns 0-2 hold f_dc_0..2 verbatim |
| PlyLoader.LoadedRestCoefficient | liteviz/dataloader.h:111-119 | sh column `3 + 3b + k` holds `f_rest_(b + k(C-1))` verbatim: channel-major in the file, coefficient-major in sh |
| PlyLoader.LoadedFRest | liteviz/dataloader.h:116-119 | every `f_rest_n` with n below `3(C-1)` lands in exactly sh column `3 + RestSlot(C, n)` |
| PlyLoader.AssembleDecoded | liteviz/dataloader.h:103-109 | whatever the file holds, the assembled scales are positive and the opacities lie in [0, 1] |
| PlyLoader.LoadDecoded | liteviz/dataloader.h:103-109 | every successful load has positive scales and opacities in [0, 1] |
| ShLayout.ShCoeffs | liteviz/dataloader.h:73 | `sh_coeffs = (d+1)^2` is 0 exactly for degree -1 and at least 1 for every other degree |
| ShLayout.RestCount | liteviz/dataloader.h:116 | `num_extra = 3(C-1)` is exactly the room after the three f_dc columns in the `3C` columns of sh (`3 + num_extra == 3C`) |
| ShLayout.SourceAtSlot | liteviz/dataloader.h:76-80 | slot `3i + k` is within the list and reads file index `i + k(C-1)` |
| ShLayout.FileIndexSplit | liteviz/dataloader.h:76-80 | a file index below `3(C-1)` is coefficient `n mod (C-1)` of channel `n div (C-1)` |
| ShLayout.SlotOfSource | liteviz/dataloader.h:76-80 | every request slot reads a file index in range, and the inverse map gives the slot back |
| ShLayout.SourceOfSlot | liteviz/dataloader.h:76-80 | every file index in range is read at the slot the inverse map gives |
| ShLayout.SlotOf | liteviz/dataloader.h:116-119 | the band coefficient and channel of a file index, whose slot is the inverse map's |
| ShLayout.RestInterleaveBijective | liteviz/dataloader.h:76-80 | the interleave `3i+k -> i+k(C-1)` is a bijection of `[0, 3(C-1))`: different slots read different properties, and every property is read |
| PlyNames.DecimalString | liteviz/dataloader.h:77-79 | `std::to_string` of an index is a nonempty run of decimal digits with no leading zero |
| PlyNames.DecimalRoundTrip | liteviz/dataloader.h:77-79 | reading back the decimal rendering of n gives n |
| PlyNames.DecimalInjective | liteviz/dataloader.h:77-79 | different indices get different renderings |
| PlyNames.NameInjective | liteviz/dataloader.h:57-79 | distinct properties have distinct names, so no two requests ask for the same property |
| DepthSort.Depths | liteviz/dataloader.h:162-165 | one key per splat: `P(2,0) x + P(2,1) y + P(2,2) z` of its centre |
| DepthSort.Iota | liteviz/dataloader.h:160-166 | the initial `depth_index` holds `k` at position k |
| DepthSort.IotaCount | liteviz/dataloader.h:160-166 | each of `0..n-1` occurs once in the initial index list, and nothing else occurs |
| DepthSort.MinKeyIndex | liteviz/dataloader.h:174-177 | the position of a smallest key in the unsorted suffix under the comparator `depths[i] < depths[j]` |
| DepthSort.SelectStep | liteviz/dataloader.h:174-177 | swapping that minimum into place extends the sorted prefix |
| DepthSort.Swap | liteviz/dataloader.h:174-177 | exchanging two entries keeps the multiset |
| DepthSort.SortByKey | liteviz/dataloader.h:174-177 | the in-place sort leaves the indices in non-decreasing key order and is a permutation of its input |
| DepthSort.Sort | liteviz/dataloader.h:157-179 | `sort` returns N indices, a permutation of `0..N-1`, in non-decreasing depth order |
| DepthSort.PermutationOfRange | liteviz/dataloader.h:174-178 | a list with the multiset of `0..n-1` has length n, holds only indices below n, holds every one of them and never repeats one |
| DepthSort.DepthsIgnoreTranslation | liteviz/dataloader.h:162-165 | the keys depend only on row 2, columns 0-2 of P, so changing the translation column or any other row leaves every key unchanged |

## Left out

- Floating point: floats are reals, so rounding, overflow to infinity and NaN are not modelled. Eigen's `normalize()` and `exp` are parameters, so the unit norm of a normalised quaternion is not stated. The positivity of `Numerics.Exp` is a property of the real exponential, not of `expf`.
- PlyLoader.LoadDecoded: "positive scales" holds over the reals only. In float, `expf` underflows to exactly 0 for a raw scale below about -103.9, and such a scale loads as 0. The same holds for `PlyLoader.AssembleDecoded` and `PlyLoader.ExpAll`.
- Numerics.Logistic: the strict `0 < o < 1` holds over the reals only. In float the logistic saturates to exactly 0 or 1 for raw opacities of large magnitude.
- PLY parsing: header parsing, binary reading, property types other than float, and the `reinterpret_cast` of the read buffer belong to tinyply and are not part of this model. Their result is the given vertex table.
- The discarded result of `parse_header`: `dataloader.h` raises no error of its own for a malformed header. Whether tinyply throws on one is outside the model; here the header's outcome is the given vertex table, or its absence.
- N: `N = x->count` is the table's count, and every column is taken to have that length. The case where a buffer is shorter than N is not modelled.
- LoadPly: requires a degree other than -1. With -1, sh gets zero columns and the code then writes column 0, which is out of range.
- Integer width: `(d+1)^2` and the `size_t`/`int` conversions are unbounded integers here, so an overflow for huge degrees or counts is not modelled.
- Freshly sized Eigen matrices are uninitialised. The model starts them at zero, which is safe because every entry is overwritten before it is read.
- `tbb::parallel_sort` becomes a sequential selection sort with the same comparator. Parallelism is not modelled. The sort's promise is the same: a sorted permutation, with ties in any order.
- The file stream: only whether it opened is modelled, as a parameter. File contents reach the model only through the vertex table.
- `naive_data()`: its colour matrix is given through `Gaussian.DcFromRgb`, `(v - 0.5) / 0.28209`, computed over the reals.
- The viewer, viewport, renderer, timer utilities and command-line entry point are window, GL and I/O code and are not part of this model.
