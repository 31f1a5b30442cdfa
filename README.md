# Mesh configuration and kernel launch geometry of mumax3, in Dafny

This project models two parts of the mumax3 micromagnetic simulator.

**The mesh configuration state machine of the engine package (engine/mesh.go).**
The package keeps one global mesh, `globalmesh_`. It also keeps a lazy
accumulator: `lazy_gridsize`, `lazy_cellsize` and `lazy_pbc`. `SetMesh`
does the following:

- checks the nine values in a fixed order: grid size, then cell size, then
  repetition counts;
- logs a warning for every axis whose cell count is not 7-smooth;
- on first use, allocates the magnetization buffer M and the regions buffer;
- on a later call, frees the convolution kernels and the CUDA buffer pool;
- rebuilds the mesh-sized buffers only when the size or the cell size
  changed.

The lazy setters `SetGridSize`, `SetCellSize` and `SetPBC` each record their
piece. They commit through `SetMesh` once both the grid size and the cell size
are known. `Mesh()` guards access through `checkMesh`.

The model has two layers:

- `MeshSpec` describes every operation as a function on a value `State` and
  proves the properties there.
- `Engine.MeshRegistry` is a class. Its fields are the four package
  variables plus `env`, which holds the state of the collaborators that
  `SetMesh` touches:
  - the busy flag;
  - M, regions, the geometry mask and the thermal noise buffer;
  - the demag and MFM kernels;
  - the buffer pool;
  - the extra terms of B_ext and J.

Each method of the class performs its operation step by step, in the order
of the source. It is proved to leave exactly the state the corresponding
`MeshSpec` function describes. A device resource is either `Nil` or a
`Buf(id, size)`. Identities come from a counter, so a resource that was
reallocated compares unequal to the one it replaced.

**Kernel launch geometry of the cuda package (cuda/util.go).** These are
`divUp`, `make1DConf`, `make3DConf`, `iMin` and the tuning variables
`BlockSize`, `TileX`, `TileY` and `MaxGridSize`. The tuning variables are
mutable package variables, so every function takes them as a `Tuning` value,
and `Default` holds their initial values. Go's integer division truncates
toward zero; it is modelled as `GoDiv`. With it, `divUp(0, y)` is 1 for
y ≥ 2 and 0 for y = 1.

The launch geometry is sometimes described as never exceeding MaxGridSize on
either grid axis. For every N ≥ 1 the code guarantees this for Grid.Y, but for
Grid.X exactly while at most MaxGridSize² blocks are needed. The model follows the
code: `Launch.Make1DBounds` proves the guarantee, and
`Launch.Make1DGridXCanExceedMax` shows a 65536-wide grid with the default
tuning.

The files:

- `types.dfy`: shared value types.
- `launch.dfy`: cuda/util.go.
- `smooth.dfy`: the 7-smoothness test and its number theory.
- `mesh_spec.dfy`: the mesh state machine as values.
- `engine.dfy`: the stateful class.

## Model

| member | source | states |
|---|---|---|
| Launch.Default | cuda/util.go:6-10 | the initial launch constants: BlockSize 512, TileX and TileY 32, MaxGridSize 65535 |
| Launch.GoDiv | cuda/util.go:49-51 | Go's truncating division: `a == q*b + r` with `|r| < |b|` and `r` of the sign of `a` |
| Launch.DivUp | cuda/util.go:48-51 | for x, y ≥ 1 the result is at least 1, `r*y ≥ x` and `(r-1)*y < x` |
| Launch.DivUpIsCeiling | cuda/util.go:48-51 | for x, y ≥ 1, divUp(x, y) is the one q with `(q-1)*y < x ≤ q*y`, both directions |
| Launch.DivUpOfZero | cuda/util.go:49-51 | with Go's division, divUp(0, y) is 1 for y ≥ 2 and 0 for y = 1 |
| Launch.IMin | cuda/util.go:40-46 | the result is ≤ both arguments and equal to one of them |
| Launch.Make1DDefined | cuda/util.go:21-23 | no ensures; the condition under which the column count divided by at line 23 is non-zero. Its exact extent is proved by Make1DUndefinedExactly |
| Launch.Make1DConf | cuda/util.go:18-27 | no ensures; its properties are proved by Make1DShape, Make1DEmpty, Make1DCovers, Make1DBounds and Make1DGridXCanExceedMax |
| Launch.Make3DConf | cuda/util.go:30-38 | no ensures; its properties are proved by Make3DShape and Make3DCoversMinimally |
| Launch.Make1DShape | cuda/util.go:18-27 | the 1D block is (BlockSize, 1, 1) and Grid.Z is 1 |
| Launch.Make1DEmpty | cuda/util.go:18-27 | N = 0 is launched as one block when BlockSize and MaxGridSize are at least 2 |
| Launch.Make1DUndefinedExactly | cuda/util.go:18-27 | make1DConf divides by zero exactly when 2 − 2·MaxGridSize ≤ divUp(N, BlockSize) ≤ 1 − MaxGridSize, and then N ≤ 0 |
| Launch.Make1DUndefinedExamples | cuda/util.go:18-27 | the division by zero happens for N = −1 with BlockSize 1 and MaxGridSize 2, and for N = −65535·512 + 1 with the default tuning |
| Launch.Make1DCovers | cuda/util.go:21-24 | for N ≥ 1, Grid.X and Grid.Y are positive, `Grid.X*Grid.Y*BlockSize ≥ N`, `nx*ny ≥ divUp(N, BlockSize)` and `nx*(ny-1) < divUp(N, BlockSize)` |
| Launch.Make1DBounds | cuda/util.go:21-24 | for N ≥ 1: Grid.Y ≤ MaxGridSize; Grid.X ≤ MaxGridSize exactly when divUp(N, BlockSize) ≤ MaxGridSize²; Grid = (1, divUp(N, BlockSize)) when N ≤ BlockSize*MaxGridSize |
| Launch.Make1DGridXCanExceedMax | cuda/util.go:21-24 | with the default tuning, N = 512*(65535²+1) gives Grid = (65536, 65535, 1) |
| Launch.Make3DShape | cuda/util.go:30-38 | the 3D block is (TileX, TileY, 1) and Grid.Z is N[Z] |
| Launch.Make3DCoversMinimally | cuda/util.go:33-35 | for N[X], N[Y] ≥ 1 the tiles cover both axes and one tile fewer would not |
| Smoothness.Smooth7 | engine/mesh.go:91-98 | no ensures; the 7-smoothness test, characterised by Smooth7Exact |
| Smoothness.Smooth7Exact | engine/mesh.go:91-98 | the 7-smoothness test holds exactly when no prime factor is greater than 7 |
| MeshSpec.NewPartialMeshParams | engine/mesh.go:49-55 | no ensures; the nine values with no mesh. WrappedParamsUseGlobalMesh proves what follows from that |
| MeshSpec.SetMeshDefault | engine/mesh.go:57-65 | no ensures; the target mesh unless it is the zero value, else the global mesh. WrappedParamsUseGlobalMesh uses it |
| MeshSpec.NewMesh | engine/mesh.go:105-122 | no ensures; the mesh built from the nine values, as the data.NewMesh calls at lines 107 and 122 build it. SetMeshRecords proves that a successful SetMesh stores it |
| MeshSpec.Advisories | engine/mesh.go:91-98 | no ensures; the axes warned about. AdvisoriesFlagLargePrimes and AdvisoryExamples prove which axes these are |
| MeshSpec.SetMeshSpec | engine/mesh.go:72-142 | no ensures; the state and outcome of SetMesh. The SetMesh* lemmas below prove its properties |
| MeshSpec.SetGridSizeSpec | engine/mesh.go:155-165 | no ensures; the state and outcome of SetGridSize. SetGridSizeRecords and SetGridSizePreservesWellFormed prove its properties |
| MeshSpec.SetCellSizeSpec | engine/mesh.go:167-177 | no ensures; the state and outcome of SetCellSize. SetCellSizeRecords and SetCellSizePreservesWellFormed prove its properties |
| MeshSpec.SetPBCSpec | engine/mesh.go:179-189 | no ensures; the state and outcome of SetPBC. SetPBCRecords and SetPBCPreservesWellFormed prove its properties |
| MeshSpec.Initial | engine/mesh.go:12-153 | no ensures; the package state at start: the zero global mesh (line 12), nothing recorded and pbc (0,0,0) (lines 149-153), no buffers. InitialState proves its properties |
| MeshSpec.LazyParams | engine/mesh.go:158-186 | no ensures; the MeshParams literal each lazy setter builds (lines 158-162, 170-174, 182-186), with no explicit mesh. LazyFromStart, LazyPairCommits and LazyPairIsSetMesh use it |
| MeshSpec.Enter | engine/mesh.go:73-74 | no ensures; SetBusy(true): the flag goes up and true joins the busy history. SetMeshReleasesBusy proves its effect |
| MeshSpec.Leave | engine/mesh.go:73-74 | no ensures; the deferred SetBusy(false): the flag goes down and false joins the busy history. SetMeshReleasesBusy proves its effect |
| MeshSpec.AllocateFirst | engine/mesh.go:105-109 | no ensures; stores the mesh and allocates M and regions at its size. SetMeshFirstTime proves its effect |
| MeshSpec.Resize | engine/mesh.go:110-137 | no ensures; frees kernels and pool and stores the mesh, and rebuilds M, regions and geometry, removes the extra terms and drops the noise only when the size or cell size changed. SetMeshResizeAlwaysFrees, SetMeshResizeOnlyOnChange and SetMeshPbcOnly prove its effect |
| MeshSpec.Configure | engine/mesh.go:88-141 | no ensures; what SetMesh does after the checks: log the advisories, take the first-time or the resizing path, record the lazy pieces. SetMeshRecords and SetMeshPreservesWellFormed prove its effect |
| MeshSpec.CheckParams | engine/mesh.go:84-86 | the three checks pass exactly when the sizes are positive, the cell sizes are positive and the counts are non-negative |
| MeshSpec.Arg | engine/mesh.go:27-31 | passes exactly when the test holds, else fails with "<msg>: illegal argument" |
| MeshSpec.SetMeshValidation | engine/mesh.go:84-86 | the outcome is the GridSize, then CellSize, then PBC error, else success; on failure only the busy flag was toggled |
| MeshSpec.SetMeshReleasesBusy | engine/mesh.go:73-74 | every SetMesh raises the busy flag once and lowers it once, and it ends lowered |
| MeshSpec.SetMeshRecords | engine/mesh.go:88-141 | a successful SetMesh stores the nine values as the mesh and as the lazy pieces and logs Advisories of the size |
| MeshSpec.SetMeshFirstTime | engine/mesh.go:105-109 | with an unset mesh: the whole new state, with M and regions newly allocated at the new size and nothing freed |
| MeshSpec.SetMeshResizeAlwaysFrees | engine/mesh.go:110-122 | with a set mesh: both kernels are nil, the pool is empty and the new mesh is stored, even with identical values |
| MeshSpec.SetMeshResizeOnlyOnChange | engine/mesh.go:101-137 | from a well-formed state with a set mesh: M and regions change exactly when the size or cell size changed; then geometry is new and extra terms and noise are gone, else they are untouched |
| MeshSpec.SetMeshPbcOnly | engine/mesh.go:101-137 | with the same size and cell size: the whole new state, with only the pbc, lazy pieces, kernels, pool, advisory log and busy history changed |
| MeshSpec.SetMeshTwiceKeepsBuffers | engine/mesh.go:72-142 | with no explicit mesh (as every shown caller passes), a second SetMesh with the same values keeps every mesh-sized buffer of the first |
| MeshSpec.SetMeshIgnoresLazyPieces | engine/mesh.go:72-142 | SetMesh does not read the recorded grid size, cell size or repetition counts: success overwrites them, failure keeps them |
| MeshSpec.SetMeshPreservesWellFormed | engine/mesh.go:72-142 | SetMesh keeps the invariant: busy down, a set mesh valid with M and regions at its size |
| MeshSpec.InitialState | engine/mesh.go:12-153 | globalmesh_ starts as the zero mesh (line 12) and the lazy pieces start unrecorded (lines 148-153): at start nothing is recorded, lazy_pbc is (0,0,0), the mesh is unset and the state is well formed |
| MeshSpec.SetGridSizeRecords | engine/mesh.go:155-165 | SetGridSize records the size and runs SetMesh exactly when a cell size is recorded; otherwise nothing else changes |
| MeshSpec.SetCellSizeRecords | engine/mesh.go:167-177 | SetCellSize records the cell size and runs SetMesh exactly when a grid size is recorded; otherwise nothing else changes |
| MeshSpec.SetPBCRecords | engine/mesh.go:179-189 | SetPBC records the counts and runs SetMesh exactly when both pieces are recorded; otherwise nothing else changes |
| MeshSpec.LazyPairCommits | engine/mesh.go:155-177 | from any state, SetGridSize then SetCellSize, in either order, has the outcome of one SetMesh with those values and the recorded pbc; on success it ends in that SetMesh's mesh and lazy pieces, on failure both pieces are recorded, and the pbc is kept |
| MeshSpec.LazyPairIsSetMesh | engine/mesh.go:155-177 | from a state with neither piece recorded, SetGridSize then SetCellSize, in either order, ends in exactly the state and outcome of one SetMesh with those values and the recorded pbc, except that on failure both pieces stay recorded |
| MeshSpec.LazyFromStart | engine/mesh.go:148-177 | from start, the two lazy setters set the mesh with pbc (0,0,0) and allocate M and regions |
| MeshSpec.PbcBeforeSizes | engine/mesh.go:179-189 | counts given to SetPBC first end up in the mesh once both sizes are set |
| MeshSpec.SetGridSizePreservesWellFormed | engine/mesh.go:155-165 | SetGridSize keeps the invariant |
| MeshSpec.SetCellSizePreservesWellFormed | engine/mesh.go:167-177 | SetCellSize keeps the invariant |
| MeshSpec.SetPBCPreservesWellFormed | engine/mesh.go:179-189 | SetPBC keeps the invariant |
| MeshSpec.WrappedParamsUseGlobalMesh | engine/mesh.go:49-71 | the wrapper's parameters carry the nine values and no mesh, so SetMeshDefault picks the global mesh |
| MeshSpec.AdvisoriesFlagLargePrimes | engine/mesh.go:88-99 | an axis is warned about exactly when its cell count has a prime factor above 7, in x, y, z order |
| MeshSpec.AdvisoryExamples | engine/mesh.go:88-99 | (4,4,4) draws no warning and (13,4,4) draws one for x |
| Engine.MeshRegistry.constructor | engine/mesh.go:148-153 | the package state at start is MeshSpec.Initial and is well formed |
| Engine.MeshRegistry.SetBusy | engine/mesh.go:73-74 | sets the busy flag to the given value and appends it to the busy history; nothing else changes |
| Engine.MeshRegistry.Current | engine/mesh.go:22-25 | fails with "need to set mesh first" exactly when the mesh size is (0,0,0), else returns the mesh |
| Engine.MeshRegistry.CheckMesh | engine/mesh.go:191-196 | fails with "need to set mesh first" exactly when the mesh size is (0,0,0) |
| Engine.MeshRegistry.Validate | engine/mesh.go:84-86 | the three arg checks in order give CheckParams |
| Engine.MeshRegistry.LogAdvisories | engine/mesh.go:88-99 | appends exactly Advisories of the size to the log and changes nothing else |
| Engine.MeshRegistry.NewBuffer | engine/mesh.go:108-109 | returns a fresh buffer of the given size with the next id and advances the id counter; nothing else changes |
| Engine.MeshRegistry.AllocateFirstBuffers | engine/mesh.go:108-109 | M and regions become fresh buffers at the mesh size; nothing else changes |
| Engine.MeshRegistry.ResizeBuffers | engine/mesh.go:124-136 | M, regions and geometry become fresh buffers at the mesh size, the extra terms are removed and the noise buffer is released; nothing else changes |
| Engine.MeshRegistry.SetMesh | engine/mesh.go:72-142 | the new state and outcome are SetMeshSpec of the old state; the invariant is kept |
| Engine.MeshRegistry.ApplyParams | engine/mesh.go:88-141 | after the checks, the new state is Configure of the old state |
| Engine.MeshRegistry.PlaceFirst | engine/mesh.go:105-109 | stores the mesh and allocates M and regions as AllocateFirst describes |
| Engine.MeshRegistry.PlaceResized | engine/mesh.go:110-137 | frees kernels and pool, stores the mesh, and resizes as Resize describes |
| Engine.MeshRegistry.SetMeshWrapped | engine/mesh.go:67-71 | equals SetMeshSpec on NewPartialMeshParams of the nine values |
| Engine.MeshRegistry.SetGridSize | engine/mesh.go:155-165 | the new state and outcome are SetGridSizeSpec of the old state; the invariant is kept |
| Engine.MeshRegistry.SetCellSize | engine/mesh.go:167-177 | the new state and outcome are SetCellSizeSpec of the old state; the invariant is kept |
| Engine.MeshRegistry.SetPBC | engine/mesh.go:179-189 | the new state and outcome are SetPBCSpec of the old state; the invariant is kept |

## Left out

- Launch.Make1DConf: the inputs where Go panics with a division by zero are excluded by its requirement, not returned as an error. Those are exactly the inputs with 2 − 2·MaxGridSize ≤ divUp(N, BlockSize) ≤ 1 − MaxGridSize, and all of them have N ≤ 0 (`Launch.Make1DUndefinedExactly`).
- Launch.Tuning.Valid: BlockSize, TileX, TileY and MaxGridSize are assumed to be at least 1. Go's divUp panics when one of them is zero, and the source does not restrict these package variables.
- Collaborator internals are modelled only by their effect on a resource: `M.alloc`/`resize`, `regions.alloc`/`resize`, `geometry.setGeom`, `RemoveExtraTerms`, `Free`, `cuda.FreeBuffers` and `data.NewMesh`. Their code lies outside this model.
- `primeFactors` is not part of this model. The warning is modelled as 7-smoothness, which assumes that a cell count of 1 draws no warning.
- Log output is left out: the text of the warnings, `util.Log`, and `LogOut("resizing...")`.
- Cell sizes are modelled as reals. NaN, negative zero and the float64 comparison details are left out.
- `printf` (a float64 to float32 conversion) is left out.
- `init` and the `DeclFunc` script registrations are left out.
- The concurrency meaning of `SetBusy` is left out; busy is a plain flag.
- Go's 64-bit integer overflow is left out; integers are unbounded.
- Mesh() returns a pointer to the global mesh. The model returns its value, so aliasing through that pointer is not captured.
- The `Unit` field of data.Mesh is not modelled.
- The panic of arg and checkMesh is modelled as a returned failure. Unwinding through callers is not modelled.
- gui/script.js and gpu/uploader.go are not part of this model. They are browser code and a blocking channel and CUDA-stream worker.
