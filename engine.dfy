/**
 * The package state of engine/mesh.go and the operations that change it, step
 * by step as the source does. Each operation is proved to leave exactly the
 * state that MeshSpec describes; the properties of those states are proved
 * there.
 */
module Engine {
  import opened Types
  import opened Smoothness
  import opened MeshSpec

  /**
   * The state of the collaborators as SetMesh sees it: the busy flag and the
   * history of SetBusy calls, the logged advisories, the magnetization buffer
   * M, the regions buffer, the geometry mask, the thermal noise buffer, the
   * demag and MFM convolution kernels, the number of buffers held by the CUDA
   * buffer pool, the extra terms of B_ext and J, and the identity the next
   * allocated buffer receives.
   */
  datatype Env = Env(
    busy: bool, busyLog: seq<bool>, advisories: seq<Axis>,
    m: Buffer, regions: Buffer, geometry: Buffer, noise: Buffer,
    conv: Buffer, mfmConv: Buffer,
    pooled: nat, bExtTerms: nat, jTerms: nat, nextId: nat)

  class MeshRegistry {
    // globalmesh_, lazy_gridsize, lazy_cellsize and lazy_pbc
    var mesh: Mesh
    var lazyGridSize: Option<Int3>
    var lazyCellSize: Option<Real3>
    var lazyPbc: Int3
    // everything outside this file that SetMesh reads or changes
    var env: Env

    /** The whole state as a value. */
    ghost function State(): State
      reads this
    {
      MeshSpec.State(mesh, lazyGridSize, lazyCellSize, lazyPbc,
                     env.busy, env.busyLog, env.advisories,
                     env.m, env.regions, env.geometry, env.noise, env.conv, env.mfmConv,
                     env.pooled, env.bExtTerms, env.jTerms, env.nextId)
    }

    ghost predicate Valid()
      reads this
    {
      WellFormed(State())
    }

    /** The package state at program start. */
    constructor ()
      ensures State() == Initial()
      ensures Valid()
    {
      mesh := ZeroMesh;
      lazyGridSize, lazyCellSize, lazyPbc := None, None, ZeroSize;
      env := Env(false, [], [], Nil, Nil, Nil, Nil, Nil, Nil, 0, 0, 0, 0);
    }

    /** Mesh(): the global mesh, or the panic of checkMesh when it is unset. */
    method Current() returns (r: Result<Mesh>)
      ensures r.Err? <==> mesh.size == Int3(0, 0, 0)
      ensures r.Err? ==> r.message == "need to set mesh first"
      ensures r.Ok? ==> r.value == mesh
    {
      var check := CheckMesh();
      if check.Fail? {
        return Err(check.message);
      }
      r := Ok(mesh);
    }

    /** checkMesh: panics when the mesh size is (0,0,0). */
    method CheckMesh() returns (o: Outcome)
      ensures o.Fail? <==> mesh.size == Int3(0, 0, 0)
      ensures o.Fail? ==> o.message == "need to set mesh first"
    {
      if mesh.size == Int3(0, 0, 0) {
        return Fail("need to set mesh first");
      }
      o := Pass;
    }

    method SetBusy(b: bool)
      modifies this`env
      ensures env == old(env).(busy := b, busyLog := old(env.busyLog) + [b])
    {
      env := env.(busy := b, busyLog := env.busyLog + [b]);
    }

    /** A device allocation: a buffer of the given size with a new identity. */
    method NewBuffer(size: Int3) returns (b: Buffer)
      modifies this`env
      ensures b == Buf(old(env.nextId), size)
      ensures env == old(env).(nextId := old(env.nextId) + 1)
    {
      b := Buf(env.nextId, size);
      env := env.(nextId := env.nextId + 1);
    }

    /** Log the "not 7-smooth" warning for each axis that needs one. */
    method LogAdvisories(n: Int3)
      requires ValidSize(n)
      modifies this`env
      ensures env == old(env).(advisories := old(env.advisories) + Advisories(n))
    {
      if !Smooth7(n.x) {
        env := env.(advisories := env.advisories + [AxisX]);
      }
      if !Smooth7(n.y) {
        env := env.(advisories := env.advisories + [AxisY]);
      }
      if !Smooth7(n.z) {
        env := env.(advisories := env.advisories + [AxisZ]);
      }
    }

    /** SetMesh: validate, then set up or reconfigure the mesh and what depends on it. */
    method SetMesh(prm: MeshParams) returns (o: Outcome)
      requires Valid()
      modifies this
      ensures State() == SetMeshSpec(old(State()), prm).state
      ensures o == SetMeshSpec(old(State()), prm).outcome
      ensures Valid()
    {
      SetMeshPreservesWellFormed(State(), prm);
      ghost var entered := Enter(State());
      SetBusy(true);
      assert State() == entered;
      var target := SetMeshDefault(prm.mesh, mesh);
      o := Validate(prm);
      if o.Fail? {
        SetBusy(false);
        return;
      }
      ApplyParams(prm, target);
      assert State() == Configure(entered, prm);
      SetBusy(false);
    }

    /** The three arg checks of SetMesh; the first that fails is the panic. */
    method Validate(prm: MeshParams) returns (o: Outcome)
      ensures o == CheckParams(prm)
    {
      o := Arg("GridSize", prm.nx > 0 && prm.ny > 0 && prm.nz > 0);
      if o.Fail? {
        return;
      }
      o := Arg("CellSize", prm.cellSizeX > 0.0 && prm.cellSizeY > 0.0 && prm.cellSizeZ > 0.0);
      if o.Fail? {
        return;
      }
      o := Arg("PBC", prm.pbcx >= 0 && prm.pbcy >= 0 && prm.pbcz >= 0);
    }

    /** The body of SetMesh after the checks: target is the mesh SetMeshDefault chose. */
    method ApplyParams(prm: MeshParams, target: Mesh)
      requires ValidParams(prm) && target == SetMeshDefault(prm.mesh, mesh)
      modifies this
      ensures State() == Configure(old(State()), prm)
    {
      LogAdvisories(prm.Size());

      var sizeChanged := mesh.size != prm.Size();
      var cellSizeChanged := mesh.cellSize != prm.CellSize();

      if target.size == Int3(0, 0, 0) {
        // first time the mesh is set
        PlaceFirst(NewMesh(prm));
      } else {
        PlaceResized(NewMesh(prm), sizeChanged || cellSizeChanged);
      }
      lazyGridSize := Some(prm.Size());
      lazyCellSize := Some(prm.CellSize());
      lazyPbc := prm.Pbc();
    }

    /** The first-time path: store the mesh, then allocate M and regions. */
    method PlaceFirst(target: Mesh)
      modifies this`mesh, this`env
      ensures State() == AllocateFirst(old(State()), target)
    {
      mesh := target;
      AllocateFirstBuffers();
    }

    /**
     * The resizing path: free everything that caches the old mesh, so that it is
     * recomputed, store the new mesh and, if it changed, resize what has its size.
     */
    method PlaceResized(target: Mesh, changed: bool)
      modifies this`mesh, this`env
      ensures State() == Resize(old(State()), target, changed)
    {
      env := env.(conv := Nil, mfmConv := Nil, pooled := 0);
      mesh := target;
      if changed {
        ResizeBuffers();
      }
    }

    /** M.alloc() and regions.alloc() at the size of the mesh just stored. */
    method AllocateFirstBuffers()
      modifies this`env
      ensures env == old(env).(m := Buf(old(env.nextId), mesh.size),
                               regions := Buf(old(env.nextId) + 1, mesh.size),
                               nextId := old(env.nextId) + 2)
    {
      var m := NewBuffer(mesh.size);
      var regions := NewBuffer(mesh.size);
      env := env.(m := m, regions := regions);
    }

    /**
     * M.resize(), regions.resize(), a new geometry buffer, RemoveExtraTerms on
     * B_ext and J, and the noise buffer of B_therm released.
     */
    method ResizeBuffers()
      modifies this`env
      ensures env == old(env).(m := Buf(old(env.nextId), mesh.size),
                               regions := Buf(old(env.nextId) + 1, mesh.size),
                               geometry := Buf(old(env.nextId) + 2, mesh.size),
                               bExtTerms := 0, jTerms := 0, noise := Nil,
                               nextId := old(env.nextId) + 3)
    {
      var m := NewBuffer(mesh.size);
      var regions := NewBuffer(mesh.size);
      var geometry := NewBuffer(mesh.size);
      env := env.(m := m, regions := regions, geometry := geometry,
                  bExtTerms := 0, jTerms := 0, noise := Nil);
    }

    /** SetMeshWrapped: SetMesh with the nine values and no explicit mesh. */
    method SetMeshWrapped(nx: int, ny: int, nz: int,
                          cellSizeX: real, cellSizeY: real, cellSizeZ: real,
                          pbcx: int, pbcy: int, pbcz: int) returns (o: Outcome)
      requires Valid()
      modifies this
      ensures var prm := NewPartialMeshParams(nx, ny, nz, cellSizeX, cellSizeY, cellSizeZ, pbcx, pbcy, pbcz);
        State() == SetMeshSpec(old(State()), prm).state && o == SetMeshSpec(old(State()), prm).outcome
      ensures Valid()
    {
      var prm := NewPartialMeshParams(nx, ny, nz, cellSizeX, cellSizeY, cellSizeZ, pbcx, pbcy, pbcz);
      o := SetMesh(prm);
    }

    /** SetGridSize: record the grid size and commit once the cell size is known. */
    method SetGridSize(nx: int, ny: int, nz: int) returns (o: Outcome)
      requires Valid()
      modifies this
      ensures State() == SetGridSizeSpec(old(State()), Int3(nx, ny, nz)).state
      ensures o == SetGridSizeSpec(old(State()), Int3(nx, ny, nz)).outcome
      ensures Valid()
    {
      lazyGridSize := Some(Int3(nx, ny, nz));
      if lazyCellSize.Some? {
        var c := lazyCellSize.value;
        var prm := MeshParams(nx, ny, nz, c.x, c.y, c.z, lazyPbc.x, lazyPbc.y, lazyPbc.z, ZeroMesh);
        o := SetMesh(prm);
      } else {
        o := Pass;
      }
    }

    /** SetCellSize: record the cell size and commit once the grid size is known. */
    method SetCellSize(cx: real, cy: real, cz: real) returns (o: Outcome)
      requires Valid()
      modifies this
      ensures State() == SetCellSizeSpec(old(State()), Real3(cx, cy, cz)).state
      ensures o == SetCellSizeSpec(old(State()), Real3(cx, cy, cz)).outcome
      ensures Valid()
    {
      lazyCellSize := Some(Real3(cx, cy, cz));
      if lazyGridSize.Some? {
        var n := lazyGridSize.value;
        var prm := MeshParams(n.x, n.y, n.z, cx, cy, cz, lazyPbc.x, lazyPbc.y, lazyPbc.z, ZeroMesh);
        o := SetMesh(prm);
      } else {
        o := Pass;
      }
    }

    /** SetPBC: record the repetition counts and commit once both sizes are known. */
    method SetPBC(pbcx: int, pbcy: int, pbcz: int) returns (o: Outcome)
      requires Valid()
      modifies this
      ensures State() == SetPBCSpec(old(State()), Int3(pbcx, pbcy, pbcz)).state
      ensures o == SetPBCSpec(old(State()), Int3(pbcx, pbcy, pbcz)).outcome
      ensures Valid()
    {
      lazyPbc := Int3(pbcx, pbcy, pbcz);
      if lazyGridSize.Some? && lazyCellSize.Some? {
        var n, c := lazyGridSize.value, lazyCellSize.value;
        var prm := MeshParams(n.x, n.y, n.z, c.x, c.y, c.z, pbcx, pbcy, pbcz, ZeroMesh);
        o := SetMesh(prm);
      } else {
        o := Pass;
      }
    }
  }
}
