/**
 * GaussianData::load_ply: check the file name, request every vertex property
 * the splat layout needs from the PLY reader, and assemble the five column
 * blocks, applying the decoding transforms on the way.
 *
 * The PLY reader is outside the model. What it parsed from the header and read
 * from the body is given as the vertex element's property columns; requesting
 * a property looks its name up there, and a property missing from the header
 * fails the request.
 */
module PlyLoader {

  import opened Outcomes
  import opened Dense
  import opened Numerics
  import opened PlyNames
  import opened ShLayout
  import opened Gaussian

  /** Why a load fails. */
  datatype LoadError =
    | NotPlyFile(file: string)        // the name does not end in ".ply"
    | OpenFailed(file: string)        // the stream could not be opened
    | MissingElement(element: string) // the header declares no such element
    | MissingProperty(property: string) // the vertex element declares no such property

  /** The vertex element as the reader delivers it: a count and one float column per declared property. */
  datatype VertexElement = VertexElement(count: nat, properties: map<string, seq<real>>)

  /** Every property column holds one value per vertex. */
  type VertexTable = t: VertexElement | forall name :: name in t.properties ==> |t.properties[name]| == t.count
    witness VertexElement(0, map[])

  /** The file-name test: at least four characters, the last four exactly ".ply". */
  function HasPlySuffix(fname: string): (b: bool)
    ensures b <==> |fname| >= 4 && fname == fname[..|fname| - 4] + ".ply"
  {
    if |fname| < 4 then false
    else
      assert fname == fname[..|fname| - 4] + fname[|fname| - 4..];
      fname[|fname| - 4..] == ".ply"
  }

  /** Every stem followed by ".ply" passes, the bare ".ply" included. */
  lemma PlyStemPasses()
    ensures forall stem :: HasPlySuffix(stem + ".ply")
  {
    forall stem
      ensures HasPlySuffix(stem + ".ply")
    {
      assert (stem + ".ply")[|stem|..] == ".ply";
    }
  }

  /** Every property of the list is declared by the vertex element. */
  ghost predicate AllDeclared(t: VertexTable, ps: seq<Prop>) {
    forall j :: 0 <= j < |ps| ==> Name(ps[j]) in t.properties
  }

  /** The column of a declared property. */
  function Col(t: VertexTable, p: Prop): (c: seq<real>)
    requires Name(p) in t.properties
    ensures |c| == t.count
  {
    t.properties[Name(p)]
  }

  /** The position of the first undeclared property of the list. */
  function FirstMissing(t: VertexTable, ps: seq<Prop>): (k: nat)
    requires !AllDeclared(t, ps)
    ensures k < |ps| && Name(ps[k]) !in t.properties
    ensures forall j :: 0 <= j < k ==> Name(ps[j]) in t.properties
    decreases |ps|
  {
    assert ps == [ps[0]] + ps[1..];
    if Name(ps[0]) !in t.properties then 0 else 1 + FirstMissing(t, ps[1..])
  }

  /** request(name): the property's column, or the reader's error for an undeclared property. */
  function Request(t: VertexTable, p: Prop): (r: Result<seq<real>, LoadError>)
    ensures r.Success? <==> Name(p) in t.properties
    ensures r.Success? ==> |r.value| == t.count
    ensures r.Failure? ==> r.error == MissingProperty(Name(p))
  {
    if Name(p) in t.properties then Success(t.properties[Name(p)]) else Failure(MissingProperty(Name(p)))
  }

  /** One request as a run of one column. */
  function AsRun(r: Result<seq<real>, LoadError>): Result<seq<seq<real>>, LoadError> {
    match r
    case Failure(e) => Failure(e)
    case Success(c) => Success([c])
  }

  /** Two request runs one after the other: the first failure wins, otherwise the columns are joined. */
  function AndThen(first: Result<seq<seq<real>>, LoadError>, second: Result<seq<seq<real>>, LoadError>): (r: Result<seq<seq<real>>, LoadError>)
    ensures r.Success? <==> first.Success? && second.Success?
    ensures r.Success? ==> r.value == first.value + second.value
    ensures first.Failure? ==> r == first
    ensures first.Success? && second.Failure? ==> r == second
  {
    match first
    case Failure(e) => Failure(e)
    case Success(a) =>
      match second
      case Failure(e) => Failure(e)
      case Success(b) => Success(a + b)
  }

  /**
   * The requests of a list, made one after another: the first failing request
   * ends the sequence, otherwise the columns come back in request order.
   */
  function Requested(t: VertexTable, ps: seq<Prop>): Result<seq<seq<real>>, LoadError>
    decreases |ps|
  {
    if ps == [] then Success([])
    else AndThen(AsRun(Request(t, ps[0])), Requested(t, ps[1..]))
  }

  /**
   * A request sequence succeeds exactly when every property is declared, and
   * then yields each property's column at its position; otherwise it fails
   * naming the first undeclared property.
   */
  lemma {:induction false} RequestedMeaning(t: VertexTable, ps: seq<Prop>)
    ensures Requested(t, ps).Success? <==> AllDeclared(t, ps)
    ensures Requested(t, ps).Success? ==>
              |Requested(t, ps).value| == |ps| &&
              forall k :: 0 <= k < |ps| ==> Requested(t, ps).value[k] == Col(t, ps[k])
    ensures Requested(t, ps).Failure? ==>
              Requested(t, ps).error == MissingProperty(Name(ps[FirstMissing(t, ps)]))
    decreases |ps|
  {
    if ps != [] {
      RequestedMeaning(t, ps[1..]);
      if AllDeclared(t, ps) {
        assert AllDeclared(t, ps[1..]) by {
          forall j | 0 <= j < |ps| - 1 ensures Name(ps[1..][j]) in t.properties {
            assert ps[1..][j] == ps[j + 1];
          }
        }
      } else if Name(ps[0]) in t.properties {
        assert !AllDeclared(t, ps[1..]) by {
          var k := FirstMissing(t, ps);
          assert k > 0 && ps[1..][k - 1] == ps[k];
        }
      }
    }
  }

  /** The sequence fails at k when everything before k is declared and ps[k] is not. */
  lemma FailsAt(t: VertexTable, ps: seq<Prop>, k: nat)
    requires k < |ps| && Name(ps[k]) !in t.properties
    requires forall j :: 0 <= j < k ==> Name(ps[j]) in t.properties
    ensures Requested(t, ps) == Failure(MissingProperty(Name(ps[k])))
  {
    RequestedMeaning(t, ps);
    var m := FirstMissing(t, ps);
    assert m == k;
  }

  /** The sequence succeeds with exactly the given columns when they are the columns of ps. */
  lemma SucceedsWith(t: VertexTable, ps: seq<Prop>, cols: seq<seq<real>>)
    requires |cols| == |ps|
    requires forall j :: 0 <= j < |ps| ==> Name(ps[j]) in t.properties && cols[j] == Col(t, ps[j])
    ensures Requested(t, ps) == Success(cols)
  {
    RequestedMeaning(t, ps);
    assert AllDeclared(t, ps);
    var r := Requested(t, ps).value;
    assert r == cols by {
      assert |r| == |cols|;
      forall k | 0 <= k < |ps| ensures r[k] == cols[k] { }
    }
  }

  /** AndThen is associative. */
  lemma AndThenAssoc(a: Result<seq<seq<real>>, LoadError>, b: Result<seq<seq<real>>, LoadError>, c: Result<seq<seq<real>>, LoadError>)
    ensures AndThen(AndThen(a, b), c) == AndThen(a, AndThen(b, c))
  {
    if a.Success? && b.Success? && c.Success? {
      assert a.value + b.value + c.value == a.value + (b.value + c.value);
    }
  }

  /** Requesting A then B is requesting A + B. */
  lemma {:induction false} RequestedConcat(t: VertexTable, a: seq<Prop>, b: seq<Prop>)
    ensures Requested(t, a + b) == AndThen(Requested(t, a), Requested(t, b))
    decreases |a|
  {
    if a == [] {
      assert a + b == b;
      assert AndThen(Success([]), Requested(t, b)) == Requested(t, b) by {
        if Requested(t, b).Success? { assert [] + Requested(t, b).value == Requested(t, b).value; }
      }
    } else {
      assert (a + b)[0] == a[0];
      assert (a + b)[1..] == a[1..] + b;
      RequestedConcat(t, a[1..], b);
      AndThenAssoc(AsRun(Request(t, a[0])), Requested(t, a[1..]), Requested(t, b));
    }
  }

  /** The properties requested before the f_rest loop, in the order the loader asks for them. */
  const FixedProps: seq<Prop> :=
    [X, Y, Z, Opacity, Rot(0), Rot(1), Rot(2), Rot(3), Scale(0), Scale(1), Scale(2), FDc(0), FDc(1), FDc(2)]

  /**
   * The f_rest properties the first i iterations of the request loop ask for:
   * for each band coefficient i' < i, its channel 0, 1 and 2 file indices
   * i', i' + (C - 1), i' + 2(C - 1).
   */
  function RestUpTo(c: nat, i: nat): (ps: seq<Prop>)
    requires c >= 1 && i <= c - 1
    ensures |ps| == 3 * i
  {
    if i == 0 then []
    else RestUpTo(c, i - 1) + [FRest(i - 1), FRest(i - 1 + (c - 1)), FRest(i - 1 + 2 * (c - 1))]
  }

  /** The f_rest properties in request order: all C - 1 iterations of the loop. */
  function RestProps(c: nat): (ps: seq<Prop>)
    requires c >= 1
    ensures |ps| == RestCount(c)
  {
    RestUpTo(c, c - 1)
  }

  /** Iteration i' of the loop puts f_rest_(i' + k(C - 1)) at slot 3i' + k. */
  lemma {:induction false} RestUpToAt(c: nat, n: nat, i: nat, k: nat)
    requires c >= 1 && i < n <= c - 1 && k < 3
    ensures Slot(i, k) < |RestUpTo(c, n)| && RestUpTo(c, n)[Slot(i, k)] == FRest(FileIndex(c, i, k))
  {
    if i < n - 1 {
      RestUpToAt(c, n - 1, i, k);
    }
  }

  /** Every request of load_ply, in order. */
  function Requests(c: nat): (ps: seq<Prop>)
    requires c >= 1
    ensures |ps| == 14 + RestCount(c)
  {
    FixedProps + RestProps(c)
  }

  /** Where slot (i, k) of the request order points: f_rest_(i + k(C - 1)). */
  lemma RestPropAt(c: nat, i: nat, k: nat)
    requires c >= 1 && i < c - 1 && k < 3
    ensures Slot(i, k) < RestCount(c) && RestProps(c)[Slot(i, k)] == FRest(FileIndex(c, i, k))
  {
    RestUpToAt(c, c - 1, i, k);
  }

  /** Request position j reads f_rest_(RestSource(C, j)). */
  lemma RestPropsSource(c: nat, j: nat)
    requires c >= 1 && j < RestCount(c)
    ensures RestProps(c)[j] == FRest(RestSource(c, j))
  {
    assert j == Slot(j / 3, j % 3);
    RestPropAt(c, j / 3, j % 3);
  }

  /**
   * One request of a run over ps, the next one being ps[|done|]: on failure the
   * whole run fails with it, otherwise its column is appended.
   */
  method RequestNext(t: VertexTable, ghost ps: seq<Prop>, done: seq<seq<real>>, p: Prop)
    returns (r: Result<seq<seq<real>>, LoadError>)
    requires |done| < |ps| && ps[|done|] == p
    requires forall j :: 0 <= j < |done| ==> Name(ps[j]) in t.properties && done[j] == Col(t, ps[j])
    ensures r.Failure? ==> r == Requested(t, ps)
    ensures r.Success? ==> |r.value| == |done| + 1
    ensures r.Success? ==> forall j :: 0 <= j < |r.value| ==> Name(ps[j]) in t.properties && r.value[j] == Col(t, ps[j])
  {
    var col := Request(t, p);
    if col.Failure? {
      FailsAt(t, ps, |done|);
      return Failure(col.error);
    }
    return Success(done + [col.value]);
  }

  /**
   * The f_rest request loop: three requests per band coefficient, appended to
   * f_rest_list in the order channel 0, 1, 2.
   */
  method RequestRest(t: VertexTable, c: nat) returns (r: Result<seq<seq<real>>, LoadError>)
    requires c >= 1
    ensures r == Requested(t, RestProps(c))
  {
    ghost var ps := RestProps(c);
    var restList: seq<seq<real>> := [];
    var i := 0;
    while i < c - 1
      invariant i <= c - 1
      invariant |restList| == 3 * i
      invariant forall j :: 0 <= j < |restList| ==> Name(ps[j]) in t.properties && restList[j] == Col(t, ps[j])
    {
      RestPropAt(c, i, 0);
      restList :- RequestNext(t, ps, restList, FRest(i));
      RestPropAt(c, i, 1);
      restList :- RequestNext(t, ps, restList, FRest(i + (c - 1)));
      RestPropAt(c, i, 2);
      restList :- RequestNext(t, ps, restList, FRest(i + 2 * (c - 1)));
      i := i + 1;
    }
    SucceedsWith(t, ps, restList);
    return Success(restList);
  }

  /** Eigen's array exp() on a column. */
  function ExpAll(exp: Exp, v: seq<real>): (r: seq<real>)
    ensures |r| == |v| && forall i :: 0 <= i < |v| ==> r[i] == exp(v[i]) && r[i] > 0.0
  {
    seq(|v|, i requires 0 <= i < |v| => exp(v[i]))
  }

  /** 1 / (1 + exp(-v)) on a column. */
  function LogisticAll(exp: Exp, v: seq<real>): (r: seq<real>)
    ensures |r| == |v| && forall i :: 0 <= i < |v| ==> r[i] == Logistic(exp, v[i])
  {
    seq(|v|, i requires 0 <= i < |v| => Logistic(exp, v[i]))
  }

  /** The matrix with every row normalised. */
  function NormalizeRows(m: Matrix, normalize: Normalizer): (r: Matrix)
    requires m.Valid()
    ensures r.Valid() && r.rows == m.rows && r.cols == m.cols
    ensures forall i, j :: 0 <= i < m.rows && 0 <= j < m.cols ==> r.At(i, j) == normalize(m.Row(i))[j]
  {
    Matrix(m.rows, m.cols, seq(m.cols, j requires 0 <= j < m.cols =>
      seq(m.rows, i requires 0 <= i < m.rows => normalize(m.Row(i))[j])))
  }

  /**
   * The columns a load has read, in request order: the fourteen fixed ones
   * (x, y, z, opacity, rot_0..3, scale_0..2, f_dc_0..2), then the 3(C - 1)
   * f_rest ones, every one holding n values.
   */
  ghost predicate ColumnsRead(cols: seq<seq<real>>, n: nat, c: nat) {
    c >= 1 && |cols| == |FixedProps| + RestCount(c) && forall k :: 0 <= k < |cols| ==> |cols[k]| == n
  }

  /**
   * What load_ply builds from the columns it read (positions in request
   * order): xyz from x, y, z; rot from rot_0..3 with each row normalised;
   * scale as exp of scale_0..2; opacity as the logistic of opacity; sh from
   * f_dc_0..2 followed by f_rest_list, which are exactly the columns from
   * position 11 on.
   */
  function Assemble(cols: seq<seq<real>>, n: nat, c: nat, ops: FloatOps): (g: GaussianData)
    requires ColumnsRead(cols, n, c)
    ensures g.Valid() && g.Size() == n && g.ShDim() == 3 * c
  {
    GaussianData(
      Matrix(n, 3, cols[0..3]),
      NormalizeRows(Matrix(n, 4, cols[4..8]), ops.normalize),
      Matrix(n, 3, [ExpAll(ops.exp, cols[8]), ExpAll(ops.exp, cols[9]), ExpAll(ops.exp, cols[10])]),
      Matrix(n, 1, [LogisticAll(ops.exp, cols[3])]),
      Matrix(n, 3 * c, cols[11..]))
  }

  /** The loop `rot.row(i).normalize()` for every row i. */
  method NormalizeEachRow(m: Matrix, normalize: Normalizer) returns (r: Matrix)
    requires m.Valid()
    ensures r == NormalizeRows(m, normalize)
  {
    r := m;
    for i := 0 to m.rows
      invariant r.Valid() && r.rows == m.rows && r.cols == m.cols
      invariant forall k, j :: 0 <= k < i && 0 <= j < m.cols ==> r.At(k, j) == normalize(m.Row(k))[j]
      invariant forall k, j :: i <= k < m.rows && 0 <= j < m.cols ==> r.At(k, j) == m.At(k, j)
    {
      assert r.Row(i) == m.Row(i);
      r := r.SetRow(i, normalize(r.Row(i)));
    }
    Ext(r, NormalizeRows(m, normalize));
  }

  /** Column assignments `m.col(from + j) = cols[j]` for j = 0, 1, ... in turn. */
  method FillColumns(m: Matrix, from: nat, cols: seq<seq<real>>) returns (r: Matrix)
    requires m.Valid() && from + |cols| <= m.cols
    requires forall j :: 0 <= j < |cols| ==> |cols[j]| == m.rows
    ensures r.Valid() && r.rows == m.rows && r.cols == m.cols
    ensures forall i, j :: 0 <= i < m.rows && 0 <= j < m.cols && !(from <= j < from + |cols|) ==>
              r.At(i, j) == m.At(i, j)
    ensures forall i, j :: 0 <= i < m.rows && 0 <= j < |cols| ==> r.At(i, from + j) == cols[j][i]
  {
    r := m;
    for j := 0 to |cols|
      invariant r.Valid() && r.rows == m.rows && r.cols == m.cols
      invariant forall i, k :: 0 <= i < m.rows && 0 <= k < m.cols && !(from <= k < from + j) ==>
                  r.At(i, k) == m.At(i, k)
      invariant forall i, k :: 0 <= i < m.rows && 0 <= k < j ==> r.At(i, from + k) == cols[k][i]
    {
      r := r.SetColumn(from + j, cols[j]);
    }
  }

  /** A fresh N x w matrix whose columns are assigned from cols. */
  method FromColumns(n: nat, cols: seq<seq<real>>) returns (m: Matrix)
    requires forall j :: 0 <= j < |cols| ==> |cols[j]| == n
    ensures m == Matrix(n, |cols|, cols)
  {
    m := FillColumns(Zero(n, |cols|), 0, cols);
    Ext(m, Matrix(n, |cols|, cols));
  }

  /**
   * sh(N, 3C): columns 0-2 from f_dc_0..2, then `sh.col(3 + i) = f_rest_list[i]`
   * for every i.
   */
  method LoadSh(n: nat, c: nat, dc: seq<seq<real>>, rest: seq<seq<real>>) returns (sh: Matrix)
    requires c >= 1 && |dc| == 3 && |rest| == RestCount(c)
    requires forall j :: 0 <= j < |dc| ==> |dc[j]| == n
    requires forall j :: 0 <= j < |rest| ==> |rest[j]| == n
    ensures sh == Matrix(n, 3 * c, dc + rest)
  {
    sh := Zero(n, 3 * c);
    sh := FillColumns(sh, 0, dc);
    ghost var dcOnly := sh;
    sh := FillColumns(sh, 3, rest);
    var want := Matrix(n, 3 * c, dc + rest);
    forall i, j | 0 <= i < n && 0 <= j < 3 * c
      ensures sh.At(i, j) == want.At(i, j)
    {
      if j < 3 {
        assert sh.At(i, j) == dcOnly.At(i, j);
      } else {
        assert sh.At(i, 3 + (j - 3)) == rest[j - 3][i];
      }
    }
    Ext(sh, want);
  }

  /** The fixed columns followed by f_rest_list are the columns a load has read. */
  lemma ColumnsReadJoin(fixed: seq<seq<real>>, rest: seq<seq<real>>, n: nat, c: nat)
    requires c >= 1 && |fixed| == |FixedProps| && |rest| == RestCount(c)
    requires forall k :: 0 <= k < |fixed| ==> |fixed[k]| == n
    requires forall k :: 0 <= k < |rest| ==> |rest[k]| == n
    ensures ColumnsRead(fixed + rest, n, c)
    ensures (fixed + rest)[11..] == fixed[11..] + rest
  {
    var cols := fixed + rest;
    forall k | 0 <= k < |cols| ensures |cols[k]| == n {
      if k >= |fixed| { assert cols[k] == rest[k - |fixed|]; }
    }
  }

  /**
   * The lines after file.read: N = x->count, then xyz, rot (normalised row by
   * row), scale, opacity and sh, filled column by column from the fixed
   * columns and f_rest_list.
   */
  method AssembleBlocks(n: nat, c: nat, fixed: seq<seq<real>>, rest: seq<seq<real>>, ops: FloatOps)
    returns (g: GaussianData)
    requires c >= 1 && |fixed| == |FixedProps| && |rest| == RestCount(c)
    requires forall k :: 0 <= k < |fixed| ==> |fixed[k]| == n
    requires forall k :: 0 <= k < |rest| ==> |rest[k]| == n
    ensures ColumnsRead(fixed + rest, n, c) && g == Assemble(fixed + rest, n, c, ops)
  {
    ColumnsReadJoin(fixed, rest, n, c);
    ghost var cols := fixed + rest;
    assert forall k :: 0 <= k < |fixed| ==> cols[k] == fixed[k];
    var want := Assemble(cols, n, c, ops);

    var xyz := FromColumns(n, [fixed[0], fixed[1], fixed[2]]);
    assert xyz == want.xyz;

    var rot := FromColumns(n, [fixed[4], fixed[5], fixed[6], fixed[7]]);
    assert rot == Matrix(n, 4, cols[4..8]);
    rot := NormalizeEachRow(rot, ops.normalize);

    var scale := FromColumns(n, [ExpAll(ops.exp, fixed[8]), ExpAll(ops.exp, fixed[9]), ExpAll(ops.exp, fixed[10])]);

    var opac := FromColumns(n, [fixed[3]]);
    opac := Matrix(n, 1, [LogisticAll(ops.exp, opac.columns[0])]);

    var sh := LoadSh(n, c, fixed[11..], rest);

    g := GaussianData(xyz, rot, scale, opac, sh);
  }

  /**
   * A load whose header declares the vertex element: every request in order,
   * failing at the first undeclared property, then the assembly over the
   * columns read.
   */
  function LoadVertex(t: VertexTable, c: nat, ops: FloatOps): (r: Result<GaussianData, LoadError>)
    requires c >= 1
    ensures r.Success? ==> r.value.Valid() && r.value.Size() == t.count && r.value.ShDim() == 3 * c
  {
    RequestedMeaning(t, Requests(c));
    match Requested(t, Requests(c))
    case Failure(e) => Failure(e)
    case Success(cols) =>
      assert ColumnsRead(cols, t.count, c);
      Success(Assemble(cols, t.count, c, ops))
  }

  /**
   * A load with the vertex element succeeds exactly when the element declares
   * every requested property; otherwise it fails naming the first one missing
   * in request order.
   */
  lemma LoadVertexOutcome(t: VertexTable, c: nat, ops: FloatOps)
    requires c >= 1
    ensures LoadVertex(t, c, ops).Success? <==> AllDeclared(t, Requests(c))
    ensures LoadVertex(t, c, ops).Failure? ==>
              LoadVertex(t, c, ops).error == MissingProperty(Name(Requests(c)[FirstMissing(t, Requests(c))]))
  {
    RequestedMeaning(t, Requests(c));
  }

  /** A failing fixed request fails the load with its error. */
  lemma LoadVertexFixedFails(t: VertexTable, c: nat, ops: FloatOps)
    requires c >= 1 && Requested(t, FixedProps).Failure?
    ensures LoadVertex(t, c, ops) == Failure(Requested(t, FixedProps).error)
  {
    RequestedConcat(t, FixedProps, RestProps(c));
  }

  /** After the fixed requests, a failing f_rest request fails the load with its error. */
  lemma LoadVertexRestFails(t: VertexTable, c: nat, ops: FloatOps)
    requires c >= 1 && Requested(t, FixedProps).Success? && Requested(t, RestProps(c)).Failure?
    ensures LoadVertex(t, c, ops) == Failure(Requested(t, RestProps(c)).error)
  {
    RequestedConcat(t, FixedProps, RestProps(c));
  }

  /** A successful run has one column per property, each with one value per vertex. */
  lemma RunShape(t: VertexTable, ps: seq<Prop>, cols: seq<seq<real>>)
    requires Requested(t, ps) == Success(cols)
    ensures |cols| == |ps| && forall k :: 0 <= k < |cols| ==> |cols[k]| == t.count
  {
    RequestedMeaning(t, ps);
  }

  /** Column k of a successful run is the column of ps[k]. */
  lemma RunColumn(t: VertexTable, ps: seq<Prop>, cols: seq<seq<real>>, k: nat)
    requires Requested(t, ps) == Success(cols) && k < |ps|
    ensures |cols| == |ps|
    ensures Name(ps[k]) in t.properties && cols[k] == t.properties[Name(ps[k])]
  {
    RequestedMeaning(t, ps);
  }

  /** Both runs succeeding: the load assembles the fixed columns followed by f_rest_list. */
  lemma LoadVertexReads(t: VertexTable, c: nat, ops: FloatOps, fixed: seq<seq<real>>, rest: seq<seq<real>>)
    requires c >= 1 && Requested(t, FixedProps) == Success(fixed) && Requested(t, RestProps(c)) == Success(rest)
    ensures |fixed| == |FixedProps| && |rest| == RestCount(c)
    ensures forall k :: 0 <= k < |fixed| ==> |fixed[k]| == t.count
    ensures forall k :: 0 <= k < |rest| ==> |rest[k]| == t.count
    ensures ColumnsRead(fixed + rest, t.count, c)
    ensures LoadVertex(t, c, ops) == Success(Assemble(fixed + rest, t.count, c, ops))
  {
    RunShape(t, FixedProps, fixed);
    RunShape(t, RestProps(c), rest);
    ColumnsReadJoin(fixed, rest, t.count, c);
    RequestedConcat(t, FixedProps, RestProps(c));
  }

  /**
   * From the first request on: the fourteen fixed requests, the f_rest loop,
   * N = x->count and the assembly.
   */
  method ReadVertex(t: VertexTable, c: nat, ops: FloatOps) returns (r: Result<GaussianData, LoadError>)
    requires c >= 1
    ensures r == LoadVertex(t, c, ops)
  {
    var fixedRun := Requested(t, FixedProps);
    if fixedRun.Failure? {
      LoadVertexFixedFails(t, c, ops);
      return Failure(fixedRun.error);
    }
    var fixed := fixedRun.value;
    var restRun := RequestRest(t, c);
    if restRun.Failure? {
      LoadVertexRestFails(t, c, ops);
      return Failure(restRun.error);
    }
    var rest := restRun.value;
    LoadVertexReads(t, c, ops, fixed, rest);
    var n := |fixed[0]|;
    var g := AssembleBlocks(n, c, fixed, rest, ops);
    return Success(g);
  }

  /**
   * GaussianData::load_ply. The file system and the PLY reader are
   * parameters: whether the stream opened, and the vertex element the header
   * declares (None when it declares none). A degree of -1 is excluded: it
   * sizes sh with no columns and then writes column 0.
   */
  method LoadPly(fname: string, isOpen: bool, vertex: Option<VertexTable>, ops: FloatOps, maxShDegree: int := 3)
    returns (r: Result<GaussianData, LoadError>)
    requires maxShDegree != -1
    ensures !HasPlySuffix(fname) ==> r == Failure(NotPlyFile(fname))
    ensures HasPlySuffix(fname) && !isOpen ==> r == Failure(OpenFailed(fname))
    ensures HasPlySuffix(fname) && isOpen && vertex.None? ==> r == Failure(MissingElement("vertex"))
    ensures HasPlySuffix(fname) && isOpen && vertex.Some? ==>
              ShCoeffs(maxShDegree) >= 1 && r == LoadVertex(vertex.value, ShCoeffs(maxShDegree), ops)
  {
    if !HasPlySuffix(fname) {
      return Failure(NotPlyFile(fname));
    }
    if !isOpen {
      return Failure(OpenFailed(fname));
    }
    if vertex.None? {
      return Failure(MissingElement("vertex"));
    }
    var c := ShCoeffs(maxShDegree);
    r := ReadVertex(vertex.value, c, ops);
  }

  /** Where load_ply requests the fixed properties. */
  lemma FixedOrder(c: nat)
    requires c >= 1
    ensures |Requests(c)| == 14 + RestCount(c)
    ensures Requests(c)[0] == X && Requests(c)[1] == Y && Requests(c)[2] == Z && Requests(c)[3] == Opacity
    ensures Requests(c)[4] == Rot(0) && Requests(c)[5] == Rot(1) && Requests(c)[6] == Rot(2) && Requests(c)[7] == Rot(3)
    ensures Requests(c)[8] == Scale(0) && Requests(c)[9] == Scale(1) && Requests(c)[10] == Scale(2)
    ensures Requests(c)[11] == FDc(0) && Requests(c)[12] == FDc(1) && Requests(c)[13] == FDc(2)
  {
    var ps := Requests(c);
    assert forall k :: 0 <= k < 14 ==> ps[k] == FixedProps[k];
  }

  /** Requests 11, 12 and 13 are f_dc_0, f_dc_1 and f_dc_2. */
  lemma DcOrder(c: nat, k: nat)
    requires c >= 1 && k < 3
    ensures 11 + k < |Requests(c)| && Requests(c)[11 + k] == FDc(k)
  {
    assert Requests(c)[11 + k] == FixedProps[11 + k];
  }

  /** Request 14 + 3i + k, the k-th of iteration i of the f_rest loop, asks for f_rest_(i + k(C - 1)). */
  lemma RestOrder(c: nat, i: nat, k: nat)
    requires c >= 1 && i < c - 1 && k < 3
    ensures 14 + Slot(i, k) < |Requests(c)| && Requests(c)[14 + Slot(i, k)] == FRest(FileIndex(c, i, k))
  {
    RestPropAt(c, i, k);
    assert Requests(c)[14 + Slot(i, k)] == RestProps(c)[Slot(i, k)];
  }

  /** Column k of a successful load is the column of the k-th requested property. */
  lemma LoadedColumn(t: VertexTable, c: nat, ops: FloatOps, k: nat)
    requires c >= 1 && LoadVertex(t, c, ops).Success? && k < |Requests(c)|
    ensures Requested(t, Requests(c)).Success?
    ensures ColumnsRead(Requested(t, Requests(c)).value, t.count, c)
    ensures LoadVertex(t, c, ops).value == Assemble(Requested(t, Requests(c)).value, t.count, c, ops)
    ensures Name(Requests(c)[k]) in t.properties
    ensures Requested(t, Requests(c)).value[k] == t.properties[Name(Requests(c)[k])]
  {
    var cols := Requested(t, Requests(c)).value;
    RunShape(t, Requests(c), cols);
    RunColumn(t, Requests(c), cols, k);
  }

  /**
   * The colour layout of a successful load: row i of sh holds, for band
   * coefficient b and channel k, the value of f_rest_(b + k(C - 1)) in column
   * 3 + 3b + k; the file's channel-major order becomes coefficient-major.
   */
  lemma LoadedRestCoefficient(t: VertexTable, c: nat, ops: FloatOps, i: nat, b: nat, k: nat)
    requires c >= 1 && LoadVertex(t, c, ops).Success? && i < t.count && b < c - 1 && k < 3
    ensures Name(FRest(FileIndex(c, b, k))) in t.properties
    ensures LoadVertex(t, c, ops).value.sh.At(i, 3 + Slot(b, k)) == t.properties[Name(FRest(FileIndex(c, b, k)))][i]
  {
    RestOrder(c, b, k);
    LoadedColumn(t, c, ops, 14 + Slot(b, k));
  }

  /** Columns 0-2 of sh hold f_dc_0, f_dc_1 and f_dc_2. */
  lemma LoadedDc(t: VertexTable, c: nat, ops: FloatOps, i: nat, k: nat)
    requires c >= 1 && LoadVertex(t, c, ops).Success? && i < t.count && k < 3
    ensures Name(FDc(k)) in t.properties
    ensures LoadVertex(t, c, ops).value.sh.At(i, k) == t.properties[Name(FDc(k))][i]
  {
    DcOrder(c, k);
    LoadedColumn(t, c, ops, 11 + k);
  }

  /**
   * Every f_rest_n below 3(C - 1) is read, into exactly one column: column
   * 3 + RestSlot(C, n) of sh.
   */
  lemma LoadedFRest(t: VertexTable, c: nat, ops: FloatOps, i: nat, n: nat)
    requires c >= 2 && LoadVertex(t, c, ops).Success? && i < t.count && n < RestCount(c)
    ensures RestSlot(c, n) < RestCount(c)
    ensures Name(FRest(n)) in t.properties
    ensures LoadVertex(t, c, ops).value.sh.At(i, 3 + RestSlot(c, n)) == t.properties[Name(FRest(n))][i]
  {
    var b, k := SlotOf(c, n);
    LoadedRestCoefficient(t, c, ops, i, b, k);
  }

  /** Requests 0-2 are x, y and z; request 3 is opacity. */
  lemma XyzOpacityOrder(c: nat, k: nat)
    requires c >= 1 && k < 3
    ensures 3 < |Requests(c)| && Requests(c)[k] == [X, Y, Z][k] && Requests(c)[3] == Opacity
  {
    assert Requests(c)[k] == FixedProps[k] && Requests(c)[3] == FixedProps[3];
  }

  /** Requests 4-7 are rot_0 .. rot_3. */
  lemma RotOrder(c: nat, k: nat)
    requires c >= 1 && k < 4
    ensures 4 + k < |Requests(c)| && Requests(c)[4 + k] == Rot(k)
  {
    assert Requests(c)[4 + k] == FixedProps[4 + k];
  }

  /** Requests 8-10 are scale_0 .. scale_2. */
  lemma ScaleOrder(c: nat, k: nat)
    requires c >= 1 && k < 3
    ensures 8 + k < |Requests(c)| && Requests(c)[8 + k] == Scale(k)
  {
    assert Requests(c)[8 + k] == FixedProps[8 + k];
  }

  /** Entry (i, k) of the assembled scale is exp of column 8 + k. */
  lemma AssembleScale(cols: seq<seq<real>>, n: nat, c: nat, ops: FloatOps, i: nat, k: nat)
    requires ColumnsRead(cols, n, c) && i < n && k < 3
    ensures Assemble(cols, n, c, ops).scale.At(i, k) == ops.exp(cols[8 + k][i])
  {
  }

  /** Entry i of the assembled opacity is the logistic of column 3. */
  lemma AssembleOpacity(cols: seq<seq<real>>, n: nat, c: nat, ops: FloatOps, i: nat)
    requires ColumnsRead(cols, n, c) && i < n
    ensures Assemble(cols, n, c, ops).opacity.At(i, 0) == Logistic(ops.exp, cols[3][i])
  {
  }

  /** Row i of the assembled rot is the normalised quaternion of columns 4-7 at row i. */
  lemma AssembleRot(cols: seq<seq<real>>, n: nat, c: nat, ops: FloatOps, i: nat, quat: seq<real>)
    requires ColumnsRead(cols, n, c) && i < n
    requires |quat| == 4 && forall k :: 0 <= k < 4 ==> quat[k] == cols[4 + k][i]
    ensures Assemble(cols, n, c, ops).rot.Row(i) == ops.normalize(quat)
  {
    assert Matrix(n, 4, cols[4..8]).Row(i) == quat;
  }

  /** Columns 0-2 of xyz hold x, y and z. */
  lemma LoadedXyz(t: VertexTable, c: nat, ops: FloatOps, i: nat, k: nat)
    requires c >= 1 && LoadVertex(t, c, ops).Success? && i < t.count && k < 3
    ensures Name([X, Y, Z][k]) in t.properties
    ensures LoadVertex(t, c, ops).value.xyz.At(i, k) == t.properties[Name([X, Y, Z][k])][i]
  {
    XyzOpacityOrder(c, k);
    LoadedColumn(t, c, ops, k);
  }

  /** Column 4 + k read by a successful load is rot_k. */
  lemma LoadedRotColumn(t: VertexTable, c: nat, ops: FloatOps, k: nat)
    requires c >= 1 && LoadVertex(t, c, ops).Success? && k < 4
    ensures ColumnsRead(Requested(t, Requests(c)).value, t.count, c)
    ensures Name(Rot(k)) in t.properties && Requested(t, Requests(c)).value[4 + k] == t.properties[Name(Rot(k))]
  {
    RotOrder(c, k);
    LoadedColumn(t, c, ops, 4 + k);
  }

  /**
   * Row i of rot is the normalised quaternion q = (rot_0, rot_1, rot_2, rot_3)
   * of vertex i (the four properties are declared whenever the load succeeds,
   * by LoadedRotColumn).
   */
  lemma LoadedRot(t: VertexTable, c: nat, ops: FloatOps, i: nat, q: seq<real>)
    requires c >= 1 && LoadVertex(t, c, ops).Success? && i < t.count
    requires |q| == 4 && forall k :: 0 <= k < 4 ==> Name(Rot(k)) in t.properties && q[k] == t.properties[Name(Rot(k))][i]
    ensures LoadVertex(t, c, ops).value.rot.Row(i) == ops.normalize(q)
  {
    LoadedColumn(t, c, ops, 0);
    var cols := Requested(t, Requests(c)).value;
    forall k | 0 <= k < 4
      ensures q[k] == cols[4 + k][i]
    {
      LoadedRotColumn(t, c, ops, k);
    }
    AssembleRot(cols, t.count, c, ops, i, q);
  }

  /** Column k of scale is exp of scale_k. */
  lemma LoadedScale(t: VertexTable, c: nat, ops: FloatOps, i: nat, k: nat)
    requires c >= 1 && LoadVertex(t, c, ops).Success? && i < t.count && k < 3
    ensures Name(Scale(k)) in t.properties
    ensures LoadVertex(t, c, ops).value.scale.At(i, k) == ops.exp(t.properties[Name(Scale(k))][i])
  {
    ScaleOrder(c, k);
    LoadedColumn(t, c, ops, 8 + k);
    AssembleScale(Requested(t, Requests(c)).value, t.count, c, ops, i, k);
  }

  /** opacity is the logistic 1 / (1 + exp(-v)) of the opacity property. */
  lemma LoadedOpacity(t: VertexTable, c: nat, ops: FloatOps, i: nat)
    requires c >= 1 && LoadVertex(t, c, ops).Success? && i < t.count
    ensures Name(Opacity) in t.properties
    ensures LoadVertex(t, c, ops).value.opacity.At(i, 0) == Logistic(ops.exp, t.properties[Name(Opacity)][i])
  {
    XyzOpacityOrder(c, 0);
    LoadedColumn(t, c, ops, 3);
    AssembleOpacity(Requested(t, Requests(c)).value, t.count, c, ops, i);
  }

  /** Whatever the file holds, the assembled scales are positive and the opacities lie in [0, 1]. */
  lemma AssembleDecoded(cols: seq<seq<real>>, n: nat, c: nat, ops: FloatOps)
    requires ColumnsRead(cols, n, c)
    ensures Decoded(Assemble(cols, n, c, ops))
  {
    var g := Assemble(cols, n, c, ops);
    forall i, k | 0 <= i < n && 0 <= k < 3
      ensures g.scale.At(i, k) > 0.0
    {
      assert g.scale.At(i, k) == ExpAll(ops.exp, cols[8 + k])[i];
    }
  }

  /** Every successful load is decoded: positive scales, opacities in [0, 1]. */
  lemma LoadDecoded(t: VertexTable, c: nat, ops: FloatOps)
    requires c >= 1 && LoadVertex(t, c, ops).Success?
    ensures Decoded(LoadVertex(t, c, ops).value)
  {
    LoadedColumn(t, c, ops, 0);
    AssembleDecoded(Requested(t, Requests(c)).value, t.count, c, ops);
  }
}
