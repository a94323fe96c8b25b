/**
 * GaussianData: the loaded splats as a structure of arrays, one row per
 * primitive, and flat(), which interleaves them into one float buffer for
 * upload (row i occupies positions i * stride .. i * stride + stride - 1).
 */
module Gaussian {

  import opened Dense
  import opened Arith

  datatype GaussianData = GaussianData(
    xyz: Matrix,      // N x 3 position
    rot: Matrix,      // N x 4 quaternion (w, x, y, z)
    scale: Matrix,    // N x 3 scale
    opacity: Matrix,  // N x 1 opacity
    sh: Matrix)       // N x 3C colour coefficients
  {
    /** size(): the number of primitives, the rows of xyz. */
    function Size(): (n: nat)
      ensures Valid() ==> rot.rows == n && scale.rows == n && opacity.rows == n && sh.rows == n
    {
      xyz.rows
    }

    /** sh_dim(): the number of colour coefficients per primitive. */
    function ShDim(): (d: nat)
      ensures sh.Valid() ==> d == |sh.columns|
    {
      sh.cols
    }

    /** The floats per primitive in flat(): 3 + 4 + 3 + 1 + sh_dim(). */
    function Stride(): nat {
      11 + ShDim()
    }

    /** Every block has Size() rows and its fixed number of columns. */
    ghost predicate Valid() {
      && xyz.Valid() && rot.Valid() && scale.Valid() && opacity.Valid() && sh.Valid()
      && rot.rows == xyz.rows && scale.rows == xyz.rows && opacity.rows == xyz.rows && sh.rows == xyz.rows
      && xyz.cols == 3 && rot.cols == 4 && scale.cols == 3 && opacity.cols == 1
    }

    /** What flat() emits for primitive i: its row of every block, in block order. */
    function Record(i: nat): (r: seq<real>)
      requires Valid() && i < Size()
      ensures |r| == Stride()
    {
      xyz.Row(i) + rot.Row(i) + scale.Row(i) + opacity.Row(i) + sh.Row(i)
    }
  }

  /** The records of the first n primitives, one after another. */
  function Rows(g: GaussianData, n: nat): seq<real>
    requires g.Valid() && n <= g.Size()
  {
    if n == 0 then [] else Rows(g, n - 1) + g.Record(n - 1)
  }

  /** The buffer flat() returns. */
  function Interleaved(g: GaussianData): seq<real>
    requires g.Valid()
  {
    Rows(g, g.Size())
  }

  /** The inner loops of flat(): push row i of one block, entry by entry. */
  method PushRow(flat: seq<real>, m: Matrix, i: nat) returns (out: seq<real>)
    requires m.Valid() && i < m.rows
    ensures out == flat + m.Row(i)
  {
    out := flat;
    for j := 0 to m.cols
      invariant out == flat + m.Row(i)[..j]
    {
      assert m.Row(i)[..j + 1] == m.Row(i)[..j] + [m.At(i, j)];
      out := out + [m.At(i, j)];
    }
    assert m.Row(i)[..m.cols] == m.Row(i);
  }

  /** flat(): for i = 0 .. size() - 1, push row i of xyz, rot, scale, opacity and sh. */
  method Flat(g: GaussianData) returns (flat: seq<real>)
    requires g.Valid()
    ensures flat == Interleaved(g)
  {
    flat := [];
    var i := 0;
    while i < g.Size()
      invariant i <= g.Size()
      invariant flat == Rows(g, i)
    {
      flat := PushRow(flat, g.xyz, i);
      flat := PushRow(flat, g.rot, i);
      flat := PushRow(flat, g.scale, i);
      flat := PushRow(flat, g.opacity, i);
      flat := PushRow(flat, g.sh, i);
      assert flat == Rows(g, i) + g.Record(i);
      i := i + 1;
    }
  }

  /** Position o of primitive i's record: offsets 0-2 xyz, 3-6 rot, 7-9 scale, 10 opacity, 11 + j sh column j. */
  lemma RecordAt(g: GaussianData, i: nat, o: nat)
    requires g.Valid() && i < g.Size() && o < g.Stride()
    ensures g.Record(i)[o] ==
      if o < 3 then g.xyz.At(i, o)
      else if o < 7 then g.rot.At(i, o - 3)
      else if o < 10 then g.scale.At(i, o - 7)
      else if o == 10 then g.opacity.At(i, 0)
      else g.sh.At(i, o - 11)
  {
  }

  /** The first n records take n strides, and position i * stride + o is entry o of record i. */
  lemma {:induction false} RowsAt(g: GaussianData, n: nat, i: nat, o: nat)
    requires g.Valid() && n <= g.Size() && i < n && o < g.Stride()
    ensures |Rows(g, n)| == n * g.Stride()
    ensures i * g.Stride() + o < |Rows(g, n)| && Rows(g, n)[i * g.Stride() + o] == g.Record(i)[o]
  {
    var s := g.Stride();
    RowStart(i, n, s);
    if i < n - 1 {
      RowsAt(g, n - 1, i, o);
      RowOffsetBound(i, n - 1, s, o);
    } else {
      if n > 1 {
        RowsAt(g, n - 1, 0, 0);
      }
    }
  }

  /** flat() has size() * (11 + sh_dim()) entries. */
  lemma InterleavedLength(g: GaussianData)
    requires g.Valid()
    ensures |Interleaved(g)| == g.Size() * g.Stride()
  {
    if g.Size() > 0 {
      RowsAt(g, g.Size(), 0, 0);
    }
  }

  /**
   * The layout of flat(): with stride s = 11 + sh_dim(), position i * s + o
   * holds xyz(i, o) for o < 3, rot(i, o - 3) for o < 7, scale(i, o - 7) for
   * o < 10, opacity(i, 0) for o == 10 and sh(i, o - 11) beyond.
   */
  lemma FlatLayout(g: GaussianData, i: nat, o: nat)
    requires g.Valid() && i < g.Size() && o < g.Stride()
    ensures |Interleaved(g)| == g.Size() * g.Stride()
    ensures i * g.Stride() + o < |Interleaved(g)|
    ensures Interleaved(g)[i * g.Stride() + o] ==
      if o < 3 then g.xyz.At(i, o)
      else if o < 7 then g.rot.At(i, o - 3)
      else if o < 10 then g.scale.At(i, o - 7)
      else if o == 10 then g.opacity.At(i, 0)
      else g.sh.At(i, o - 11)
  {
    RowsAt(g, g.Size(), i, o);
    RecordAt(g, i, o);
  }

  /** Entry o of record i of a buffer of n records of the given stride. */
  function Entry(buf: seq<real>, n: nat, stride: nat, i: nat, o: nat): (x: real)
    requires |buf| == n * stride && i < n && o < stride
    ensures i * stride + o < |buf| && x == buf[i * stride + o]
  {
    RowOffsetBound(i, n, stride, o);
    buf[i * stride + o]
  }

  /** The w columns starting at offset off of every record of buf, as an n x w block. */
  function Block(buf: seq<real>, n: nat, stride: nat, off: nat, w: nat): (m: Matrix)
    requires off + w <= stride && |buf| == n * stride
    ensures m.Valid() && m.rows == n && m.cols == w
    ensures forall i, j :: 0 <= i < n && 0 <= j < w ==> m.At(i, j) == Entry(buf, n, stride, i, off + j)
  {
    Matrix(n, w, seq(w, j requires 0 <= j < w =>
      seq(n, i requires 0 <= i < n => Entry(buf, n, stride, i, off + j))))
  }

  /** The inverse of flat(): cut a buffer of n records of stride 11 + shDim back into the five blocks. */
  function Unflat(buf: seq<real>, n: nat, shDim: nat): (g: GaussianData)
    requires |buf| == n * (11 + shDim)
    ensures g.Valid() && g.Size() == n && g.ShDim() == shDim
  {
    var s := 11 + shDim;
    GaussianData(Block(buf, n, s, 0, 3), Block(buf, n, s, 3, 4), Block(buf, n, s, 7, 3),
                 Block(buf, n, s, 10, 1), Block(buf, n, s, 11, shDim))
  }

  /** flat() loses nothing: cutting its buffer back up gives the original data. */
  lemma UnflatInterleaved(g: GaussianData)
    requires g.Valid()
    ensures |Interleaved(g)| == g.Size() * g.Stride()
    ensures Unflat(Interleaved(g), g.Size(), g.ShDim()) == g
  {
    InterleavedLength(g);
    var u := Unflat(Interleaved(g), g.Size(), g.ShDim());
    forall i, o | 0 <= i < g.Size() && 0 <= o < g.Stride()
      ensures Entry(Interleaved(g), g.Size(), g.Stride(), i, o) == g.Record(i)[o]
    {
      RowsAt(g, g.Size(), i, o);
      RecordAt(g, i, o);
    }
    Ext(u.xyz, g.xyz);
    Ext(u.rot, g.rot);
    Ext(u.scale, g.scale);
    Ext(u.opacity, g.opacity);
    Ext(u.sh, g.sh);
  }

  /** Every buffer of n records is the flat() of the data cut from it. */
  lemma InterleavedUnflat(buf: seq<real>, n: nat, shDim: nat)
    requires |buf| == n * (11 + shDim)
    ensures Interleaved(Unflat(buf, n, shDim)) == buf
  {
    var u := Unflat(buf, n, shDim);
    var s := u.Stride();
    InterleavedLength(u);
    forall p | 0 <= p < |buf|
      ensures Interleaved(u)[p] == buf[p]
    {
      var i, o := SplitOffset(p, n, s);
      FlatLayout(u, i, o);
    }
  }

  /**
   * The invariants the loader's transforms give every primitive: positive
   * scale and an opacity in [0, 1].
   */
  ghost predicate Decoded(g: GaussianData) {
    && g.Valid()
    && (forall i, c :: 0 <= i < g.Size() && 0 <= c < 3 ==> g.scale.At(i, c) > 0.0)
    && (forall i :: 0 <= i < g.Size() ==> 0.0 <= g.opacity.At(i, 0) <= 1.0)
  }

  /** The DC colour coefficient that displays as the given RGB channel value: (v - 0.5) / 0.28209. */
  function DcFromRgb(v: real): (dc: real)
    ensures 0.5 + 0.28209 * dc == v
  {
    (v - 0.5) / 0.28209
  }

  /**
   * naive_data(): four splats (the origin and the three unit points), with the
   * identity rotation, small scales stretched along their own axis, full
   * opacity and degree-0 colour (magenta, red, green, blue).
   */
  function NaiveData(): (g: GaussianData)
    ensures g.Valid() && g.Size() == 4 && g.ShDim() == 3
    ensures Decoded(g)
    ensures forall i :: 0 <= i < 4 ==> g.rot.Row(i) == [1.0, 0.0, 0.0, 0.0]
  {
    var zeros := [0.0, 0.0, 0.0, 0.0];
    GaussianData(
      Matrix(4, 3, [[0.0, 1.0, 0.0, 0.0], [0.0, 0.0, 1.0, 0.0], [0.0, 0.0, 0.0, 1.0]]),
      Matrix(4, 4, [[1.0, 1.0, 1.0, 1.0], zeros, zeros, zeros]),
      Matrix(4, 3, [[0.03, 0.2, 0.03, 0.03], [0.03, 0.03, 0.2, 0.03], [0.03, 0.03, 0.03, 0.2]]),
      Matrix(4, 1, [[1.0, 1.0, 1.0, 1.0]]),
      Matrix(4, 3, [[DcFromRgb(1.0), DcFromRgb(1.0), DcFromRgb(0.0), DcFromRgb(0.0)],
                    [DcFromRgb(0.0), DcFromRgb(0.0), DcFromRgb(1.0), DcFromRgb(0.0)],
                    [DcFromRgb(1.0), DcFromRgb(0.0), DcFromRgb(0.0), DcFromRgb(1.0)]]))
  }
}
