/** Forward kinematics (`euler_fk`, h36m_fa/fk.py, lines 170-208): from a
    batch of per-joint Euler angles to the global position of every joint.

    Each joint's chain is walked root first from `p = 0`, `P = I`; at every
    ancestor `a` the offset of `a`, as a row vector, is turned by the running
    rotation and added (`p += bone[a]·P`), and then the rotation of `a` is
    multiplied in on the left (`P = R[a]·P`). The joint itself lands at
    `bone[j]·P + p`. Positions are stacked per frame, their y and z
    channels are swapped, and the mirror correction is applied last. */
module Kinematics {
  import opened LinAlg
  import opened Errors
  import opened Skeleton
  import opened Rotation

  /** The running translation `p_xyz` and rotation `p_R` of a chain walk. */
  datatype Accum = Accum(p: Vec3, rot: Mat3)

  /** Every entry of `chain` addresses one of the first `n` joints. */
  predicate IndexesBelow(chain: seq<int>, n: int) {
    forall k :: 0 <= k < |chain| ==> 0 <= chain[k] < n
  }

  /** The rotations of a chain multiplied together, deepest joint on the
      left: `R[c_(k-1)] · … · R[c_1] · R[c_0]`. */
  function ChainRotation(rs: seq<Mat3>, chain: seq<int>): Mat3
    requires IndexesBelow(chain, |rs|)
  {
    if chain == [] then Identity
    else MatMul(ChainRotation(rs, chain[1..]), rs[chain[0]])
  }

  /** Appending a joint to a chain multiplies its rotation in on the left. */
  lemma {:induction false} ChainRotationSnoc(rs: seq<Mat3>, init: seq<int>, a: int)
    requires IndexesBelow(init, |rs|) && 0 <= a < |rs|
    ensures IndexesBelow(init + [a], |rs|)
    ensures ChainRotation(rs, init + [a]) == MatMul(rs[a], ChainRotation(rs, init))
  {
    if init == [] {
      assert ([] + [a])[1..] == [];
      MatMulIdentity(rs[a]);
    } else {
      var rest := init[1..];
      assert (init + [a])[1..] == rest + [a];
      ChainRotationSnoc(rs, rest, a);
      MatMulAssoc(rs[a], ChainRotation(rs, rest), rs[init[0]]);
    }
  }

  /** Entry `k` is the offset of the chain's `k`-th joint turned by the
      rotations of the joints above it. */
  function TurnedOffsets(rs: seq<Mat3>, bones: seq<Vec3>, chain: seq<int>): (offs: seq<Vec3>)
    requires |rs| == |bones| && IndexesBelow(chain, |bones|)
    ensures |offs| == |chain|
  {
    seq(|chain|, k requires 0 <= k < |chain| =>
      assert IndexesBelow(chain[..k], |rs|);
      VecMat(bones[chain[k]], ChainRotation(rs, chain[..k])))
  }

  /** The walk over `chain`, root first, with the frame's rotations `rs`:
      its running rotation is the product of the chain's rotations. */
  function ChainFold(rs: seq<Mat3>, bones: seq<Vec3>, chain: seq<int>): (acc: Accum)
    requires |rs| == |bones| && IndexesBelow(chain, |bones|)
    ensures acc.rot == ChainRotation(rs, chain)
  {
    if chain == [] then Accum(Zero, Identity)
    else
      var init := chain[..|chain| - 1];
      var acc := ChainFold(rs, bones, init);
      var a := chain[|chain| - 1];
      assert init + [a] == chain;
      ChainRotationSnoc(rs, init, a);
      Accum(Add(acc.p, VecMat(bones[a], acc.rot)), MatMul(rs[a], acc.rot))
  }

  /** Walking one more joint of the chain adds that joint's turned offset
      and multiplies its rotation in on the left. */
  lemma ChainFoldStep(rs: seq<Mat3>, bones: seq<Vec3>, chain: seq<int>, i: int)
    requires |rs| == |bones| && IndexesBelow(chain, |bones|) && 0 <= i < |chain|
    ensures var acc := ChainFold(rs, bones, chain[..i]);
      ChainFold(rs, bones, chain[..i + 1])
        == Accum(Add(acc.p, VecMat(bones[chain[i]], acc.rot)), MatMul(rs[chain[i]], acc.rot))
  {
    assert chain[..i + 1][..i] == chain[..i];
  }

  /** The running translation of the walk is the sum of the chain's
      offsets, each turned by the rotations of the joints above it. */
  lemma {:induction false} ChainFoldTranslation(rs: seq<Mat3>, bones: seq<Vec3>, chain: seq<int>)
    requires |rs| == |bones| && IndexesBelow(chain, |bones|)
    ensures ChainFold(rs, bones, chain).p == Sum(TurnedOffsets(rs, bones, chain))
  {
    if chain != [] {
      var init := chain[..|chain| - 1];
      ChainFoldTranslation(rs, bones, init);
      assert TurnedOffsets(rs, bones, chain)[..|init|] == TurnedOffsets(rs, bones, init) by {
        forall k | 0 <= k < |init|
          ensures chain[..k] == init[..k]
        {
        }
      }
      assert chain[..|init|] == init;
    }
  }

  /** The global position of joint `j`, whose chain is `chain`. */
  function JointPosition(rs: seq<Mat3>, bones: seq<Vec3>, chain: seq<int>, j: int): Vec3
    requires |rs| == |bones| && IndexesBelow(chain, |bones|) && 0 <= j < |bones|
  {
    var acc := ChainFold(rs, bones, chain);
    Add(VecMat(bones[j], acc.rot), acc.p)
  }

  /** A joint's position is the sum of the offsets along its chain extended
      by the joint itself, each turned by the rotations of the joints above
      it. */
  lemma JointPositionClosedForm(rs: seq<Mat3>, bones: seq<Vec3>, chain: seq<int>, j: int)
    requires |rs| == |bones| && IndexesBelow(chain, |bones|) && 0 <= j < |bones|
    ensures IndexesBelow(chain + [j], |bones|)
    ensures JointPosition(rs, bones, chain, j) == Sum(TurnedOffsets(rs, bones, chain + [j]))
  {
    var ext := chain + [j];
    ChainFoldTranslation(rs, bones, chain);
    assert ext[..|chain|] == chain;
    assert TurnedOffsets(rs, bones, ext)[..|chain|] == TurnedOffsets(rs, bones, chain) by {
      forall k | 0 <= k < |chain|
        ensures ext[..k] == chain[..k]
      {
      }
    }
  }

  /** The positions of all joints of one frame, given that frame's rotations. */
  function FramePositions(topo: Topology, rs: seq<Mat3>): (pts: seq<Vec3>)
    requires topo.Valid() && |rs| == |topo.bones|
    ensures |pts| == |topo.bones|
  {
    seq(|topo.bones|, j requires 0 <= j < |topo.bones| =>
      JointPosition(rs, topo.bones, topo.chains[j], j))
  }

  /** A flat list of angles read as (x, y, z) triples: `reshape(-1, 3)`. */
  function Triples(angles: seq<real>): (t: seq<Vec3>)
    requires |angles| % 3 == 0
    ensures |t| == |angles| / 3
  {
    seq(|angles| / 3, i requires 0 <= i < |angles| / 3 =>
      Vec3(angles[3 * i], angles[3 * i + 1], angles[3 * i + 2]))
  }

  /** The triples written back out as a flat list of angles. */
  function Flatten(t: seq<Vec3>): (xs: seq<real>)
    ensures |xs| == 3 * |t|
  {
    seq(3 * |t|, i requires 0 <= i < 3 * |t| =>
      var v := t[i / 3];
      if i % 3 == 0 then v.x else if i % 3 == 1 then v.y else v.z)
  }

  /** Reading the angles as triples loses nothing: flattening them again
      gives back the flat list. */
  lemma TriplesFlatten(angles: seq<real>)
    requires |angles| % 3 == 0
    ensures Flatten(Triples(angles)) == angles
  {
    var t := Triples(angles);
    var back := Flatten(t);
    forall i | 0 <= i < |angles| ensures back[i] == angles[i] {
      var q, m := i / 3, i % 3;
      assert i == 3 * q + m && 0 <= m < 3;
      assert t[q] == Vec3(angles[3 * q], angles[3 * q + 1], angles[3 * q + 2]);
    }
  }

  /** Flattening triples and reading them back gives the same triples. */
  lemma FlattenTriples(t: seq<Vec3>)
    ensures |Flatten(t)| % 3 == 0
    ensures Triples(Flatten(t)) == t
  {
    var xs := Flatten(t);
    var again := Triples(xs);
    forall i | 0 <= i < |t| ensures again[i] == t[i] {
      assert (3 * i) / 3 == i && (3 * i) % 3 == 0;
      assert (3 * i + 1) / 3 == i && (3 * i + 1) % 3 == 1;
      assert (3 * i + 2) / 3 == i && (3 * i + 2) % 3 == 2;
    }
  }

  /** Entry `j` of row `b` lies inside a list of `rows * cols` entries. */
  lemma RowEntryBound(b: int, j: int, rows: int, cols: int)
    requires 0 <= b < rows && 0 <= j < cols
    ensures 0 <= b * cols + j < rows * cols
  {
    var rest := rows - b - 1;
    assert rest * cols >= 0;
    assert rows * cols == b * cols + cols + rest * cols;
  }

  /** `xs` cut into `rows` consecutive rows of `cols` entries: a reshape. */
  function Rows<T>(xs: seq<T>, rows: nat, cols: nat): (r: seq<seq<T>>)
    requires |xs| == rows * cols
    ensures |r| == rows
    ensures forall b :: 0 <= b < rows ==> |r[b]| == cols
  {
    seq(rows, b requires 0 <= b < rows =>
      seq(cols, j requires 0 <= j < cols => RowEntryBound(b, j, rows, cols); xs[b * cols + j]))
  }

  /** Entry `j` of row `b` is entry `b * cols + j` of the flat list. */
  lemma RowsEntry<T>(xs: seq<T>, rows: nat, cols: nat, b: int, j: int)
    requires |xs| == rows * cols && 0 <= b < rows && 0 <= j < cols
    ensures 0 <= b * cols + j < |xs| && Rows(xs, rows, cols)[b][j] == xs[b * cols + j]
  {
    RowEntryBound(b, j, rows, cols);
  }

  /** Positions `[batch][joint]` in the model's native axes, before the axis
      swap: the angles are read as triples, turned into rotation matrices,
      regrouped per frame, and every joint's chain is walked. */
  function ForwardKinematics(topo: Topology, angles: seq<real>, nBatch: nat, invRot: bool,
                             cos: real -> real, sin: real -> real): (pts: seq<seq<Vec3>>)
    requires topo.Valid() && |angles| == nBatch * |topo.bones| * 3
    ensures |pts| == nBatch
    ensures forall b :: 0 <= b < nBatch ==> |pts[b]| == |topo.bones|
  {
    var rs := Rows(BatchRot3d(Triples(angles), invRot, cos, sin), nBatch, |topo.bones|);
    seq(nBatch, b requires 0 <= b < nBatch => FramePositions(topo, rs[b]))
  }

  /** Stacking the frames back along the joint axis gives the per-joint
      rows: no point is lost or moved. */
  lemma StackInvolution(perJoint: seq<seq<Vec3>>, nBatch: nat)
    requires forall j :: 0 <= j < |perJoint| ==> |perJoint[j]| == nBatch
    ensures Stack(Stack(perJoint, nBatch), |perJoint|) == perJoint
  {
    var twice := Stack(Stack(perJoint, nBatch), |perJoint|);
    forall j | 0 <= j < |perJoint| ensures twice[j] == perJoint[j] {
      assert |twice[j]| == |perJoint[j]|;
    }
  }

  /** Channels (x, y, z) become (x, z, y): channel 0 stays and the length
      is kept. */
  function SwapYZ(v: Vec3): (r: Vec3)
    ensures r.x == v.x
    ensures Norm2(r) == Norm2(v)
  {
    Vec3(v.x, v.z, v.y)
  }

  /** The channel swap applied to every point of every frame. */
  function SwapAxes(pts: seq<seq<Vec3>>): (r: seq<seq<Vec3>>)
    ensures |r| == |pts|
    ensures forall b :: 0 <= b < |pts| ==> |r[b]| == |pts[b]|
  {
    seq(|pts|, b requires 0 <= b < |pts| =>
      seq(|pts[b]|, j requires 0 <= j < |pts[b]| => SwapYZ(pts[b][j])))
  }

  /** Per-joint rows `[joint][batch]` stacked into `[batch][joint]`:
      `nBatch` frames of one point per joint. */
  function Stack(perJoint: seq<seq<Vec3>>, nBatch: nat): (s: seq<seq<Vec3>>)
    requires forall j :: 0 <= j < |perJoint| ==> |perJoint[j]| == nBatch
    ensures |s| == nBatch
    ensures forall b :: 0 <= b < nBatch ==> |s[b]| == |perJoint|
  {
    seq(nBatch, b requires 0 <= b < nBatch =>
      seq(|perJoint|, j requires 0 <= j < |perJoint| => perJoint[j][b]))
  }

  /** The inner loop of `euler_fk` for one chain, run on every frame at
      once: the running translations and rotations of all frames after
      walking the whole chain. */
  method ChainWalk(rs: seq<seq<Mat3>>, bones: seq<Vec3>, chain: seq<int>, nBatch: nat)
    returns (pXyz: seq<Vec3>, pR: seq<Mat3>)
    requires |rs| == nBatch && forall b :: 0 <= b < nBatch ==> |rs[b]| == |bones|
    requires IndexesBelow(chain, |bones|)
    ensures |pXyz| == nBatch && |pR| == nBatch
    ensures forall b :: 0 <= b < nBatch ==> ChainFold(rs[b], bones, chain) == Accum(pXyz[b], pR[b])
  {
    pXyz := seq(nBatch, _ => Zero);
    pR := seq(nBatch, _ => Identity);
    for i := 0 to |chain|
      invariant |pXyz| == nBatch && |pR| == nBatch
      invariant forall b :: 0 <= b < nBatch ==>
                  ChainFold(rs[b], bones, chain[..i]) == Accum(pXyz[b], pR[b])
    {
      var jid2 := chain[i];
      var curR := seq(nBatch, b requires 0 <= b < nBatch => rs[b][jid2]);
      var curBone := bones[jid2];
      pXyz := seq(nBatch, b requires 0 <= b < nBatch => Add(pXyz[b], VecMat(curBone, pR[b])));
      pR := seq(nBatch, b requires 0 <= b < nBatch => MatMul(curR[b], pR[b]));
      forall b | 0 <= b < nBatch {
        ChainFoldStep(rs[b], bones, chain, i);
      }
    }
    assert chain[..|chain|] == chain;
  }

  /** Stacking the per-joint rows of joint positions gives the forward
      kinematics of every frame. */
  lemma StackIsForwardKinematics(topo: Topology, angles: seq<real>, nBatch: nat, invRot: bool,
                                 cos: real -> real, sin: real -> real, perJoint: seq<seq<Vec3>>)
    requires topo.Valid() && |angles| == nBatch * |topo.bones| * 3
    requires |perJoint| == |topo.bones|
    requires forall j :: 0 <= j < |perJoint| ==> |perJoint[j]| == nBatch
    requires forall j, b :: 0 <= j < |perJoint| && 0 <= b < nBatch ==>
               perJoint[j][b] == JointPosition(Rows(BatchRot3d(Triples(angles), invRot, cos, sin), nBatch, |topo.bones|)[b],
                                               topo.bones, topo.chains[j], j)
    ensures Stack(perJoint, nBatch) == ForwardKinematics(topo, angles, nBatch, invRot, cos, sin)
  {
    var pts := Stack(perJoint, nBatch);
    var fk := ForwardKinematics(topo, angles, nBatch, invRot, cos, sin);
    forall b | 0 <= b < nBatch ensures pts[b] == fk[b] {
      assert |pts[b]| == |fk[b]|;
      forall j | 0 <= j < |topo.bones| ensures pts[b][j] == fk[b][j] {
      }
    }
  }

  /** `euler_fk`: fails with a shape error unless there are exactly three
      angles per joint per frame; otherwise the positions of every joint of
      every frame, axis-swapped and then mirrored. The numpy batch
      dimension is kept as sequences of length `nBatch`. */
  method EulerFk(topo: Topology, angles: seq<real>, nBatch: nat, invRot: bool,
                 cos: real -> real, sin: real -> real,
                 mirror: seq<seq<Vec3>> -> seq<seq<Vec3>>)
    returns (r: Result<seq<seq<Vec3>>>)
    requires topo.Valid()
    ensures r.Err? <==> |angles| != nBatch * |topo.bones| * 3
    ensures r.Err? ==> r.error == ShapeError
    ensures r.Ok? ==> r.value == mirror(SwapAxes(ForwardKinematics(topo, angles, nBatch, invRot, cos, sin)))
  {
    var n := |topo.bones|;
    if |angles| % 3 != 0 {
      return Err(ShapeError);
    }
    var flat := BatchRot3d(Triples(angles), invRot, cos, sin);
    if |flat| != nBatch * n {
      return Err(ShapeError);
    }
    var rs := Rows(flat, nBatch, n);
    var perJoint: seq<seq<Vec3>> := [];
    for jid := 0 to n
      invariant |perJoint| == jid
      invariant forall j :: 0 <= j < jid ==> |perJoint[j]| == nBatch
      invariant forall j, b :: 0 <= j < jid && 0 <= b < nBatch ==>
                  perJoint[j][b] == JointPosition(rs[b], topo.bones, topo.chains[j], j)
    {
      var bone := topo.bones[jid];
      var chain := topo.chains[jid];
      var pXyz, pR := ChainWalk(rs, topo.bones, chain, nBatch);
      var xyz := seq(nBatch, b requires 0 <= b < nBatch => Add(VecMat(bone, pR[b]), pXyz[b]));
      assert forall b :: 0 <= b < nBatch ==> xyz[b] == JointPosition(rs[b], topo.bones, chain, jid);
      perJoint := perJoint + [xyz];
    }
    StackIsForwardKinematics(topo, angles, nBatch, invRot, cos, sin, perJoint);
    var pts := Stack(perJoint, nBatch);
    pts := SwapAxes(pts);
    r := Ok(mirror(pts));
  }

  /* ---------------------------------------------------------------------
     Properties of a single frame
     --------------------------------------------------------------------- */

  /** The offsets of the joints of a chain, in chain order. */
  function ChainOffsets(bones: seq<Vec3>, chain: seq<int>): (offs: seq<Vec3>)
    requires IndexesBelow(chain, |bones|)
    ensures |offs| == |chain|
  {
    seq(|chain|, k requires 0 <= k < |chain| => bones[chain[k]])
  }

  /** With the identity at every joint of the chain, the walk only adds up
      the chain's offsets and the running rotation stays the identity. */
  lemma {:induction false} RestPoseFold(rs: seq<Mat3>, bones: seq<Vec3>, chain: seq<int>)
    requires |rs| == |bones| && IndexesBelow(chain, |bones|)
    requires forall k :: 0 <= k < |chain| ==> rs[chain[k]] == Identity
    ensures ChainFold(rs, bones, chain) == Accum(Sum(ChainOffsets(bones, chain)), Identity)
  {
    if chain != [] {
      var init := chain[..|chain| - 1];
      var a := chain[|chain| - 1];
      RestPoseFold(rs, bones, init);
      assert ChainOffsets(bones, chain) == ChainOffsets(bones, init) + [bones[a]];
      SumAppend(ChainOffsets(bones, init), bones[a]);
      VecMatIdentity(bones[a]);
      MatMulIdentity(Identity);
    }
  }

  /** In the rest pose a joint sits at its own offset plus the offsets of
      all joints of its chain. */
  lemma RestPosePosition(rs: seq<Mat3>, bones: seq<Vec3>, chain: seq<int>, j: int)
    requires |rs| == |bones| && IndexesBelow(chain, |bones|) && 0 <= j < |bones|
    requires forall k :: 0 <= k < |chain| ==> rs[chain[k]] == Identity
    ensures JointPosition(rs, bones, chain, j) == Add(bones[j], Sum(ChainOffsets(bones, chain)))
  {
    RestPoseFold(rs, bones, chain);
    VecMatIdentity(bones[j]);
  }

  /** The walk reads the rotations of the joints of the chain and no others. */
  lemma {:induction false} FoldReadsOnlyChain(rs: seq<Mat3>, rs': seq<Mat3>, bones: seq<Vec3>, chain: seq<int>)
    requires |rs| == |bones| && |rs'| == |bones| && IndexesBelow(chain, |bones|)
    requires forall k :: 0 <= k < |chain| ==> rs[chain[k]] == rs'[chain[k]]
    ensures ChainFold(rs, bones, chain) == ChainFold(rs', bones, chain)
  {
    if chain != [] {
      FoldReadsOnlyChain(rs, rs', bones, chain[..|chain| - 1]);
    }
  }

  /** The position of joint `j` depends only on the rotations of its proper
      ancestors. */
  lemma PositionReadsOnlyAncestors(topo: Topology, rs: seq<Mat3>, rs': seq<Mat3>, j: int)
    requires topo.Valid() && |rs| == |topo.bones| && |rs'| == |topo.bones| && 0 <= j < |topo.bones|
    requires forall a :: a in Ancestors(topo.parent, j) ==> rs[a] == rs'[a]
    ensures FramePositions(topo, rs)[j] == FramePositions(topo, rs')[j]
  {
    FoldReadsOnlyChain(rs, rs', topo.bones, topo.chains[j]);
  }

  /** Changing the rotation of a joint that is not an ancestor of `j` (`j`
      itself, a joint below it or on another branch) leaves `j` in place. */
  lemma OtherRotationsIrrelevant(topo: Topology, rs: seq<Mat3>, j: int, k: int, m: Mat3)
    requires topo.Valid() && |rs| == |topo.bones| && 0 <= j < |topo.bones| && 0 <= k < |topo.bones|
    requires !IsAncestor(topo.parent, k, j)
    ensures FramePositions(topo, rs[k := m])[j] == FramePositions(topo, rs)[j]
  {
    AncestorsExactly(topo.parent, j, k);
    PositionReadsOnlyAncestors(topo, rs[k := m], rs, j);
  }

  /** A root joint sits at its own offset, whatever the rotations. */
  lemma RootAtOffset(topo: Topology, rs: seq<Mat3>, j: int)
    requires topo.Valid() && |rs| == |topo.bones| && 0 <= j < |topo.bones|
    requires topo.parent[j] == -1
    ensures FramePositions(topo, rs)[j] == topo.bones[j]
  {
    VecMatIdentity(topo.bones[j]);
  }

  /** A joint with a parent sits at its parent's position plus its own
      offset turned by the rotations accumulated along its chain. */
  lemma ParentPlusOffset(topo: Topology, rs: seq<Mat3>, j: int)
    requires topo.Valid() && |rs| == |topo.bones| && 0 <= j < |topo.bones|
    requires topo.parent[j] != -1
    ensures var pts := FramePositions(topo, rs);
      pts[j] == Add(pts[topo.parent[j]], VecMat(topo.bones[j], ChainFold(rs, topo.bones, topo.chains[j]).rot))
  {
    var chain := topo.chains[j];
    assert chain == Ancestors(topo.parent, topo.parent[j]) + [topo.parent[j]];
    assert chain[..|chain| - 1] == topo.chains[topo.parent[j]];
  }

  /** Every running rotation is a rotation when the chain's rotations are. */
  lemma {:induction false} FoldOrthonormal(rs: seq<Mat3>, bones: seq<Vec3>, chain: seq<int>)
    requires |rs| == |bones| && IndexesBelow(chain, |bones|)
    requires forall k :: 0 <= k < |chain| ==> Orthonormal(rs[chain[k]])
    ensures Orthonormal(ChainFold(rs, bones, chain).rot)
  {
    if chain == [] {
      OrthonormalIdentity();
    } else {
      var init := chain[..|chain| - 1];
      FoldOrthonormal(rs, bones, init);
      OrthonormalMatMul(rs[chain[|chain| - 1]], ChainFold(rs, bones, init).rot);
    }
  }

  /** With rotations at every joint, each bone keeps its length: a joint is
      exactly as far from its parent as its offset is long. */
  lemma BoneLengthKept(topo: Topology, rs: seq<Mat3>, j: int)
    requires topo.Valid() && |rs| == |topo.bones| && 0 <= j < |topo.bones|
    requires topo.parent[j] != -1
    requires forall a :: 0 <= a < |rs| ==> Orthonormal(rs[a])
    ensures var pts := FramePositions(topo, rs);
      Norm2(Sub(pts[j], pts[topo.parent[j]])) == Norm2(topo.bones[j])
  {
    var pts := FramePositions(topo, rs);
    var rot := ChainFold(rs, topo.bones, topo.chains[j]).rot;
    var d := VecMat(topo.bones[j], rot);
    ParentPlusOffset(topo, rs, j);
    assert Sub(pts[j], pts[topo.parent[j]]) == d;
    FoldOrthonormal(rs, topo.bones, topo.chains[j]);
    OrthonormalPreservesNorm(topo.bones[j], rot);
  }

  /* ---------------------------------------------------------------------
     Properties of the batched computation
     --------------------------------------------------------------------- */

  /** The angle triple of every joint of every frame:
      `reshape(n_batch, n_joints, 3)`. */
  function FrameTriples(angles: seq<real>, nBatch: nat, n: nat): (t: seq<seq<Vec3>>)
    requires |angles| == nBatch * n * 3
    ensures |t| == nBatch
    ensures forall b :: 0 <= b < nBatch ==> |t[b]| == n
  {
    Rows(Triples(angles), nBatch, n)
  }

  /** The triple of joint `a` in frame `b` is read from positions
      `3 (b n + a)` to `3 (b n + a) + 2` of the flat list. */
  lemma FrameTriplesEntry(angles: seq<real>, nBatch: nat, n: nat, b: int, a: int)
    requires |angles| == nBatch * n * 3 && 0 <= b < nBatch && 0 <= a < n
    ensures var i := 3 * (b * n + a);
      && 0 <= i && i + 2 < |angles|
      && FrameTriples(angles, nBatch, n)[b][a] == Vec3(angles[i], angles[i + 1], angles[i + 2])
  {
    RowsEntry(Triples(angles), nBatch, n, b, a);
  }

  /** Frame `b` of the forward kinematics is the single-frame computation on
      the rotations of frame `b`'s own angle triples. */
  lemma FkFrame(topo: Topology, angles: seq<real>, nBatch: nat, invRot: bool,
                cos: real -> real, sin: real -> real, b: int)
    requires topo.Valid() && |angles| == nBatch * |topo.bones| * 3 && 0 <= b < nBatch
    ensures ForwardKinematics(topo, angles, nBatch, invRot, cos, sin)[b]
         == FramePositions(topo, BatchRot3d(FrameTriples(angles, nBatch, |topo.bones|)[b], invRot, cos, sin))
  {
    var n := |topo.bones|;
    var flat := BatchRot3d(Triples(angles), invRot, cos, sin);
    var mine := BatchRot3d(FrameTriples(angles, nBatch, n)[b], invRot, cos, sin);
    forall a | 0 <= a < n ensures Rows(flat, nBatch, n)[b][a] == mine[a] {
      RowsEntry(flat, nBatch, n, b, a);
      RowsEntry(Triples(angles), nBatch, n, b, a);
    }
    assert Rows(flat, nBatch, n)[b] == mine;
  }

  /** Frames are computed independently: two frames with the same angle
      triples get the same positions, whatever batch they sit in. */
  lemma FramesIndependent(topo: Topology, invRot: bool, cos: real -> real, sin: real -> real,
                          angles: seq<real>, nBatch: nat, b: int,
                          angles': seq<real>, nBatch': nat, b': int)
    requires topo.Valid()
    requires |angles| == nBatch * |topo.bones| * 3 && 0 <= b < nBatch
    requires |angles'| == nBatch' * |topo.bones| * 3 && 0 <= b' < nBatch'
    requires FrameTriples(angles, nBatch, |topo.bones|)[b] == FrameTriples(angles', nBatch', |topo.bones|)[b']
    ensures ForwardKinematics(topo, angles, nBatch, invRot, cos, sin)[b]
         == ForwardKinematics(topo, angles', nBatch', invRot, cos, sin)[b']
  {
    FkFrame(topo, angles, nBatch, invRot, cos, sin, b);
    FkFrame(topo, angles', nBatch', invRot, cos, sin, b');
  }

  lemma ShiftRows(b: int, n1: int, n: int)
    ensures b * n - n1 * n == (b - n1) * n
  {
  }

  /** Joining two batches of angles joins their outputs. */
  lemma FkConcat(topo: Topology, invRot: bool, cos: real -> real, sin: real -> real,
                 a1: seq<real>, n1: nat, a2: seq<real>, n2: nat)
    requires topo.Valid()
    requires |a1| == n1 * |topo.bones| * 3 && |a2| == n2 * |topo.bones| * 3
    ensures |a1 + a2| == (n1 + n2) * |topo.bones| * 3
    ensures ForwardKinematics(topo, a1 + a2, n1 + n2, invRot, cos, sin)
         == ForwardKinematics(topo, a1, n1, invRot, cos, sin) + ForwardKinematics(topo, a2, n2, invRot, cos, sin)
  {
    var n := |topo.bones|;
    var all := a1 + a2;
    assert |all| == (n1 + n2) * n * 3;
    var whole := ForwardKinematics(topo, all, n1 + n2, invRot, cos, sin);
    var joined := ForwardKinematics(topo, a1, n1, invRot, cos, sin) + ForwardKinematics(topo, a2, n2, invRot, cos, sin);
    forall b | 0 <= b < n1 + n2 ensures whole[b] == joined[b] {
      var row := FrameTriples(all, n1 + n2, n)[b];
      if b < n1 {
        var row1 := FrameTriples(a1, n1, n)[b];
        forall a | 0 <= a < n ensures row[a] == row1[a] {
          FrameTriplesEntry(all, n1 + n2, n, b, a);
          FrameTriplesEntry(a1, n1, n, b, a);
        }
        assert row == row1;
        FramesIndependent(topo, invRot, cos, sin, all, n1 + n2, b, a1, n1, b);
      } else {
        var row2 := FrameTriples(a2, n2, n)[b - n1];
        forall a | 0 <= a < n ensures row[a] == row2[a] {
          FrameTriplesEntry(all, n1 + n2, n, b, a);
          FrameTriplesEntry(a2, n2, n, b - n1, a);
          ShiftRows(b, n1, n);
        }
        assert row == row2;
        FramesIndependent(topo, invRot, cos, sin, all, n1 + n2, b, a2, n2, b - n1);
      }
    }
  }

  /** Joint `j` of frame `b` depends only on the angle triples of its proper
      ancestors in that frame; its own angles and every other joint's do not
      move it. */
  lemma FkReadsOnlyAncestorAngles(topo: Topology, invRot: bool, cos: real -> real, sin: real -> real,
                                  angles: seq<real>, angles': seq<real>, nBatch: nat, b: int, j: int)
    requires topo.Valid() && 0 <= b < nBatch && 0 <= j < |topo.bones|
    requires |angles| == nBatch * |topo.bones| * 3 && |angles'| == nBatch * |topo.bones| * 3
    requires forall a :: a in Ancestors(topo.parent, j) ==>
               FrameTriples(angles, nBatch, |topo.bones|)[b][a] == FrameTriples(angles', nBatch, |topo.bones|)[b][a]
    ensures ForwardKinematics(topo, angles, nBatch, invRot, cos, sin)[b][j]
         == ForwardKinematics(topo, angles', nBatch, invRot, cos, sin)[b][j]
  {
    var n := |topo.bones|;
    FkFrame(topo, angles, nBatch, invRot, cos, sin, b);
    FkFrame(topo, angles', nBatch, invRot, cos, sin, b);
    PositionReadsOnlyAncestors(topo, BatchRot3d(FrameTriples(angles, nBatch, n)[b], invRot, cos, sin),
                               BatchRot3d(FrameTriples(angles', nBatch, n)[b], invRot, cos, sin), j);
  }

  /** Every root joint, joint 0 of the loaded skeleton among them, stays at
      its offset in every frame, whatever the angles. */
  lemma FkRootFixed(topo: Topology, angles: seq<real>, nBatch: nat, invRot: bool,
                    cos: real -> real, sin: real -> real, b: int, j: int)
    requires topo.Valid() && |angles| == nBatch * |topo.bones| * 3 && 0 <= b < nBatch
    requires 0 <= j < |topo.bones| && topo.parent[j] == -1
    ensures ForwardKinematics(topo, angles, nBatch, invRot, cos, sin)[b][j] == topo.bones[j]
  {
    var n := |topo.bones|;
    FkFrame(topo, angles, nBatch, invRot, cos, sin, b);
    RootAtOffset(topo, BatchRot3d(FrameTriples(angles, nBatch, n)[b], invRot, cos, sin), j);
  }

  /** All-zero angles give the rest pose: each joint at its own offset plus
      the offsets of its chain. */
  lemma FkRestPose(topo: Topology, angles: seq<real>, nBatch: nat, invRot: bool,
                   cos: real -> real, sin: real -> real, b: int, j: int)
    requires topo.Valid() && |angles| == nBatch * |topo.bones| * 3 && 0 <= b < nBatch && 0 <= j < |topo.bones|
    requires cos(0.0) == 1.0 && sin(0.0) == 0.0
    requires forall i :: 0 <= i < |angles| ==> angles[i] == 0.0
    ensures ForwardKinematics(topo, angles, nBatch, invRot, cos, sin)[b][j]
         == Add(topo.bones[j], Sum(ChainOffsets(topo.bones, topo.chains[j])))
  {
    var n := |topo.bones|;
    var rs := BatchRot3d(FrameTriples(angles, nBatch, n)[b], invRot, cos, sin);
    forall a | 0 <= a < n ensures rs[a] == Identity {
      FrameTriplesEntry(angles, nBatch, n, b, a);
      Rot3dAtZero(invRot, cos, sin);
    }
    FkFrame(topo, angles, nBatch, invRot, cos, sin, b);
    RestPosePosition(rs, topo.bones, topo.chains[j], j);
  }

  /** When cos^2 + sin^2 = 1 everywhere, every bone keeps its length in
      every frame. */
  lemma FkBoneLengths(topo: Topology, angles: seq<real>, nBatch: nat, invRot: bool,
                      cos: real -> real, sin: real -> real, b: int, j: int)
    requires topo.Valid() && |angles| == nBatch * |topo.bones| * 3 && 0 <= b < nBatch && 0 <= j < |topo.bones|
    requires topo.parent[j] != -1
    requires forall t :: cos(t) * cos(t) + sin(t) * sin(t) == 1.0
    ensures var pts := ForwardKinematics(topo, angles, nBatch, invRot, cos, sin)[b];
      Norm2(Sub(pts[j], pts[topo.parent[j]])) == Norm2(topo.bones[j])
  {
    var n := |topo.bones|;
    var rs := BatchRot3d(FrameTriples(angles, nBatch, n)[b], invRot, cos, sin);
    forall a | 0 <= a < n ensures Orthonormal(rs[a]) {
      Rot3dOrthonormal(FrameTriples(angles, nBatch, n)[b][a], invRot, cos, sin);
    }
    FkFrame(topo, angles, nBatch, invRot, cos, sin, b);
    BoneLengthKept(topo, rs, j);
  }

  /* ---------------------------------------------------------------------
     The axis swap
     --------------------------------------------------------------------- */

  /** The swap keeps channel 0 and exchanges channels 1 and 2 of every point. */
  lemma SwapAxesChannels(pts: seq<seq<Vec3>>, b: int, j: int)
    requires 0 <= b < |pts| && 0 <= j < |pts[b]|
    ensures SwapAxes(pts)[b][j].x == pts[b][j].x
    ensures SwapAxes(pts)[b][j].y == pts[b][j].z
    ensures SwapAxes(pts)[b][j].z == pts[b][j].y
  {
  }

  /** Swapping twice gives back the input. */
  lemma SwapAxesInvolution(pts: seq<seq<Vec3>>)
    ensures SwapAxes(SwapAxes(pts)) == pts
  {
    var twice := SwapAxes(SwapAxes(pts));
    forall b | 0 <= b < |pts| ensures twice[b] == pts[b] {
      assert |twice[b]| == |pts[b]|;
    }
  }

  /** The swap is a reflection: it keeps distances between points. */
  lemma SwapKeepsDistance(u: Vec3, v: Vec3)
    ensures Norm2(Sub(SwapYZ(u), SwapYZ(v))) == Norm2(Sub(u, v))
  {
  }

  /* ---------------------------------------------------------------------
     The 32-joint skeleton
     --------------------------------------------------------------------- */

  /** The offsets along the chain 0, 1, 2 of the 32-joint skeleton add up
      to 0.132948591 m along -x and 0.442894612 m along -y. */
  lemma LegOffsets(bones: seq<Vec3>)
    requires |bones| > 3
    requires bones[0] == Vec3(0.0, 0.0, 0.0)
    requires bones[1] == Vec3(-0.132948591, 0.0, 0.0)
    requires bones[2] == Vec3(0.0, -0.442894612, 0.0)
    ensures Sum(ChainOffsets(bones, [0, 1, 2])) == Vec3(-0.132948591, -0.442894612, 0.0)
  {
    var b0, b1, b2 := bones[0], bones[1], bones[2];
    assert ChainOffsets(bones, [0, 1, 2]) == [b0, b1, b2];
    assert [b0, b1, b2][..2] == [b0, b1];
    assert [b0, b1][..1] == [b0];
    assert Sum([b0]) == Add(Zero, b0);
    assert Sum([b0, b1]) == Add(Sum([b0]), b1);
    assert Sum([b0, b1, b2]) == Add(Sum([b0, b1]), b2);
  }

  /** In the rest pose of the 32-joint skeleton, joint 3 (below the chain
      0, 1, 2) lies 0.132948591 m along -x and 0.897101059 m along -y before
      the swap, which puts it along -z after. */
  lemma HardcodedJoint3AtRest(topo: Topology, angles: seq<real>, nBatch: nat, invRot: bool,
                              cos: real -> real, sin: real -> real, b: int)
    requires topo.Valid() && topo.parent == Hardcoded.parent && topo.bones == Hardcoded.bones
    requires |angles| == nBatch * |topo.bones| * 3 && 0 <= b < nBatch
    requires cos(0.0) == 1.0 && sin(0.0) == 0.0
    requires forall i :: 0 <= i < |angles| ==> angles[i] == 0.0
    ensures 3 < |topo.bones|
    ensures ForwardKinematics(topo, angles, nBatch, invRot, cos, sin)[b][3]
         == Vec3(-0.132948591, -0.897101059, 0.0)
    ensures SwapAxes(ForwardKinematics(topo, angles, nBatch, invRot, cos, sin))[b][3]
         == Vec3(-0.132948591, 0.0, -0.897101059)
  {
    HardcodedChains();
    HardcodedLegBones();
    FkRestPose(topo, angles, nBatch, invRot, cos, sin, b, 3);
    assert topo.chains[3] == [0, 1, 2];
    LegOffsets(topo.bones);
  }
}
