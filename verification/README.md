# Forward kinematics of the 32-joint Human3.6M skeleton

This project models the forward-kinematics engine of `h36m_fa/fk.py` and
proves properties of the model. The engine turns per-joint Euler angles,
for a batch of frames, into the global 3D position of every joint of a
fixed 32-joint skeleton.

- **Skeleton** (`skeleton.dfy`): the hardcoded tables, the chain
  computation and the module's load step. The tables are the one-based
  parent table and the flat list of bone offsets in millimetres. Loading
  makes the parent table zero-based (-1 marks the root), turns the offsets
  into metres with one row per joint, and checks that both tables have the
  same length. `calculate_chain` then gives every joint its list of proper
  ancestors, root first.
- **Rotation** (`rotation.dfy`): `batch_rot3d`. Each angle triple
  (x, y, z) becomes `Rz·Ry·Rx`. With `inv_rot` the matrix is transposed.
- **Kinematics** (`kinematics.dfy`): `euler_fk`. For every joint, its chain
  is walked root first from `p = 0`, `P = I`. At each ancestor `a` the walk
  does `p += bone[a]·P` and then `P = R[a]·P`. The joint lands at
  `bone[j]·P + p`. Positions are stacked per frame, channels y and z are
  swapped, and the mirror correction is applied last.
- **LinAlg** (`linalg.dfy`) and **Errors** (`errors.dfy`) hold the vectors,
  matrices and result type these use.

`Kinematics.EulerFk` is the imperative method. Its loop over the joints
calls `Kinematics.ChainWalk`, which holds the inner loop over the chain,
with a batch-wide update in each step. `Skeleton.CalculateChain` is split
the same way: its loop calls `Skeleton.WalkUp`, which holds the upward walk.
The contract of `EulerFk` ties the result to the recursive specification
`ForwardKinematics` (built on `ChainFold`). Besides its recursive form, the
walk has a closed form (`ChainFold`, `ChainFoldTranslation`,
`JointPositionClosedForm`): the running rotation is the product of the
chain's rotations, and a joint's position is the sum of the offsets along
its chain, each turned by the rotations above it. The properties are proved
about that specification:

- only the ancestors' rotations move a joint;
- a root stays at its offset;
- the rest pose is the sum of the offsets along the chain;
- every bone keeps its length when the matrices are rotations;
- frames are independent, and joining two batches joins their outputs;
- the channel swap is an involution.

The bone table in `h36m_fa/fk.py` gives joint 1 the offset
(-132.948591, 0, 0) mm, and joints 2 and 3 hang below it along -y:
(0, -442.894612, 0) and (0, -454.206447, 0). In the rest pose, joint 3 is
therefore at
(-0.132948591, -0.897101059, 0) m before the swap and at
(-0.132948591, 0, -0.897101059) m after it (`HardcodedJoint3AtRest`).

The model works over the reals. Sine and cosine are parameters, and so is
the mirror correction (`h36m_fa/mirror.py` is not part of this model).
Angles come as the flattened input array together with `n_batch`. A
`n_batch × L` array is read row by row, and `euler_fk` fails with a shape
error exactly when `n_batch · L ≠ n_batch · 32 · 3`.

## Model

| member | source | states |
|---|---|---|
| Skeleton.LoadTables | h36m_fa/fk.py:5-149 | Loading succeeds exactly when there are three offsets per parent entry. A length that is not a multiple of three is a shape error; otherwise a length mismatch is a configuration error. Each parent entry is the raw entry minus one, and each offset is the raw millimetre value divided by 1000. |
| Skeleton.Ancestors | h36m_fa/fk.py:155-163 | A joint's chain has at most `j` entries, all in `[0, j)`. It is empty exactly for a root, and otherwise ends at the joint's parent. |
| Skeleton.PathTo | h36m_fa/fk.py:158-160 | The path down to joint `c` ends at `c`, has at most `c + 1` entries, all in `[0, c]`, and is empty only for the sentinel -1. |
| Skeleton.AncestorChainShape | h36m_fa/fk.py:156-162 | A chain starts at a root, each entry is the parent of the next, it ends at the parent, its indices strictly increase, and it never holds the sentinel -1. |
| Skeleton.PathLinked | h36m_fa/fk.py:158-160 | The upward walk read root first is linked parent to child, starts at a root and strictly increases. |
| Skeleton.AncestorsExactly | h36m_fa/fk.py:156-160 | `a` is in the chain of `j` if and only if `a` is reached from `j` by following parent links one or more times. |
| Skeleton.AncestorsPrefix | h36m_fa/fk.py:153-164 | The chain of the k-th ancestor of `j` is the first k entries of the chain of `j`. |
| Skeleton.Reverse | h36m_fa/fk.py:161 | The reversed list has the same length, and its first and last entries trade places. |
| Skeleton.ReverseEntries | h36m_fa/fk.py:161 | Entry `k` of the reversed list is entry `n - 1 - k` of the input. |
| Skeleton.ReverseSnoc | h36m_fa/fk.py:159-161 | Reversing a list with one more joint appended puts that joint in front. |
| Skeleton.WalkStep | h36m_fa/fk.py:158-160 | One step up the parent links keeps the walk invariant: the chain equals the path to the joint just reached followed by the reversed list of joints met before it. |
| Skeleton.WalkDone | h36m_fa/fk.py:161-162 | Once the walk has appended the sentinel, reversing and dropping the front leaves exactly the ancestor list. |
| Skeleton.WalkUp | h36m_fa/fk.py:156-162 | The walk for one joint returns exactly that joint's ancestor list, root first. |
| Skeleton.CalculateChain | h36m_fa/fk.py:153-164 | The method returns one chain per joint, and the chain of joint `j` is exactly its ancestor list, root first, without the -1 sentinel. |
| Skeleton.Load | h36m_fa/fk.py:5-167 | Load fails exactly when the tables fail to load, and with the same error. On success the topology is valid: the loaded tables, equal lengths, parents below each joint, and every joint's chain precomputed. |
| Skeleton.HardcodedTree | h36m_fa/fk.py:5-43 | The hardcoded tables have 32 joints. Joint 0 is the only root, and every other joint has a parent of smaller index. |
| Skeleton.HardcodedParent | h36m_fa/fk.py:5-43 | The zero-based parent table equals the one-based literal with one subtracted from every entry. |
| Skeleton.TableChains | h36m_fa/fk.py:5-43 | In the zero-based table, joint 3's chain is 0, 1, 2 and joint 31's chain is 0, 11, 12, 24, 25, 26, 27, 30. |
| Skeleton.TablePathToKnee | h36m_fa/fk.py:5-43 | In the zero-based table, the path down to joint 2 is 0, 1, 2. |
| Skeleton.TablePathToArm | h36m_fa/fk.py:5-43 | In the zero-based table, the path down to joint 24 is 0, 11, 12, 24. |
| Skeleton.TablePathToHand | h36m_fa/fk.py:5-43 | In the zero-based table, the path down to joint 30 is 0, 11, 12, 24, 25, 26, 27, 30. |
| Skeleton.HardcodedChains | h36m_fa/fk.py:153-167 | The loaded skeleton gives joint 3 the chain 0, 1, 2 and joint 31 the chain 0, 11, 12, 24, 25, 26, 27, 30. |
| Skeleton.HardcodedLegBones | h36m_fa/fk.py:45-148 | The offsets of joints 0 to 3 in metres are (0, 0, 0), (-0.132948591, 0, 0), (0, -0.442894612, 0) and (0, -0.454206447, 0). |
| Rotation.RotX | h36m_fa/fk.py:219-230 | The x-axis matrix leaves the x axis in place, and its determinant is cos² + sin² of its angle. |
| Rotation.RotY | h36m_fa/fk.py:232-245 | The y-axis matrix leaves the y axis in place, and its determinant is cos² + sin² of its angle. |
| Rotation.RotZ | h36m_fa/fk.py:247-258 | The z-axis matrix leaves the z axis in place, and its determinant is cos² + sin² of its angle. |
| Rotation.Rot3d | h36m_fa/fk.py:211-263 | For one triple, with or without the flag, the determinant is the product of the three cos² + sin² values, so it is 1 for true sines and cosines. |
| Rotation.BatchRot3d | h36m_fa/fk.py:211-263 | Its own contract gives one matrix per triple. What the matrices are is stated by `BatchRot3dClosedForm`, `BatchRot3dInverse`, `Rot3dInverseOrder`, `Rot3dAtZero` and `Rot3dOrthonormal`. |
| Rotation.ZyxProduct | h36m_fa/fk.py:259-260 | `Rz·Ry·Rx` multiplied out equals the textbook Z-Y-X closed form, entry by entry. |
| Rotation.BatchRot3dClosedForm | h36m_fa/fk.py:219-260 | Without the flag, each matrix is the textbook Z-Y-X closed form built from the cosines and sines of its own triple. |
| Rotation.BatchRot3dInverse | h36m_fa/fk.py:261-262 | With the flag, every matrix is the exact transpose of the unflagged one. |
| Rotation.Rot3dInverseOrder | h36m_fa/fk.py:259-262 | The flagged matrix is the product of the elementary matrices with their sines negated, in the reverse order (x, y, z). |
| Rotation.Rot3dAtZero | h36m_fa/fk.py:219-262 | If cos 0 = 1 and sin 0 = 0, the zero triple gives the identity, with or without the flag. |
| Rotation.Rot3dOrthonormal | h36m_fa/fk.py:219-262 | If cos² + sin² = 1 for the three angles, the matrix is a rotation (`R·Rᵀ = I`, `det R = 1`), with or without the flag. |
| Rotation.ElementaryOrthonormal | h36m_fa/fk.py:219-258 | Rx, Ry and Rz are rotations when cos² + sin² = 1. |
| LinAlg.VecMatAssoc | h36m_fa/fk.py:196-198 | Turning a row vector by `a` and then by `b` is the same as turning it by `a·b`. |
| LinAlg.MatMulAssoc | h36m_fa/fk.py:259-260 | Matrix products are associative. |
| LinAlg.TransposeMatMul | h36m_fa/fk.py:261-262 | The transpose of a product is the product of the transposes in reverse order. |
| LinAlg.DetMatMul | h36m_fa/fk.py:259-260 | The determinant of a product is the product of the determinants. |
| LinAlg.DetTranspose | h36m_fa/fk.py:261-262 | Transposing keeps the determinant. |
| LinAlg.OrthonormalMatMul | h36m_fa/fk.py:197 | The product of two rotations is a rotation. |
| LinAlg.OrthonormalPreservesNorm | h36m_fa/fk.py:196 | A rotation keeps the length of every row vector it turns. |
| LinAlg.SumAppend | h36m_fa/fk.py:196 | Summing offsets extended at the back adds the last offset. |
| Kinematics.ChainFold | h36m_fa/fk.py:186-197 | The running rotation `p_R` after walking a chain is the product of the chain's rotations, deepest joint on the left. |
| Kinematics.ChainRotationSnoc | h36m_fa/fk.py:197 | Walking one more joint multiplies its rotation in on the left of the running rotation. |
| Kinematics.ChainFoldStep | h36m_fa/fk.py:190-197 | One more joint of the chain adds that joint's offset, turned by the running rotation, to `p_xyz`, and multiplies its rotation into `p_R`. |
| Kinematics.ChainFoldTranslation | h36m_fa/fk.py:186-197 | The running translation `p_xyz` is the sum of the chain's offsets, each turned by the rotations of the joints above it. |
| Kinematics.JointPosition | h36m_fa/fk.py:184-198 | The position of one joint in one frame: its offset turned by the walk's rotation plus the walk's translation. Its contract is stated by `JointPositionClosedForm`. |
| Kinematics.JointPositionClosedForm | h36m_fa/fk.py:184-198 | A joint's position is the sum of the offsets along its chain extended by the joint itself, each turned by the rotations of the joints above it. |
| Kinematics.FramePositions | h36m_fa/fk.py:181-200 | One frame gives one position per joint. The positions are described by `JointPositionClosedForm`, `RootAtOffset`, `ParentPlusOffset` and `BoneLengthKept`. |
| Kinematics.Triples | h36m_fa/fk.py:175 | Reading the flat angles as triples gives a third as many triples. `TriplesFlatten` and `FlattenTriples` show that nothing is lost. |
| Kinematics.TriplesFlatten | h36m_fa/fk.py:175 | Flattening the triples read from a flat list gives back that list. |
| Kinematics.FlattenTriples | h36m_fa/fk.py:175 | Reading back flattened triples gives back the same triples. |
| Kinematics.Rows | h36m_fa/fk.py:177 | The reshape gives `rows` rows of `cols` entries each. `RowsEntry` states where each entry comes from. |
| Kinematics.RowsEntry | h36m_fa/fk.py:177 | After the reshape, entry `j` of row `b` is entry `b·cols + j` of the flat list. |
| Kinematics.FrameTriplesEntry | h36m_fa/fk.py:174-175 | The triple of joint `a` in frame `b` is read from flat positions `3(b·n + a)` to `3(b·n + a) + 2`. |
| Kinematics.ForwardKinematics | h36m_fa/fk.py:174-202 | The positions come as `n_batch` frames of one point per joint. Their values are stated by `FkFrame` and the lemmas after it. |
| Kinematics.Stack | h36m_fa/fk.py:202 | Stacking per-joint rows gives `n_batch` frames of one point per joint. |
| Kinematics.StackInvolution | h36m_fa/fk.py:202 | Stacking the frames back along the joint axis gives the per-joint rows, so no point is lost or moved. |
| Kinematics.ChainWalk | h36m_fa/fk.py:186-197 | The inner loop run on all frames at once ends with `p_xyz` and `p_R` of every frame equal to the walk of that frame's chain. |
| Kinematics.StackIsForwardKinematics | h36m_fa/fk.py:180-202 | Stacking per-joint rows of joint positions gives the forward kinematics of every frame. |
| Kinematics.EulerFk | h36m_fa/fk.py:170-208 | The method fails with a shape error exactly when the angle count is not `n_batch · n_joints · 3`. Otherwise it returns the mirrored, axis-swapped chain-walk positions of every joint of every frame. |
| Kinematics.RestPoseFold | h36m_fa/fk.py:186-197 | With the identity at every chain joint, the walk's translation is the sum of the chain offsets and its rotation stays the identity. |
| Kinematics.RestPosePosition | h36m_fa/fk.py:186-198 | In the rest pose, a joint is at its own offset plus the sum of its chain's offsets. |
| Kinematics.FoldReadsOnlyChain | h36m_fa/fk.py:190-197 | Two rotation lists that agree on the chain joints give the same walk. |
| Kinematics.PositionReadsOnlyAncestors | h36m_fa/fk.py:184-198 | A joint's position depends only on the rotations of its proper ancestors. |
| Kinematics.OtherRotationsIrrelevant | h36m_fa/fk.py:184-198 | Changing the rotation of a joint that is not an ancestor of `j`, including `j` itself, does not move `j`. |
| Kinematics.RootAtOffset | h36m_fa/fk.py:186-198 | A root joint is at its own offset, whatever the rotations. |
| Kinematics.ParentPlusOffset | h36m_fa/fk.py:190-198 | A non-root joint is at its parent's position plus its own offset, turned by the rotation accumulated along its chain. |
| Kinematics.FoldOrthonormal | h36m_fa/fk.py:187-197 | If every chain rotation is a rotation, so is every running rotation `p_R`. |
| Kinematics.BoneLengthKept | h36m_fa/fk.py:190-198 | With rotations at every joint, a joint is exactly as far from its parent as its offset is long. |
| Kinematics.FkFrame | h36m_fa/fk.py:174-202 | Frame `b` of the batched result is the single-frame computation on the rotations of frame `b`'s own angle triples. |
| Kinematics.FramesIndependent | h36m_fa/fk.py:174-202 | Two frames with equal angle triples get equal positions, whichever batches and rows they sit in. |
| Kinematics.FkConcat | h36m_fa/fk.py:174-202 | The result for two concatenated batches is the concatenation of the two results. |
| Kinematics.FkReadsOnlyAncestorAngles | h36m_fa/fk.py:174-202 | Joint `j` of frame `b` depends only on the angle triples of its proper ancestors in that frame. |
| Kinematics.FkRootFixed | h36m_fa/fk.py:174-202 | In every frame and for any angles, each root joint (joint 0 of the loaded skeleton) is at its offset. |
| Kinematics.FkRestPose | h36m_fa/fk.py:174-202 | If cos 0 = 1 and sin 0 = 0, all-zero angles put every joint at its offset plus its chain's offsets. |
| Kinematics.FkBoneLengths | h36m_fa/fk.py:174-202 | If cos² + sin² = 1 everywhere, every bone keeps its length in every frame. |
| Kinematics.SwapYZ | h36m_fa/fk.py:204 | The swap of one point keeps channel 0 and the point's length. |
| Kinematics.SwapAxes | h36m_fa/fk.py:204 | The swap keeps the shape of the batch. What it does is stated by `SwapAxesChannels`, `SwapAxesInvolution` and `SwapKeepsDistance`. |
| Kinematics.SwapAxesChannels | h36m_fa/fk.py:204 | The swap keeps channel 0 and exchanges channels 1 and 2 of every point. |
| Kinematics.SwapAxesInvolution | h36m_fa/fk.py:204 | Swapping twice gives back the input. |
| Kinematics.SwapKeepsDistance | h36m_fa/fk.py:204 | The swap keeps distances between points. |
| Kinematics.LegOffsets | h36m_fa/fk.py:45-59 | The offsets of chain 0, 1, 2 add up to (-0.132948591, -0.442894612, 0) m. |
| Kinematics.HardcodedJoint3AtRest | h36m_fa/fk.py:170-204 | For the loaded skeleton, all-zero angles put joint 3 at (-0.132948591, -0.897101059, 0) before the swap and at (-0.132948591, 0, -0.897101059) after it. |

## Left out

- `mirror_p3d` (`h36m_fa/mirror.py` is not part of this model): it is a parameter, applied last, and the properties are stated about its input.
- Trigonometry: `np.cos` and `np.sin` are parameters. Lemmas that need their values assume cos 0 = 1, sin 0 = 0 or cos² + sin² = 1.
- Floating point: the `float32` casts and all rounding. The model computes over exact reals, so `-0.0` in the Y matrix is plain zero.
- numpy plumbing: `tile`, `expand_dims` and the batch axes are sequences indexed by frame. The per-joint matrix products are written out for 3×3 matrices.
- Input shape: angles arrive flattened, with `n_batch` passed alongside. Only the total count is checked, which matches the two reshapes in the code.
- Skeleton.CalculateChain: requires every parent entry below `n_joints` to lie in `[-1, jid)`. With another table the Python loop may not terminate or may raise an index error. The source also treats a root marked by any negative value like -1 (the walk stops at it, and `reverse` followed by `pop(0)` drops it), but `Rooted` excludes such tables. That behaviour is not modelled.
- Skeleton.Load: requires every one-based raw parent entry to lie in `[0, i]`, which `Skeleton.HardcodedTree` shows the hardcoded table meets. Other tables are not modelled.
- Rotation.BatchRot3d: its own contract states only the length. The matrices it returns are described by `BatchRot3dClosedForm`, `BatchRot3dInverse` and the lemmas after them.
- `h36m_fa/poses.py`, the preprocessing scripts and the samples: dataset loading and caching around the engine, not part of the forward kinematics.
