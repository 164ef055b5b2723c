/** The fixed 32-joint skeleton of the forward-kinematics code: the parent
    table, the bone offsets and the root-first ancestor chain of every joint
    (h36m_fa/fk.py, lines 5-167). */
module Skeleton {
  import opened LinAlg
  import opened Errors

  /** The parent table as the source writes it, one-based, so that 0 marks
      the root; the code subtracts one from every entry. */
  const RawParent: seq<int> :=
    [0, 1, 2, 3, 4, 5, 1, 7, 8, 9, 10, 1, 12, 13, 14, 15,
     13, 17, 18, 19, 20, 21, 20, 23, 13, 25, 26, 27, 28, 29, 28, 31]

  /** Bone offsets in millimetres: one flat list, three coordinates per
      joint, written here one joint per line. */
  const RawBones: seq<real> :=
      [0.0, 0.0, 0.0]  // joint 0
    + [-132.948591, 0.0, 0.0]  // joint 1
    + [0.0, -442.894612, 0.0]  // joint 2
    + [0.0, -454.206447, 0.0]  // joint 3
    + [0.0, 0.0, 162.767078]  // joint 4
    + [0.0, 0.0, 74.999437]  // joint 5
    + [132.948826, 0.0, 0.0]  // joint 6
    + [0.0, -442.894413, 0.0]  // joint 7
    + [0.0, -454.20659, 0.0]  // joint 8
    + [0.0, 0.0, 162.767426]  // joint 9
    + [0.0, 0.0, 74.999948]  // joint 10
    + [0.0, 0.1, 0.0]  // joint 11
    + [0.0, 233.383263, 0.0]  // joint 12
    + [0.0, 257.077681, 0.0]  // joint 13
    + [0.0, 121.134938, 0.0]  // joint 14
    + [0.0, 115.002227, 0.0]  // joint 15
    + [0.0, 257.077681, 0.0]  // joint 16
    + [0.0, 151.034226, 0.0]  // joint 17
    + [0.0, 278.882773, 0.0]  // joint 18
    + [0.0, 251.733451, 0.0]  // joint 19
    + [0.0, 0.0, 0.0]  // joint 20
    + [0.0, 0.0, 99.999627]  // joint 21
    + [0.0, 100.000188, 0.0]  // joint 22
    + [0.0, 0.0, 0.0]  // joint 23
    + [0.0, 257.077681, 0.0]  // joint 24
    + [0.0, 151.031437, 0.0]  // joint 25
    + [0.0, 278.892924, 0.0]  // joint 26
    + [0.0, 251.72868, 0.0]  // joint 27
    + [0.0, 0.0, 0.0]  // joint 28
    + [0.0, 0.0, 99.999888]  // joint 29
    + [0.0, 137.499922, 0.0]  // joint 30
    + [0.0, 0.0, 0.0]  // joint 31

  /** The zero-based parent table (-1 marks a root) and one bone offset per
      joint, in metres. */
  datatype Tables = Tables(parent: seq<int>, bones: seq<Vec3>)

  /** Builds the tables from the raw constants. Reshaping the flat bone list
      into rows of three fails unless its length is a multiple of three; the
      length check between the two tables fails unless there is one row per
      joint. */
  function LoadTables(rawParent: seq<int>, rawBones: seq<real>): (r: Result<Tables>)
    ensures r.Ok? <==> |rawBones| == 3 * |rawParent|
    ensures r.Err? ==> (r.error == ShapeError <==> |rawBones| % 3 != 0)
    ensures r.Ok? ==> |r.value.parent| == |r.value.bones| == |rawParent|
    ensures r.Ok? ==> forall i :: 0 <= i < |rawParent| ==> r.value.parent[i] + 1 == rawParent[i]
    ensures r.Ok? ==> forall i :: 0 <= i < |rawParent| ==>
              && 1000.0 * r.value.bones[i].x == rawBones[3 * i]
              && 1000.0 * r.value.bones[i].y == rawBones[3 * i + 1]
              && 1000.0 * r.value.bones[i].z == rawBones[3 * i + 2]
  {
    if |rawBones| % 3 != 0 then Err(ShapeError)
    else
      var parent := seq(|rawParent|, i requires 0 <= i < |rawParent| => rawParent[i] - 1);
      var bones := seq(|rawBones| / 3, i requires 0 <= i < |rawBones| / 3 =>
        Vec3(rawBones[3 * i] / 1000.0, rawBones[3 * i + 1] / 1000.0, rawBones[3 * i + 2] / 1000.0));
      if |parent| != |bones| then Err(ConfigurationError)
      else Ok(Tables(parent, bones))
  }

  /** The tables of the 32-joint skeleton. */
  const Hardcoded: Tables := LoadTables(RawParent, RawBones).value

  /** Every joint below `n` has a parent of smaller index, or -1 for a root:
      the condition under which walking parent links upward stops. */
  predicate Rooted(parent: seq<int>, n: int) {
    0 <= n <= |parent| && forall i :: 0 <= i < n ==> -1 <= parent[i] < i
  }

  /** The path from a root down to joint `c`, both ends included; empty for
      the sentinel `c == -1`. */
  function PathTo(parent: seq<int>, c: int): (path: seq<int>)
    requires -1 <= c && Rooted(parent, c + 1)
    ensures |path| <= c + 1
    ensures forall k :: 0 <= k < |path| ==> 0 <= path[k] <= c
    ensures c >= 0 ==> path != [] && path[|path| - 1] == c
    decreases c + 1
  {
    if c == -1 then [] else PathTo(parent, parent[c]) + [c]
  }

  /** The proper ancestors of joint `j`, root first. */
  function Ancestors(parent: seq<int>, j: int): (chain: seq<int>)
    requires 0 <= j && Rooted(parent, j + 1)
    ensures |chain| <= j
    ensures forall k :: 0 <= k < |chain| ==> 0 <= chain[k] < j
    ensures chain == [] <==> parent[j] == -1
    ensures chain != [] ==> chain[|chain| - 1] == parent[j]
  {
    PathTo(parent, parent[j])
  }

  /** Reference definition: `a` is reached from `j` by following parent
      links one or more times. */
  predicate IsAncestor(parent: seq<int>, a: int, j: int)
    requires 0 <= j && Rooted(parent, j + 1)
    decreases j
  {
    parent[j] != -1 && (a == parent[j] || IsAncestor(parent, a, parent[j]))
  }

  /** Along a path from a root, each joint is the parent of the next, the
      first joint is a root, and the indices strictly increase. */
  lemma {:induction false} PathLinked(parent: seq<int>, c: int)
    requires -1 <= c && Rooted(parent, c + 1)
    ensures var path := PathTo(parent, c);
      && (path != [] ==> parent[path[0]] == -1)
      && (forall k :: 0 <= k < |path| - 1 ==> parent[path[k + 1]] == path[k])
      && (forall k, l :: 0 <= k < l < |path| ==> path[k] < path[l])
    decreases c + 1
  {
    if c != -1 {
      PathLinked(parent, parent[c]);
    }
  }

  /** The shape of an ancestor chain: it starts at a root, each joint in it is
      the parent of the next, it ends at the joint's parent, it is ordered
      root first (strictly increasing indices) and the sentinel -1 is not in it. */
  lemma AncestorChainShape(parent: seq<int>, j: int)
    requires 0 <= j && Rooted(parent, j + 1)
    ensures var chain := Ancestors(parent, j);
      && (chain != [] ==> parent[chain[0]] == -1 && chain[|chain| - 1] == parent[j])
      && (forall k :: 0 <= k < |chain| - 1 ==> parent[chain[k + 1]] == chain[k])
      && (forall k, l :: 0 <= k < l < |chain| ==> chain[k] < chain[l])
      && -1 !in chain
  {
    PathLinked(parent, parent[j]);
  }

  /** The chain holds exactly the joints reached by following parent links. */
  lemma {:induction false} AncestorsExactly(parent: seq<int>, j: int, a: int)
    requires 0 <= j && Rooted(parent, j + 1)
    ensures a in Ancestors(parent, j) <==> IsAncestor(parent, a, j)
    decreases j
  {
    if parent[j] != -1 {
      AncestorsExactly(parent, parent[j], a);
      assert Ancestors(parent, j) == Ancestors(parent, parent[j]) + [parent[j]];
    }
  }

  /** The chain of an ancestor is the part of the chain in front of it. */
  lemma {:induction false} AncestorsPrefix(parent: seq<int>, j: int, k: int)
    requires 0 <= j && Rooted(parent, j + 1)
    requires 0 <= k < |Ancestors(parent, j)|
    ensures Ancestors(parent, Ancestors(parent, j)[k]) == Ancestors(parent, j)[..k]
    decreases j
  {
    var chain := Ancestors(parent, j);
    var up := Ancestors(parent, parent[j]);
    assert chain == up + [parent[j]];
    if k < |up| {
      AncestorsPrefix(parent, parent[j], k);
      assert chain[..k] == up[..k];
    } else {
      assert chain[..k] == up;
    }
  }

  /** The list reversed in place: its first and last entries trade places. */
  function Reverse(s: seq<int>): (r: seq<int>)
    ensures |r| == |s|
    ensures s != [] ==> r[0] == s[|s| - 1] && r[|s| - 1] == s[0]
  {
    if s == [] then [] else [s[|s| - 1]] + Reverse(s[..|s| - 1])
  }

  /** Every entry of the reversed list comes from the mirrored position. */
  lemma {:induction false} ReverseEntries(s: seq<int>)
    ensures forall k :: 0 <= k < |s| ==> Reverse(s)[k] == s[|s| - 1 - k]
  {
    if s != [] {
      ReverseEntries(s[..|s| - 1]);
    }
  }

  /** Reversing a list with one more entry puts that entry in front. */
  lemma ReverseSnoc(s: seq<int>, c: int)
    ensures Reverse(s + [c]) == [c] + Reverse(s)
  {
    assert (s + [c])[..|s|] == s;
  }

  /** One step of the upward walk keeps the walk's invariant: the ancestor
      list is the path to the joint just reached followed by the reverse of
      the joints met before it. */
  lemma WalkStep(parent: seq<int>, jid: int, chain: seq<int>)
    requires 0 <= jid && Rooted(parent, jid + 1)
    requires |chain| >= 1 && 0 <= chain[|chain| - 1] < jid
    requires Ancestors(parent, jid) == PathTo(parent, chain[|chain| - 1]) + Reverse(chain[..|chain| - 1])
    ensures var next := chain + [parent[chain[|chain| - 1]]];
      Ancestors(parent, jid) == PathTo(parent, next[|next| - 1]) + Reverse(next[..|next| - 1])
  {
    var c := chain[|chain| - 1];
    var init := chain[..|chain| - 1];
    var next := chain + [parent[c]];
    assert next[..|next| - 1] == init + [c];
    ReverseSnoc(init, c);
    assert PathTo(parent, c) == PathTo(parent, parent[c]) + [c];
  }

  /** Once the walk reaches the sentinel, reversing the list and dropping
      its front gives the ancestor list. */
  lemma WalkDone(parent: seq<int>, jid: int, chain: seq<int>)
    requires 0 <= jid && Rooted(parent, jid + 1)
    requires |chain| >= 1 && chain[|chain| - 1] == -1
    requires Ancestors(parent, jid) == PathTo(parent, -1) + Reverse(chain[..|chain| - 1])
    ensures |Reverse(chain)| >= 1 && Reverse(chain)[1..] == Ancestors(parent, jid)
  {
    ReverseSnoc(chain[..|chain| - 1], -1);
    assert chain[..|chain| - 1] + [-1] == chain;
  }

  /** The body of the outer loop for joint `jid`: walks the parent links
      upward collecting every joint met and the -1 sentinel, reverses the
      list and drops the sentinel from its front. */
  method WalkUp(parent: seq<int>, jid: int) returns (chain: seq<int>)
    requires 0 <= jid && Rooted(parent, jid + 1)
    ensures chain == Ancestors(parent, jid)
  {
    var current := parent[jid];
    chain := [current];
    while current > -1
      invariant -1 <= current < jid
      invariant |chain| >= 1 && chain[|chain| - 1] == current
      invariant Ancestors(parent, jid) == PathTo(parent, current) + Reverse(chain[..|chain| - 1])
      decreases current
    {
      WalkStep(parent, jid, chain);
      current := parent[current];
      chain := chain + [current];
    }
    WalkDone(parent, jid, chain);
    chain := Reverse(chain);
    chain := chain[1..];
  }

  /** The chain of every joint below `nJoints`, root first. */
  method CalculateChain(parent: seq<int>, nJoints: nat) returns (chainPerJoint: seq<seq<int>>)
    requires Rooted(parent, nJoints)
    ensures |chainPerJoint| == nJoints
    ensures forall j :: 0 <= j < nJoints ==> chainPerJoint[j] == Ancestors(parent, j)
  {
    chainPerJoint := [];
    for jid := 0 to nJoints
      invariant |chainPerJoint| == jid
      invariant forall j :: 0 <= j < jid ==> chainPerJoint[j] == Ancestors(parent, j)
    {
      var chain := WalkUp(parent, jid);
      chainPerJoint := chainPerJoint + [chain];
    }
  }

  /** The topology as the module holds it once loaded: the tables and the
      chain of every joint. */
  datatype Topology = Topology(parent: seq<int>, bones: seq<Vec3>, chains: seq<seq<int>>) {
    predicate Valid() {
      && |bones| == |parent|
      && |chains| == |parent|
      && Rooted(parent, |parent|)
      && forall j :: 0 <= j < |parent| ==> chains[j] == Ancestors(parent, j)
    }
  }

  /** Module initialisation: load the tables, check their lengths and
      precompute every joint's chain. */
  method Load(rawParent: seq<int>, rawBones: seq<real>) returns (r: Result<Topology>)
    requires forall i :: 0 <= i < |rawParent| ==> 0 <= rawParent[i] <= i
    ensures r.Ok? <==> LoadTables(rawParent, rawBones).Ok?
    ensures r.Err? ==> r.error == LoadTables(rawParent, rawBones).error
    ensures r.Ok? ==>
              && r.value.Valid()
              && r.value.parent == LoadTables(rawParent, rawBones).value.parent
              && r.value.bones == LoadTables(rawParent, rawBones).value.bones
  {
    var loaded := LoadTables(rawParent, rawBones);
    if loaded.Err? {
      return Err(loaded.error);
    }
    var tables := loaded.value;
    var chains := CalculateChain(tables.parent, |tables.parent|);
    return Ok(Topology(tables.parent, tables.bones, chains));
  }

  /** The hardcoded tables load, have 32 joints, and form a single tree
      rooted at joint 0. */
  lemma HardcodedTree()
    ensures |Hardcoded.parent| == 32 && |Hardcoded.bones| == 32
    ensures Rooted(Hardcoded.parent, 32)
    ensures Hardcoded.parent[0] == -1
    ensures forall j :: 1 <= j < 32 ==> Hardcoded.parent[j] >= 0
  {
    assert forall i :: 0 <= i < 32 ==> 0 <= RawParent[i] <= i;
    assert forall i :: 1 <= i < 32 ==> 1 <= RawParent[i];
  }

  /** The zero-based parent table of the 32-joint skeleton. */
  const HardcodedParentTable: seq<int> :=
    [-1, 0, 1, 2, 3, 4, 0, 6, 7, 8, 9, 0, 11, 12, 13, 14,
     12, 16, 17, 18, 19, 20, 19, 22, 12, 24, 25, 26, 27, 28, 27, 30]

  /** Loading subtracts one from every entry of the one-based table. */
  lemma HardcodedParent()
    ensures Hardcoded.parent == HardcodedParentTable
  {
  }

  lemma TableRooted()
    ensures Rooted(HardcodedParentTable, 32)
  {
  }

  /** The path down to joint 2 of the table, walked link by link. */
  lemma TablePathToKnee()
    ensures Rooted(HardcodedParentTable, 32)
    ensures PathTo(HardcodedParentTable, 2) == [0, 1, 2]
  {
    TableRooted();
    var p := HardcodedParentTable;
    assert p[0] == -1 && p[1] == 0 && p[2] == 1;
    assert PathTo(p, -1) == [];
    assert PathTo(p, 0) == [0];
    assert PathTo(p, 1) == [0, 1];
  }

  /** The path down to joint 24 of the table, walked link by link. */
  lemma TablePathToArm()
    ensures Rooted(HardcodedParentTable, 32)
    ensures PathTo(HardcodedParentTable, 24) == [0, 11, 12, 24]
  {
    TableRooted();
    var p := HardcodedParentTable;
    assert p[0] == -1 && p[11] == 0 && p[12] == 11 && p[24] == 12;
    assert PathTo(p, -1) == [];
    assert PathTo(p, 0) == [0];
    assert PathTo(p, 11) == [0, 11];
    assert PathTo(p, 12) == [0, 11, 12];
  }

  /** The path down to joint 30 of the table, walked on from joint 24. */
  lemma TablePathToHand()
    ensures Rooted(HardcodedParentTable, 32)
    ensures PathTo(HardcodedParentTable, 30) == [0, 11, 12, 24, 25, 26, 27, 30]
  {
    TablePathToArm();
    var p := HardcodedParentTable;
    assert p[25] == 24 && p[26] == 25 && p[27] == 26 && p[30] == 27;
    assert PathTo(p, 25) == [0, 11, 12, 24, 25];
    assert PathTo(p, 26) == [0, 11, 12, 24, 25, 26];
    assert PathTo(p, 27) == [0, 11, 12, 24, 25, 26, 27];
  }

  /** Two chains of the table. */
  lemma TableChains()
    ensures Rooted(HardcodedParentTable, 32)
    ensures Ancestors(HardcodedParentTable, 3) == [0, 1, 2]
    ensures Ancestors(HardcodedParentTable, 31) == [0, 11, 12, 24, 25, 26, 27, 30]
  {
    TablePathToKnee();
    TablePathToHand();
    assert HardcodedParentTable[3] == 2 && HardcodedParentTable[31] == 30;
  }

  /** The offsets of joints 0 to 3, in metres: joint 1 sits 0.132948591 m
      along -x from joint 0, joints 2 and 3 hang along -y below it. */
  lemma HardcodedLegBones()
    ensures |Hardcoded.bones| == 32
    ensures Hardcoded.bones[0] == Vec3(0.0, 0.0, 0.0)
    ensures Hardcoded.bones[1] == Vec3(-0.132948591, 0.0, 0.0)
    ensures Hardcoded.bones[2] == Vec3(0.0, -0.442894612, 0.0)
    ensures Hardcoded.bones[3] == Vec3(0.0, -0.454206447, 0.0)
  {
    assert |RawBones| == 96 && |RawParent| == 32;
    assert RawBones[0] == 0.0 && RawBones[1] == 0.0 && RawBones[2] == 0.0;
    assert RawBones[3] == -132.948591 && RawBones[4] == 0.0 && RawBones[5] == 0.0;
    assert RawBones[6] == 0.0 && RawBones[7] == -442.894612 && RawBones[8] == 0.0;
    assert RawBones[9] == 0.0 && RawBones[10] == -454.206447 && RawBones[11] == 0.0;
  }

  /** In the 32-joint skeleton, joint 3 hangs below 0, 1 and 2, and joint 31,
      at the end of the longest chain, below 0, 11, 12, 24, 25, 26, 27 and 30. */
  lemma HardcodedChains()
    ensures Rooted(Hardcoded.parent, 32)
    ensures Ancestors(Hardcoded.parent, 3) == [0, 1, 2]
    ensures Ancestors(Hardcoded.parent, 31) == [0, 11, 12, 24, 25, 26, 27, 30]
  {
    HardcodedParent();
    TableChains();
  }
}
