/**
 * The inverse-kinematics front end over a kinematic tree: the mapping
 * between the user joint order and the tree's own joint numbering, and the
 * gather/scatter of configuration vectors around an iterative solver.
 *
 * The tree and its chains are given as data; the solver (`CartToJnt`) is a
 * function parameter about which nothing is assumed beyond the size of its
 * answer.
 */
module KdlModels {
  import opened Wrappers
  import opened Seqs

  datatype JointType = Fixed | Moving

  /** A segment of the tree, reduced to the joint that carries it. */
  datatype Segment = Segment(jointName: string, jointType: JointType)

  /** A tree element: its segment and the joint number it was given in the tree. */
  datatype TreeElement = TreeElement(segment: Segment, qNr: nat)

  datatype Tree = Tree(
    segments: seq<TreeElement>,        // in the tree's iteration order
    nrOfJoints: nat,
    chainTo: string -> seq<Segment>    // the chain from the root to a link; empty when there is none
  )

  datatype Vector = Vector(x: real, y: real, z: real)

  /**
   * The four arguments handed to KDL's quaternion-to-rotation constructor,
   * in its order `(x, y, z, w)`; the rotation matrix KDL builds from them is
   * not modelled.
   */
  datatype RotationArgs = QuaternionArgs(x: real, y: real, z: real, w: real)

  /** A goal frame, as the arguments it is built from. */
  datatype Frame = Frame(rotation: RotationArgs, translation: Vector)

  /** A pose laid out as position then quaternion, scalar part first: `[x, y, z, qw, qx, qy, qz]`. */
  type Pose = p: seq<real> | |p| == 7 witness [0.0, 0.0, 0.0, 1.0, 0.0, 0.0, 0.0]

  /**
   * The goal frame of a pose: the translation is the position, and the
   * quaternion arguments move the scalar part from first to last. Read back
   * in the pose layout, the arguments are the pose itself.
   */
  function GoalFrame(pose: Pose): (f: Frame)
    ensures [f.translation.x, f.translation.y, f.translation.z,
             f.rotation.w, f.rotation.x, f.rotation.y, f.rotation.z] == pose
  {
    Frame(QuaternionArgs(pose[4], pose[5], pose[6], pose[3]), Vector(pose[0], pose[1], pose[2]))
  }

  /** What each solver is built from, besides the chain or tree geometry. */
  datatype SolverSetup =
    | ChainLMA(chain: seq<Segment>, weights: seq<real>)
    | ChainNR(chain: seq<Segment>)
    | ChainNRJL(chain: seq<Segment>, qMin: seq<real>, qMax: seq<real>)
    | TreeNRJL(endpoints: seq<string>, qMin: seq<real>, qMax: seq<real>, maxIter: nat, eps: real, lambda: real)

  datatype Goal = SingleFrame(frame: Frame) | FrameMap(frames: map<string, Frame>)

  /** `CartToJnt`: from a solver, a seed and a goal to a solution and the solver's status code. */
  type Solver = (SolverSetup, seq<real>, Goal) -> (seq<real>, int)

  /** The solver answers with one value per seed value. */
  ghost predicate SolutionSized(solve: Solver) {
    forall s, q, g :: |solve(s, q, g).0| == |q|
  }

  /** Task-space weights of the Levenberg-Marquardt chain solver. */
  const LmaWeights: seq<real> := [1.0, 1.0, 1.0, 0.01, 0.01, 0.01]

  const TreeMaxIterations: nat := 1000
  const TreeEpsilon: real := 1e-6
  const TreeLambda: real := 1e-6

  datatype IkError = LinkIndexOutOfBound | UnknownJoint(name: string)

  /** A solution vector in user order and the solver's status code. */
  datatype IkResult = IkResult(q: seq<real>, status: int)

  // ---------------------------------------------------------------------------
  // Name-to-index map

  /** The map built by assigning `names[i] := i` for each `i` in turn. */
  function IndexMap(names: seq<string>): (m: map<string, nat>)
    ensures m.Keys == Elements(names)
    ensures forall x :: x in m ==> m[x] < |names| && names[m[x]] == x
  {
    if names == [] then map[]
    else IndexMap(names[..|names| - 1])[names[|names| - 1] := |names| - 1]
  }

  /** Each name maps to its last position: a later duplicate wins. */
  lemma {:induction false} IndexMapLastWins(names: seq<string>, x: string, k: nat)
    requires x in names && k < |names| && names[k] == x
    ensures k <= IndexMap(names)[x]
  {
    var init := names[..|names| - 1];
    if k < |names| - 1 && names[|names| - 1] != x {
      assert init[k] == x;
      IndexMapLastWins(init, x, k);
    }
  }

  /** With distinct names, each name maps to its own position. */
  lemma IndexMapOfDistinct(names: seq<string>, i: nat)
    requires Distinct(names) && i < |names|
    ensures names[i] in IndexMap(names) && IndexMap(names)[names[i]] == i
  {
    assert names[i] in Elements(names);
    IndexMapLastWins(names, names[i], i);
  }

  // ---------------------------------------------------------------------------
  // Tree joint number to user index

  /** Every tree element whose joint is a user joint has a joint number inside the tree. */
  ghost predicate UserJointsNumbered(segments: seq<TreeElement>, userIdx: map<string, nat>, n: nat) {
    forall e :: e in segments && e.segment.jointName in userIdx ==> e.qNr < n
  }

  /**
   * The tree-to-user joint mapping: `n` zeros, then, element by element, the
   * slot of each element whose joint is a user joint takes that joint's user index.
   */
  function KdlToUser(segments: seq<TreeElement>, userIdx: map<string, nat>, n: nat): (r: seq<nat>)
    requires UserJointsNumbered(segments, userIdx, n)
    ensures |r| == n
  {
    if segments == [] then seq(n, _ => 0)
    else
      var prev := KdlToUser(segments[..|segments| - 1], userIdx, n);
      var e := segments[|segments| - 1];
      if e.segment.jointName in userIdx then prev[e.qNr := userIdx[e.segment.jointName]] else prev
  }

  /**
   * The slot of a user joint's element holds that joint's user index, unless
   * a later user-joint element has the same joint number.
   */
  lemma {:induction false} KdlToUserAt(segments: seq<TreeElement>, userIdx: map<string, nat>, n: nat, k: nat)
    requires UserJointsNumbered(segments, userIdx, n)
    requires k < |segments| && segments[k].segment.jointName in userIdx
    requires forall l :: k < l < |segments| && segments[l].segment.jointName in userIdx ==> segments[l].qNr != segments[k].qNr
    ensures KdlToUser(segments, userIdx, n)[segments[k].qNr] == userIdx[segments[k].segment.jointName]
  {
    var init := segments[..|segments| - 1];
    if k < |segments| - 1 {
      assert init[k] == segments[k];
      KdlToUserAt(init, userIdx, n, k);
    }
  }

  /** A slot that no user-joint element numbers stays zero. */
  lemma {:induction false} KdlToUserUnmapped(segments: seq<TreeElement>, userIdx: map<string, nat>, n: nat, p: nat)
    requires UserJointsNumbered(segments, userIdx, n) && p < n
    requires forall l :: 0 <= l < |segments| && segments[l].segment.jointName in userIdx ==> segments[l].qNr != p
    ensures KdlToUser(segments, userIdx, n)[p] == 0
  {
    if segments != [] {
      KdlToUserUnmapped(segments[..|segments| - 1], userIdx, n, p);
    }
  }

  // ---------------------------------------------------------------------------
  // Chain joints to user indices

  /** The chain's non-fixed segments, in chain order. */
  function NonFixed(chain: seq<Segment>): seq<Segment> {
    if chain == [] then []
    else
      var last := chain[|chain| - 1];
      NonFixed(chain[..|chain| - 1]) + if last.jointType == Fixed then [] else [last]
  }

  /** No two of the segments carry joints of the same name, as in any URDF model. */
  predicate DistinctJointNames(segments: seq<Segment>) {
    forall i, j :: 0 <= i < j < |segments| ==> segments[i].jointName != segments[j].jointName
  }

  /**
   * The user indices of the chain's non-fixed joints, in chain order; the
   * lookup of the first joint that is not a user joint fails.
   */
  function ChainUserIndices(chain: seq<Segment>, userIdx: map<string, nat>): (r: Result<seq<nat>, IkError>)
    ensures r.Success? ==> |r.value| == |NonFixed(chain)|
    ensures r.Failure? ==> r.error.UnknownJoint? && r.error.name !in userIdx
  {
    if chain == [] then Success([])
    else
      var last := chain[|chain| - 1];
      match ChainUserIndices(chain[..|chain| - 1], userIdx)
      case Failure(e) => Failure(e)
      case Success(idx) =>
        if last.jointType == Fixed then Success(idx)
        else if last.jointName in userIdx then Success(idx + [userIdx[last.jointName]])
        else Failure(UnknownJoint(last.jointName))
  }

  /**
   * The lookup succeeds exactly when every non-fixed joint of the chain is a
   * user joint; then it yields one user index per non-fixed joint, and
   * otherwise it names a non-fixed joint that is not a user joint.
   */
  lemma {:induction false} ChainUserIndicesMeaning(chain: seq<Segment>, userIdx: map<string, nat>)
    ensures ChainUserIndices(chain, userIdx).Success?
        <==> forall s :: s in NonFixed(chain) ==> s.jointName in userIdx
    ensures ChainUserIndices(chain, userIdx).Success? ==>
      var idx := ChainUserIndices(chain, userIdx).value;
      |idx| == |NonFixed(chain)| &&
      forall i :: 0 <= i < |idx| ==> idx[i] == userIdx[NonFixed(chain)[i].jointName]
    ensures ChainUserIndices(chain, userIdx).Failure? ==>
      exists s :: s in NonFixed(chain) && s.jointName !in userIdx &&
        ChainUserIndices(chain, userIdx).error == UnknownJoint(s.jointName)
  {
    if chain != [] {
      var init, last := chain[..|chain| - 1], chain[|chain| - 1];
      ChainUserIndicesMeaning(init, userIdx);
      assert NonFixed(chain) == NonFixed(init) + if last.jointType == Fixed then [] else [last];
      if ChainUserIndices(init, userIdx).Failure? {
        var s :| s in NonFixed(init) && s.jointName !in userIdx &&
          ChainUserIndices(init, userIdx).error == UnknownJoint(s.jointName);
        assert s in NonFixed(chain);
      } else if last.jointType != Fixed && last.jointName !in userIdx {
        assert last in NonFixed(chain);
      }
    }
  }

  /** Every index the lookup yields is a value of the map. */
  lemma {:induction false} ChainUserIndicesBelow(chain: seq<Segment>, userIdx: map<string, nat>, n: nat)
    requires forall x :: x in userIdx ==> userIdx[x] < n
    requires ChainUserIndices(chain, userIdx).Success?
    ensures IndicesBelow(ChainUserIndices(chain, userIdx).value, n)
  {
    if chain != [] {
      ChainUserIndicesBelow(chain[..|chain| - 1], userIdx, n);
    }
  }

  /**
   * Distinct joint names on a chain give distinct user indices, whatever
   * duplicates the user joint names hold.
   */
  lemma ChainIndicesDistinct(chain: seq<Segment>, names: seq<string>)
    requires DistinctJointNames(NonFixed(chain))
    requires ChainUserIndices(chain, IndexMap(names)).Success?
    ensures Distinct(ChainUserIndices(chain, IndexMap(names)).value)
  {
    var m := IndexMap(names);
    ChainUserIndicesMeaning(chain, m);
    var idx, nf := ChainUserIndices(chain, m).value, NonFixed(chain);
    forall i, j | 0 <= i < j < |idx| ensures idx[i] != idx[j] {
      assert nf[i] in nf && nf[j] in nf;
      assert names[idx[i]] == nf[i].jointName && names[idx[j]] == nf[j].jointName;
    }
  }

  /** The loop that pushes the user index of each non-fixed chain joint, failing on an unknown name. */
  method CollectChainIndices(chain: seq<Segment>, userIdx: map<string, nat>) returns (r: Result<seq<nat>, IkError>)
    ensures r == ChainUserIndices(chain, userIdx)
  {
    var idx: seq<nat> := [];
    for k := 0 to |chain|
      invariant ChainUserIndices(chain[..k], userIdx) == Success(idx)
    {
      assert chain[..k + 1][..k] == chain[..k];
      var joint := chain[k];
      if joint.jointType != Fixed {
        if joint.jointName !in userIdx {
          assert ChainUserIndices(chain[..k + 1], userIdx) == Failure(UnknownJoint(joint.jointName));
          ChainPrefixFailure(chain, userIdx, k + 1);
          return Failure(UnknownJoint(joint.jointName));
        }
        idx := idx + [userIdx[joint.jointName]];
      }
    }
    assert chain[..|chain|] == chain;
    r := Success(idx);
  }

  /** Once a prefix of the chain fails, the whole chain fails with the same error. */
  lemma {:induction false} ChainPrefixFailure(chain: seq<Segment>, userIdx: map<string, nat>, k: nat)
    requires k <= |chain| && ChainUserIndices(chain[..k], userIdx).Failure?
    ensures ChainUserIndices(chain, userIdx) == ChainUserIndices(chain[..k], userIdx)
    decreases |chain| - k
  {
    if k < |chain| {
      assert chain[..k + 1][..k] == chain[..k];
      ChainPrefixFailure(chain, userIdx, k + 1);
    } else {
      assert chain[..k] == chain;
    }
  }

  // ---------------------------------------------------------------------------
  // Gather and scatter

  /** The values of `v` at the positions `idx`, in order. */
  function Gathered(v: seq<real>, idx: seq<nat>): (g: seq<real>)
    requires IndicesBelow(idx, |v|)
    ensures |g| == |idx|
    ensures forall i :: 0 <= i < |idx| ==> g[i] == v[idx[i]]
  {
    if idx == [] then []
    else
      var n := |idx| - 1;
      Gathered(v, idx[..n]) + [v[idx[n]]]
  }

  /** `v` after writing `vals[i]` at position `idx[i]` for each `i` in turn. */
  function Overwritten(v: seq<real>, idx: seq<nat>, vals: seq<real>): (r: seq<real>)
    requires IndicesBelow(idx, |v|) && |vals| == |idx|
    ensures |r| == |v|
  {
    if idx == [] then v
    else
      var n := |idx| - 1;
      Overwritten(v, idx[..n], vals[..n])[idx[n] := vals[n]]
  }

  /** A position that `idx` does not name keeps its value. */
  lemma {:induction false} OverwrittenElsewhere(v: seq<real>, idx: seq<nat>, vals: seq<real>, p: nat)
    requires IndicesBelow(idx, |v|) && |vals| == |idx| && p < |v| && p !in idx
    ensures Overwritten(v, idx, vals)[p] == v[p]
  {
    if idx != [] {
      var n := |idx| - 1;
      assert p !in idx[..n];
      OverwrittenElsewhere(v, idx[..n], vals[..n], p);
    }
  }

  /** With distinct positions, position `idx[i]` holds `vals[i]`. */
  lemma {:induction false} OverwrittenAt(v: seq<real>, idx: seq<nat>, vals: seq<real>, i: nat)
    requires IndicesBelow(idx, |v|) && |vals| == |idx| && Distinct(idx) && i < |idx|
    ensures Overwritten(v, idx, vals)[idx[i]] == vals[i]
  {
    var n := |idx| - 1;
    if i < n {
      assert idx[..n][i] == idx[i] && vals[..n][i] == vals[i];
      OverwrittenAt(v, idx[..n], vals[..n], i);
    }
  }

  /**
   * After a scatter, positions outside `idx` hold the seed's values and,
   * when the positions are distinct, position `idx[i]` holds `vals[i]`.
   */
  lemma ScatterPlacement(v: seq<real>, idx: seq<nat>, vals: seq<real>)
    requires IndicesBelow(idx, |v|) && |vals| == |idx|
    ensures forall p :: 0 <= p < |v| && p !in idx ==> Overwritten(v, idx, vals)[p] == v[p]
    ensures Distinct(idx) ==> forall i :: 0 <= i < |idx| ==> Overwritten(v, idx, vals)[idx[i]] == vals[i]
  {
    forall p | 0 <= p < |v| && p !in idx ensures Overwritten(v, idx, vals)[p] == v[p] {
      OverwrittenElsewhere(v, idx, vals, p);
    }
    if Distinct(idx) {
      forall i | 0 <= i < |idx| ensures Overwritten(v, idx, vals)[idx[i]] == vals[i] {
        OverwrittenAt(v, idx, vals, i);
      }
    }
  }

  /** Gathering what was just scattered through distinct positions gives it back. */
  lemma GatherAfterScatter(v: seq<real>, idx: seq<nat>, vals: seq<real>)
    requires IndicesBelow(idx, |v|) && |vals| == |idx| && Distinct(idx)
    ensures Gathered(Overwritten(v, idx, vals), idx) == vals
  {
    forall i | 0 <= i < |idx| ensures Gathered(Overwritten(v, idx, vals), idx)[i] == vals[i] {
      OverwrittenAt(v, idx, vals, i);
    }
  }

  /** Scattering back what was gathered leaves the vector as it was, duplicates or not. */
  lemma {:induction false} ScatterOfGather(v: seq<real>, idx: seq<nat>)
    requires IndicesBelow(idx, |v|)
    ensures Overwritten(v, idx, Gathered(v, idx)) == v
  {
    if idx != [] {
      var n := |idx| - 1;
      assert Gathered(v, idx)[..n] == Gathered(v, idx[..n]);
      ScatterOfGather(v, idx[..n]);
    }
  }

  /** The loop that fills a solver array from `v` through `idx`. */
  method Gather(v: seq<real>, idx: seq<nat>) returns (g: seq<real>)
    requires IndicesBelow(idx, |v|)
    ensures |g| == |idx|
    ensures forall i :: 0 <= i < |idx| ==> g[i] == v[idx[i]]
    ensures g == Gathered(v, idx)
  {
    var arr := new real[|idx|];
    for i := 0 to |idx|
      invariant forall l :: 0 <= l < i ==> arr[l] == v[idx[l]]
    {
      arr[i] := v[idx[i]];
    }
    g := arr[..];
  }

  /** The loop that copies `v` and writes `vals[i]` at `idx[i]` for each `i`. */
  method ScatterInto(v: seq<real>, idx: seq<nat>, vals: seq<real>) returns (r: seq<real>)
    requires IndicesBelow(idx, |v|) && |vals| == |idx|
    ensures r == Overwritten(v, idx, vals)
  {
    r := v;
    for i := 0 to |idx|
      invariant r == Overwritten(v, idx[..i], vals[..i])
    {
      assert idx[..i + 1][..i] == idx[..i] && vals[..i + 1][..i] == vals[..i];
      r := r[idx[i] := vals[i]];
    }
    assert idx[..|idx|] == idx && vals[..|vals|] == vals;
  }

  /** Seed gathered through `idx`, solver run, solution scattered back into a copy of the seed vector. */
  ghost function SolveAndScatter(solve: Solver, setup: SolverSetup, q0: seq<real>, idx: seq<nat>, goal: Goal): IkResult
    requires SolutionSized(solve) && IndicesBelow(idx, |q0|)
  {
    var out := solve(setup, Gathered(q0, idx), goal);
    IkResult(Overwritten(q0, idx, out.0), out.1)
  }

  // ---------------------------------------------------------------------------
  // Goal frames of the tree solver

  /** The frame map built by assigning `endpoints[i] := GoalFrame(poses[i])` for each `i` in turn. */
  function GoalFrames(endpoints: seq<string>, poses: seq<Pose>): (frames: map<string, Frame>)
    requires |endpoints| <= |poses|
    ensures frames.Keys == Elements(endpoints)
  {
    if endpoints == [] then map[]
    else
      var n := |endpoints| - 1;
      GoalFrames(endpoints[..n], poses)[endpoints[n] := GoalFrame(poses[n])]
  }

  /** The frame of an endpoint is the goal of its last occurrence's pose. */
  lemma {:induction false} GoalFramesKeyed(endpoints: seq<string>, poses: seq<Pose>, e: string)
    requires |endpoints| <= |poses| && e in endpoints
    ensures IndexMap(endpoints)[e] < |endpoints|
    ensures GoalFrames(endpoints, poses)[e] == GoalFrame(poses[IndexMap(endpoints)[e]])
  {
    assert e in Elements(endpoints);
    var n := |endpoints| - 1;
    if endpoints[n] != e {
      assert e in endpoints[..n];
      GoalFramesKeyed(endpoints[..n], poses, e);
    }
  }

  class KDLModel {
    const tree: Tree
    var userLinkNames: seq<string>
    var userJointNames: seq<string>
    var userJointIdxMapping: map<string, nat>
    var jointMappingKdl2User: seq<nat>

    ghost predicate Valid()
      reads this
    {
      && userJointIdxMapping == IndexMap(userJointNames)
      && UserJointsNumbered(tree.segments, userJointIdxMapping, tree.nrOfJoints)
      && jointMappingKdl2User == KdlToUser(tree.segments, userJointIdxMapping, tree.nrOfJoints)
    }

    /** Builds the name-to-user-index map and the tree-to-user joint mapping. */
    constructor (tree: Tree, jointNames: seq<string>, linkNames: seq<string>)
      requires UserJointsNumbered(tree.segments, IndexMap(jointNames), tree.nrOfJoints)
      ensures Valid() && this.tree == tree
      ensures userLinkNames == linkNames && userJointNames == jointNames
    {
      this.tree := tree;
      userLinkNames, userJointNames := linkNames, jointNames;
      userJointIdxMapping, jointMappingKdl2User := map[], [];
      new;
      FillJointIdxMapping();
      FillKdl2User();
    }

    /** The constructor's first loop: `user_joint_idx_mapping_[joint_names[i]] = i` for each `i` in turn. */
    method FillJointIdxMapping()
      modifies this`userJointIdxMapping
      ensures userJointIdxMapping == IndexMap(userJointNames)
    {
      var jointNames := userJointNames;
      userJointIdxMapping := map[];
      for i := 0 to |jointNames|
        invariant userJointIdxMapping == IndexMap(jointNames[..i])
      {
        assert jointNames[..i + 1][..i] == jointNames[..i];
        userJointIdxMapping := userJointIdxMapping[jointNames[i] := i];
      }
      assert jointNames[..|jointNames|] == jointNames;
    }

    /**
     * The constructor's second loop: the table is sized to the tree's joint
     * count, then each segment whose joint is a user joint writes that
     * joint's user index at its joint number.
     */
    method FillKdl2User()
      requires UserJointsNumbered(tree.segments, userJointIdxMapping, tree.nrOfJoints)
      modifies this`jointMappingKdl2User
      ensures jointMappingKdl2User == KdlToUser(tree.segments, userJointIdxMapping, tree.nrOfJoints)
    {
      var segments, userIdx, n := tree.segments, userJointIdxMapping, tree.nrOfJoints;
      jointMappingKdl2User := seq(n, _ => 0);
      for k := 0 to |segments|
        invariant jointMappingKdl2User == KdlToUser(segments[..k], userIdx, n)
      {
        assert segments[..k + 1][..k] == segments[..k];
        var jointName := segments[k].segment.jointName;
        if jointName in userIdx {
          jointMappingKdl2User := jointMappingKdl2User[segments[k].qNr := userIdx[jointName]];
        }
      }
      assert segments[..|segments|] == segments;
    }

    /** The chain from the root to user link `index`. */
    ghost function ChainOf(index: nat): seq<Segment>
      reads this
      requires index < |userLinkNames|
    {
      tree.chainTo(userLinkNames[index])
    }

    /**
     * Every user index of the chain to user link `index` is a position of
     * `v`, so that gathering from `v` and scattering into it stay in range.
     */
    ghost predicate CoversChain(index: nat, v: seq<real>)
      reads this
    {
      index < |userLinkNames| ==>
        match ChainUserIndices(ChainOf(index), userJointIdxMapping)
        case Success(ids) => IndicesBelow(ids, |v|)
        case Failure(_) => true
    }

    /** A vector with an entry for every user joint covers every chain. */
    lemma CoversEveryChain(index: nat, v: seq<real>)
      requires Valid() && |userJointNames| <= |v|
      ensures CoversChain(index, v)
    {
      if index < |userLinkNames| && ChainUserIndices(ChainOf(index), userJointIdxMapping).Success? {
        ChainUserIndicesBelow(ChainOf(index), userJointIdxMapping, |v|);
      }
    }

    /** Levenberg-Marquardt chain IK towards `pose` for user link `index`, seeded by `q0`. */
    method ChainIKLMA(index: nat, q0: seq<real>, pose: Pose, solve: Solver) returns (r: Result<IkResult, IkError>)
      requires Valid() && SolutionSized(solve) && CoversChain(index, q0)
      ensures index >= |userLinkNames| ==> r == Failure(LinkIndexOutOfBound)
      ensures index < |userLinkNames| ==>
        var ids := ChainUserIndices(ChainOf(index), userJointIdxMapping);
        (ids.Failure? ==> r == Failure(ids.error)) &&
        (ids.Success? ==>
           IndicesBelow(ids.value, |q0|) &&
           r == Success(SolveAndScatter(solve, ChainLMA(ChainOf(index), LmaWeights), q0, ids.value,
                                        SingleFrame(GoalFrame(pose)))))
      ensures r.Success? ==> |r.value.q| == |q0|
      ensures index < |userLinkNames| && ChainUserIndices(ChainOf(index), userJointIdxMapping).Success? ==>
        var idx := ChainUserIndices(ChainOf(index), userJointIdxMapping).value;
        var solution := solve(ChainLMA(ChainOf(index), LmaWeights), Gathered(q0, idx), SingleFrame(GoalFrame(pose))).0;
        && r.Success? && |r.value.q| == |q0|
        && (forall p :: 0 <= p < |q0| && p !in idx ==> r.value.q[p] == q0[p])
        && (DistinctJointNames(NonFixed(ChainOf(index))) ==>
              forall i :: 0 <= i < |idx| ==> r.value.q[idx[i]] == solution[i])
    {
      if index >= |userLinkNames| {
        return Failure(LinkIndexOutOfBound);
      }
      var chain := tree.chainTo(userLinkNames[index]);
      var frameGoal := GoalFrame(pose);
      var ids := CollectChainIndices(chain, userJointIdxMapping);
      if ids.Failure? {
        return Failure(ids.error);
      }
      var idx := ids.value;
      var qInit := Gather(q0, idx);
      var out := solve(ChainLMA(chain, LmaWeights), qInit, SingleFrame(frameGoal));
      var q1 := ScatterInto(q0, idx, out.0);
      ScatterPlacement(q0, idx, out.0);
      if DistinctJointNames(NonFixed(chain)) {
        ChainIndicesDistinct(chain, userJointNames);
      }
      r := Success(IkResult(q1, out.1));
    }

    /** Newton-Raphson chain IK towards `pose` for user link `index`, seeded by `q0`. */
    method ChainIKNR(index: nat, q0: seq<real>, pose: Pose, solve: Solver) returns (r: Result<IkResult, IkError>)
      requires Valid() && SolutionSized(solve) && CoversChain(index, q0)
      ensures index >= |userLinkNames| ==> r == Failure(LinkIndexOutOfBound)
      ensures index < |userLinkNames| ==>
        var ids := ChainUserIndices(ChainOf(index), userJointIdxMapping);
        (ids.Failure? ==> r == Failure(ids.error)) &&
        (ids.Success? ==>
           IndicesBelow(ids.value, |q0|) &&
           r == Success(SolveAndScatter(solve, ChainNR(ChainOf(index)), q0, ids.value,
                                        SingleFrame(GoalFrame(pose)))))
      ensures r.Success? ==> |r.value.q| == |q0|
      ensures index < |userLinkNames| && ChainUserIndices(ChainOf(index), userJointIdxMapping).Success? ==>
        var idx := ChainUserIndices(ChainOf(index), userJointIdxMapping).value;
        var solution := solve(ChainNR(ChainOf(index)), Gathered(q0, idx), SingleFrame(GoalFrame(pose))).0;
        && r.Success? && |r.value.q| == |q0|
        && (forall p :: 0 <= p < |q0| && p !in idx ==> r.value.q[p] == q0[p])
        && (DistinctJointNames(NonFixed(ChainOf(index))) ==>
              forall i :: 0 <= i < |idx| ==> r.value.q[idx[i]] == solution[i])
    {
      if index >= |userLinkNames| {
        return Failure(LinkIndexOutOfBound);
      }
      var chain := tree.chainTo(userLinkNames[index]);
      var frameGoal := GoalFrame(pose);
      var ids := CollectChainIndices(chain, userJointIdxMapping);
      if ids.Failure? {
        return Failure(ids.error);
      }
      var idx := ids.value;
      var qInit := Gather(q0, idx);
      var out := solve(ChainNR(chain), qInit, SingleFrame(frameGoal));
      var q1 := ScatterInto(q0, idx, out.0);
      ScatterPlacement(q0, idx, out.0);
      if DistinctJointNames(NonFixed(chain)) {
        ChainIndicesDistinct(chain, userJointNames);
      }
      r := Success(IkResult(q1, out.1));
    }

    /**
     * Newton-Raphson chain IK with joint limits: the limits are gathered
     * through the same user indices as the seed.
     */
    method ChainIKNRJL(index: nat, q0: seq<real>, pose: Pose, qmin: seq<real>, qmax: seq<real>, solve: Solver)
      returns (r: Result<IkResult, IkError>)
      requires Valid() && SolutionSized(solve)
      requires CoversChain(index, q0) && CoversChain(index, qmin) && CoversChain(index, qmax)
      ensures index >= |userLinkNames| ==> r == Failure(LinkIndexOutOfBound)
      ensures index < |userLinkNames| ==>
        var ids := ChainUserIndices(ChainOf(index), userJointIdxMapping);
        (ids.Failure? ==> r == Failure(ids.error)) &&
        (ids.Success? ==>
           IndicesBelow(ids.value, |q0|) && IndicesBelow(ids.value, |qmin|) && IndicesBelow(ids.value, |qmax|) &&
           r == Success(SolveAndScatter(solve,
                                        ChainNRJL(ChainOf(index), Gathered(qmin, ids.value), Gathered(qmax, ids.value)),
                                        q0, ids.value, SingleFrame(GoalFrame(pose)))))
      ensures r.Success? ==> |r.value.q| == |q0|
      ensures index < |userLinkNames| && ChainUserIndices(ChainOf(index), userJointIdxMapping).Success? ==>
        var idx := ChainUserIndices(ChainOf(index), userJointIdxMapping).value;
        var solution := solve(ChainNRJL(ChainOf(index), Gathered(qmin, idx), Gathered(qmax, idx)), Gathered(q0, idx), SingleFrame(GoalFrame(pose))).0;
        && r.Success? && |r.value.q| == |q0|
        && (forall p :: 0 <= p < |q0| && p !in idx ==> r.value.q[p] == q0[p])
        && (DistinctJointNames(NonFixed(ChainOf(index))) ==>
              forall i :: 0 <= i < |idx| ==> r.value.q[idx[i]] == solution[i])
    {
      if index >= |userLinkNames| {
        return Failure(LinkIndexOutOfBound);
      }
      var chain := tree.chainTo(userLinkNames[index]);
      var frameGoal := GoalFrame(pose);
      var ids := CollectChainIndices(chain, userJointIdxMapping);
      if ids.Failure? {
        return Failure(ids.error);
      }
      var idx := ids.value;
      var qMin := Gather(qmin, idx);
      var qMax := Gather(qmax, idx);
      var qInit := Gather(q0, idx);
      var out := solve(ChainNRJL(chain, qMin, qMax), qInit, SingleFrame(frameGoal));
      var q1 := ScatterInto(q0, idx, out.0);
      ScatterPlacement(q0, idx, out.0);
      if DistinctJointNames(NonFixed(chain)) {
        ChainIndicesDistinct(chain, userJointNames);
      }
      r := Success(IkResult(q1, out.1));
    }

    /**
     * Tree IK with joint limits towards one pose per endpoint: limits and
     * seed are gathered, and the solution scattered, through the
     * tree-to-user joint mapping.
     */
    method TreeIKNRJL(endpoints: seq<string>, q0: seq<real>, poses: seq<Pose>, qmin: seq<real>, qmax: seq<real>,
                      solve: Solver) returns (r: IkResult)
      requires Valid() && SolutionSized(solve) && |endpoints| <= |poses|
      requires IndicesBelow(jointMappingKdl2User, |q0|)
      requires IndicesBelow(jointMappingKdl2User, |qmin|) && IndicesBelow(jointMappingKdl2User, |qmax|)
      ensures r == SolveAndScatter(solve,
                                   TreeNRJL(endpoints, Gathered(qmin, jointMappingKdl2User),
                                            Gathered(qmax, jointMappingKdl2User),
                                            TreeMaxIterations, TreeEpsilon, TreeLambda),
                                   q0, jointMappingKdl2User, FrameMap(GoalFrames(endpoints, poses)))
      ensures |r.q| == |q0|
    {
      var qMin := Gather(qmin, jointMappingKdl2User);
      var qMax := Gather(qmax, jointMappingKdl2User);
      var frames: map<string, Frame> := map[];
      for i := 0 to |endpoints|
        invariant frames == GoalFrames(endpoints[..i], poses)
      {
        assert endpoints[..i + 1][..i] == endpoints[..i];
        frames := frames[endpoints[i] := GoalFrame(poses[i])];
      }
      assert endpoints[..|endpoints|] == endpoints;
      var qInit := Gather(q0, jointMappingKdl2User);
      var setup := TreeNRJL(endpoints, qMin, qMax, TreeMaxIterations, TreeEpsilon, TreeLambda);
      var out := solve(setup, qInit, FrameMap(frames));
      var q1 := ScatterInto(q0, jointMappingKdl2User, out.0);
      r := IkResult(q1, out.1);
    }
  }
}
