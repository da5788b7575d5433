/**
 * One articulated body: its user-ordered joint and link names, its current
 * full configuration, and its move group, the joints a planner varies while
 * every other joint stays at its current value.
 *
 * The kinematics engine is given as tables indexed in the user joint order
 * (`Kinematics`). Forward kinematics and the push of link poses into the
 * collision model are one opaque step, recorded as the configuration the
 * poses were computed from (`posedQpos`).
 */
module ArticulatedModels {
  import opened Wrappers
  import opened Seqs
  import opened SortedSeqs

  /** What the kinematics engine answers, indexed by user joint index. */
  datatype Kinematics = Kinematics(
    jointNames: seq<string>,         // the engine's joint names, the default user joint order
    linkNames: seq<string>,          // the engine's link names, the default user link order
    nv: nat,                         // length of a full configuration vector
    jointDim: seq<nat>,              // degrees of freedom of each joint
    jointId: seq<nat>,               // first configuration slot of each joint
    chainJoints: string -> seq<nat>  // joints on the path from the root to a link
  )

  /** Configuration slot `p` belongs to joint `i`. */
  predicate InSlot(kin: Kinematics, i: nat, p: nat)
    requires i < |kin.jointDim| == |kin.jointId|
  {
    kin.jointId[i] <= p < kin.jointId[i] + kin.jointDim[i]
  }

  /**
   * The tables describe one configuration vector: every joint's slots lie
   * inside it, no two joints share a slot, and every chain names known joints.
   */
  ghost predicate WellFormed(kin: Kinematics) {
    && |kin.jointId| == |kin.jointDim|
    && (forall i :: 0 <= i < |kin.jointDim| ==> kin.jointId[i] + kin.jointDim[i] <= kin.nv)
    && (forall i, k, p :: 0 <= i < |kin.jointDim| && 0 <= k < |kin.jointDim| && i != k && InSlot(kin, i, p)
          ==> !InSlot(kin, k, p))
    && (forall e, j :: j in kin.chainJoints(e) ==> j < |kin.jointDim|)
  }

  /** Total degrees of freedom of the joints `js`. */
  function SumDims(kin: Kinematics, js: seq<nat>): nat
    requires IndicesBelow(js, |kin.jointDim|)
  {
    if js == [] then 0 else SumDims(kin, js[..|js| - 1]) + kin.jointDim[js[|js| - 1]]
  }

  /** Every joint lying on the path from the root to one of the links `ees`. */
  ghost function ChainUnion(kin: Kinematics, ees: seq<string>): set<nat> {
    set e, j | e in ees && j in kin.chainJoints(e) :: j
  }

  /**
   * `js` is the move group of the end effectors `ees`: the joints of their
   * chains, each once, in ascending order.
   */
  ghost predicate IsMoveGroup(kin: Kinematics, ees: seq<string>, js: seq<nat>) {
    StrictlyAscending(js) && Elements(js) == ChainUnion(kin, ees)
  }

  /** `v` with `block` written over the slots starting at `start`. */
  function WriteSlot(v: seq<real>, start: nat, block: seq<real>): (r: seq<real>)
    requires start + |block| <= |v|
    ensures |r| == |v|
    ensures forall p :: 0 <= p < |v| ==> r[p] == if start <= p < start + |block| then block[p - start] else v[p]
  {
    v[..start] + block + v[start + |block|..]
  }

  /**
   * The full configuration after a reduced one is written: the joints `js`
   * take, in order, consecutive blocks of `q`, each in its own slots of `cur`.
   */
  function ScatterSlots(kin: Kinematics, js: seq<nat>, cur: seq<real>, q: seq<real>): (r: seq<real>)
    requires WellFormed(kin) && IndicesBelow(js, |kin.jointDim|)
    requires |cur| >= kin.nv && |q| == SumDims(kin, js)
    ensures |r| == |cur|
  {
    if js == [] then cur
    else
      var init, last := js[..|js| - 1], js[|js| - 1];
      var off := SumDims(kin, init);
      WriteSlot(ScatterSlots(kin, init, cur, q[..off]), kin.jointId[last], q[off..])
  }

  /** Writing one more value at the end of a block extends the written slots by one. */
  lemma WriteSlotExtend(v: seq<real>, start: nat, block: seq<real>, x: real)
    requires start + |block| < |v|
    ensures WriteSlot(v, start, block + [x]) == WriteSlot(v, start, block)[start + |block| := x]
  {
  }

  /** Writing the `k`-th joint's block extends the scatter of the joints before it. */
  lemma ScatterSlotsStep(kin: Kinematics, js: seq<nat>, cur: seq<real>, q: seq<real>, k: nat)
    requires WellFormed(kin) && IndicesBelow(js, |kin.jointDim|) && k < |js|
    requires |cur| >= kin.nv && SumDims(kin, js[..k]) + kin.jointDim[js[k]] <= |q|
    ensures SumDims(kin, js[..k + 1]) == SumDims(kin, js[..k]) + kin.jointDim[js[k]]
    ensures ScatterSlots(kin, js[..k + 1], cur, q[..SumDims(kin, js[..k + 1])])
         == WriteSlot(ScatterSlots(kin, js[..k], cur, q[..SumDims(kin, js[..k])]), kin.jointId[js[k]],
                      q[SumDims(kin, js[..k])..SumDims(kin, js[..k + 1])])
  {
    var init, js1 := js[..k], js[..k + 1];
    assert js1[..|js1| - 1] == init && js1[|js1| - 1] == js[k];
    var off := SumDims(kin, init);
    var end := off + kin.jointDim[js[k]];
    assert SumDims(kin, js1) == end;
    var q1 := q[..end];
    assert q1[..off] == q[..off];
    assert q1[off..] == q[off..end];
    assert ScatterSlots(kin, js1, cur, q1)
        == WriteSlot(ScatterSlots(kin, init, cur, q1[..off]), kin.jointId[js[k]], q1[off..]);
  }

  /** Every joint on a chain is a known joint. */
  lemma ChainUnionInRange(kin: Kinematics, ees: seq<string>, js: seq<nat>)
    requires WellFormed(kin) && Elements(js) == ChainUnion(kin, ees)
    ensures IndicesBelow(js, |kin.jointDim|)
  {
    forall k | 0 <= k < |js| ensures js[k] < |kin.jointDim| {
      assert js[k] in ChainUnion(kin, ees);
    }
  }

  /** Adding one end effector adds the joints of its chain. */
  lemma ChainUnionAppend(kin: Kinematics, ees: seq<string>, e: string)
    ensures ChainUnion(kin, ees + [e]) == ChainUnion(kin, ees) + Elements(kin.chainJoints(e))
  {
    forall j | j in ChainUnion(kin, ees + [e])
      ensures j in ChainUnion(kin, ees) + Elements(kin.chainJoints(e))
    {
      var e' :| e' in ees + [e] && j in kin.chainJoints(e');
      if e' != e {
        assert e' in ees;
      }
    }
    forall j | j in ChainUnion(kin, ees) + Elements(kin.chainJoints(e))
      ensures j in ChainUnion(kin, ees + [e])
    {
      if j in ChainUnion(kin, ees) {
        var e' :| e' in ees && j in kin.chainJoints(e');
        assert e' in ees + [e];
      } else {
        assert e in ees + [e];
      }
    }
  }

  /** The block of joint `js[k]` starts after the blocks of the joints before it and ends within `q`. */
  lemma {:induction false} SumDimsPrefix(kin: Kinematics, js: seq<nat>, k: nat)
    requires IndicesBelow(js, |kin.jointDim|) && k < |js|
    ensures SumDims(kin, js[..k]) + kin.jointDim[js[k]] <= SumDims(kin, js)
  {
    var init := js[..|js| - 1];
    if k == |js| - 1 {
      assert js[..k] == init;
    } else {
      assert init[..k] == js[..k] && init[k] == js[k];
      SumDimsPrefix(kin, init, k);
    }
  }

  /**
   * Slot `j` of the `k`-th joint of a duplicate-free move group receives
   * entry `off_k + j` of the reduced vector, `off_k` being the degrees of
   * freedom of the joints before it.
   */
  lemma {:induction false} ScatterSlotsAt(kin: Kinematics, js: seq<nat>, cur: seq<real>, q: seq<real>, k: nat, j: nat)
    requires WellFormed(kin) && IndicesBelow(js, |kin.jointDim|) && Distinct(js)
    requires |cur| >= kin.nv && |q| == SumDims(kin, js)
    requires k < |js| && j < kin.jointDim[js[k]]
    ensures SumDims(kin, js[..k]) + j < |q|
    ensures kin.jointId[js[k]] + j < |cur|
    ensures ScatterSlots(kin, js, cur, q)[kin.jointId[js[k]] + j] == q[SumDims(kin, js[..k]) + j]
  {
    SumDimsPrefix(kin, js, k);
    var init, last := js[..|js| - 1], js[|js| - 1];
    var off := SumDims(kin, init);
    var p := kin.jointId[js[k]] + j;
    if k == |js| - 1 {
      assert js[..k] == init;
    } else {
      assert init[..k] == js[..k];
      assert init[k] == js[k];
      assert InSlot(kin, js[k], p);
      assert !InSlot(kin, last, p);
      ScatterSlotsAt(kin, init, cur, q[..off], k, j);
    }
  }

  /** A slot that belongs to no joint of the move group keeps its value. */
  lemma {:induction false} ScatterSlotsOutside(kin: Kinematics, js: seq<nat>, cur: seq<real>, q: seq<real>, p: nat)
    requires WellFormed(kin) && IndicesBelow(js, |kin.jointDim|)
    requires |cur| >= kin.nv && |q| == SumDims(kin, js)
    requires p < |cur|
    requires forall k :: 0 <= k < |js| ==> !InSlot(kin, js[k], p)
    ensures ScatterSlots(kin, js, cur, q)[p] == cur[p]
  {
    if js != [] {
      var init, last := js[..|js| - 1], js[|js| - 1];
      assert !InSlot(kin, last, p);
      ScatterSlotsOutside(kin, init, cur, q[..SumDims(kin, init)], p);
    }
  }

  /**
   * The move group depends only on which end effectors are named, not on
   * their order or repetition.
   */
  lemma MoveGroupIgnoresOrder(kin: Kinematics, ees1: seq<string>, ees2: seq<string>, js1: seq<nat>, js2: seq<nat>)
    requires Elements(ees1) == Elements(ees2)
    requires IsMoveGroup(kin, ees1, js1) && IsMoveGroup(kin, ees2, js2)
    ensures js1 == js2
  {
    assert ChainUnion(kin, ees1) == ChainUnion(kin, ees2) by {
      forall j | j in ChainUnion(kin, ees1) ensures j in ChainUnion(kin, ees2) {
        var e :| e in ees1 && j in kin.chainJoints(e);
        assert e in Elements(ees2);
      }
      forall j | j in ChainUnion(kin, ees2) ensures j in ChainUnion(kin, ees1) {
        var e :| e in ees2 && j in kin.chainJoints(e);
        assert e in Elements(ees1);
      }
    }
    AscendingDeterminedByElements(js1, js2);
  }

  /** The move group of a single link is its chain, sorted and without repeats. */
  lemma MoveGroupOfOneLink(kin: Kinematics, ee: string, js: seq<nat>)
    requires IsMoveGroup(kin, [ee], js)
    ensures StrictlyAscending(js) && Elements(js) == Elements(kin.chainJoints(ee))
  {
    forall j | j in Elements(kin.chainJoints(ee)) ensures j in ChainUnion(kin, [ee]) {
      assert ee in [ee];
    }
  }

  datatype ModelError = LengthMismatch(expected: nat, given: nat)

  class ArticulatedModel {
    const kin: Kinematics
    var userJointNames: seq<string>
    var userLinkNames: seq<string>
    var currentQpos: seq<real>
    var moveGroupEndEffectors: seq<string>
    var moveGroupUserJoints: seq<nat>
    var qposDim: nat
    /** The configuration the link poses in the collision model were last computed from. */
    var posedQpos: seq<real>

    /** The tables fit the user joint order. */
    ghost predicate TablesFit()
      reads this
    {
      WellFormed(kin) && |userJointNames| == |kin.jointDim|
    }

    ghost predicate Valid()
      reads this
    {
      && TablesFit()
      && IsMoveGroup(kin, moveGroupEndEffectors, moveGroupUserJoints)
      && IndicesBelow(moveGroupUserJoints, |kin.jointDim|)
      && qposDim == SumDims(kin, moveGroupUserJoints)
    }

    /**
     * Empty name lists default to the engine's own names; the configuration
     * starts as zeros of full length and the move group spans every user link.
     */
    constructor (kin: Kinematics, jointNames: seq<string>, linkNames: seq<string>)
      requires WellFormed(kin)
      requires |if jointNames == [] then kin.jointNames else jointNames| == |kin.jointDim|
      ensures Valid() && this.kin == kin
      ensures userLinkNames == if linkNames == [] then kin.linkNames else linkNames
      ensures userJointNames == if jointNames == [] then kin.jointNames else jointNames
      ensures currentQpos == seq(kin.nv, _ => 0.0)
      ensures moveGroupEndEffectors == userLinkNames
      ensures posedQpos == []
    {
      this.kin := kin;
      userLinkNames := if linkNames == [] then kin.linkNames else linkNames;
      userJointNames := if jointNames == [] then kin.jointNames else jointNames;
      currentQpos := seq(kin.nv, _ => 0.0);
      moveGroupEndEffectors, moveGroupUserJoints, qposDim := [], [], 0;
      posedQpos := [];
      new;
      SetMoveGroup(userLinkNames);
    }

    /** The move-group joint names, in move-group order. */
    method GetMoveGroupJointNames() returns (names: seq<string>)
      requires Valid()
      ensures |names| == |moveGroupUserJoints|
      ensures forall k :: 0 <= k < |names| ==> names[k] == userJointNames[moveGroupUserJoints[k]]
    {
      names := [];
      for k := 0 to |moveGroupUserJoints|
        invariant |names| == k
        invariant forall m :: 0 <= m < k ==> names[m] == userJointNames[moveGroupUserJoints[m]]
      {
        names := names + [userJointNames[moveGroupUserJoints[k]]];
      }
    }

    /** The move group of a single end-effector link. */
    method SetMoveGroupSingle(endEffector: string)
      requires TablesFit()
      modifies this`moveGroupEndEffectors, this`moveGroupUserJoints, this`qposDim
      ensures Valid()
      ensures moveGroupEndEffectors == [endEffector]
    {
      var endEffectors := [endEffector];
      SetMoveGroup(endEffectors);
    }

    /**
     * Recomputes the move group from the chains of the given links, and the
     * reduced dimension from the joints' degrees of freedom.
     */
    method SetMoveGroup(endEffectors: seq<string>)
      requires TablesFit()
      modifies this`moveGroupEndEffectors, this`moveGroupUserJoints, this`qposDim
      ensures Valid()
      ensures moveGroupEndEffectors == endEffectors
    {
      moveGroupEndEffectors := endEffectors;
      moveGroupUserJoints := [];
      for i := 0 to |endEffectors|
        modifies this`moveGroupUserJoints
        invariant Elements(moveGroupUserJoints) == ChainUnion(kin, endEffectors[..i])
      {
        ChainUnionAppend(kin, endEffectors[..i], endEffectors[i]);
        assert endEffectors[..i + 1] == endEffectors[..i] + [endEffectors[i]];
        moveGroupUserJoints := kin.chainJoints(endEffectors[i]) + moveGroupUserJoints;
      }
      assert endEffectors[..|endEffectors|] == endEffectors;
      moveGroupUserJoints := SortAscending(moveGroupUserJoints);
      moveGroupUserJoints := Unique(moveGroupUserJoints);
      var js := moveGroupUserJoints;
      ChainUnionInRange(kin, endEffectors, js);
      qposDim := 0;
      for k := 0 to |js|
        modifies this`qposDim
        invariant qposDim == SumDims(kin, js[..k])
      {
        assert js[..k + 1][..k] == js[..k];
        qposDim := qposDim + kin.jointDim[js[k]];
      }
      assert js[..|js|] == js;
    }

    /**
     * Writes a configuration. A full one replaces the whole vector; a
     * reduced one must have the move group's dimension and is scattered into
     * the move-group joints' slots. Link poses are then recomputed from the
     * new configuration.
     */
    method SetQpos(qpos: seq<real>, full: bool) returns (r: Outcome<ModelError>)
      requires Valid()
      requires !full ==> |currentQpos| >= kin.nv
      modifies this`currentQpos, this`posedQpos
      ensures Valid()
      ensures full ==> r == Pass && currentQpos == qpos
      ensures !full && |qpos| != qposDim ==> r == Fail(LengthMismatch(qposDim, |qpos|))
      ensures !full && |qpos| == qposDim ==>
                r == Pass && currentQpos == ScatterSlots(kin, moveGroupUserJoints, old(currentQpos), qpos)
      ensures r == Pass ==> posedQpos == currentQpos
      ensures r != Pass ==> currentQpos == old(currentQpos) && posedQpos == old(posedQpos)
    {
      if full {
        currentQpos := qpos;
      } else {
        if |qpos| != qposDim {
          return Fail(LengthMismatch(qposDim, |qpos|));
        }
        WriteReduced(qpos);
      }
      UpdateLinkPoses();
      r := Pass;
    }

    /**
     * The outer loop of a reduced write: each move-group joint in turn takes
     * its block of `qpos`, the running counter `len` marking where the next
     * block starts; the whole of `qpos` is consumed.
     */
    method WriteReduced(qpos: seq<real>)
      requires Valid() && |currentQpos| >= kin.nv && |qpos| == qposDim
      modifies this`currentQpos
      ensures currentQpos == ScatterSlots(kin, moveGroupUserJoints, old(currentQpos), qpos)
    {
      var js := moveGroupUserJoints;
      var len := 0;
      for k := 0 to |js|
        invariant len == SumDims(kin, js[..k])
        invariant len <= |qpos|
        invariant currentQpos == ScatterSlots(kin, js[..k], old(currentQpos), qpos[..len])
      {
        SumDimsPrefix(kin, js, k);
        ScatterSlotsStep(kin, js, old(currentQpos), qpos, k);
        len := WriteJointSlots(kin.jointId[js[k]], kin.jointDim[js[k]], qpos, len);
      }
      assert js[..|js|] == js && qpos[..len] == qpos;
    }

    /**
     * The inner loop of a reduced write: the `dim` slots from `startIdx` take
     * the next `dim` entries of `qpos`, read from position `len` on.
     */
    method WriteJointSlots(startIdx: nat, dim: nat, qpos: seq<real>, len: nat) returns (len': nat)
      requires startIdx + dim <= |currentQpos| && len + dim <= |qpos|
      modifies this`currentQpos
      ensures len' == len + dim
      ensures currentQpos == WriteSlot(old(currentQpos), startIdx, qpos[len..len + dim])
    {
      len' := len;
      for j := 0 to dim
        invariant len' == len + j
        invariant currentQpos == WriteSlot(old(currentQpos), startIdx, qpos[len..len + j])
      {
        WriteSlotExtend(old(currentQpos), startIdx, qpos[len..len + j], qpos[len']);
        assert qpos[len..len + j + 1] == qpos[len..len + j] + [qpos[len']];
        currentQpos := currentQpos[startIdx + j := qpos[len']];
        len' := len' + 1;
      }
    }

    /** Forward kinematics and the collision-model update, as one opaque step. */
    method UpdateLinkPoses()
      modifies this`posedQpos
      ensures posedQpos == currentQpos
    {
      posedQpos := currentQpos;
    }
  }

  /** The factory that builds a model from description strings: the same initial state as the constructor. */
  method CreateFromUrdfString(kin: Kinematics, jointNames: seq<string>, linkNames: seq<string>)
    returns (m: ArticulatedModel)
    requires WellFormed(kin)
    requires |if jointNames == [] then kin.jointNames else jointNames| == |kin.jointDim|
    ensures fresh(m) && m.Valid() && m.kin == kin
    ensures m.userLinkNames == if linkNames == [] then kin.linkNames else linkNames
    ensures m.userJointNames == if jointNames == [] then kin.jointNames else jointNames
    ensures m.currentQpos == seq(kin.nv, _ => 0.0)
    ensures m.moveGroupEndEffectors == m.userLinkNames
    ensures m.posedQpos == []
  {
    m := new ArticulatedModel(kin, jointNames, linkNames);
  }

  /** A full write of a saved configuration undoes any reduced write made after saving it. */
  method RestoreAfterReducedWrite(m: ArticulatedModel, q: seq<real>)
    requires m.Valid() && |m.currentQpos| >= m.kin.nv
    modifies m
    ensures m.Valid()
    ensures m.currentQpos == old(m.currentQpos)
    ensures m.posedQpos == m.currentQpos
  {
    var saved := m.currentQpos;
    var r := m.SetQpos(q, false);
    r := m.SetQpos(saved, true);
  }
}
