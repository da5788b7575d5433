/**
 * The glue between the sampling planner and the planning world: element-wise
 * conversions between the two vector representations, the state conversion
 * built on them, and the validity checker that writes a state into the
 * world before asking it about collisions or distance.
 *
 * The planner's state type is a type parameter and its state-to-vector
 * extraction a function parameter; the world's collision and distance
 * queries are functions of the configuration last written into it.
 */
module OmplPlanner {

  /** The element-wise cast of `x`. */
  function Converted<A, B>(x: seq<A>, cast: A -> B): (r: seq<B>)
    ensures |r| == |x|
    ensures forall i :: 0 <= i < |x| ==> r[i] == cast(x[i])
  {
    if x == [] then [] else [cast(x[0])] + Converted(x[1..], cast)
  }

  /** With the same element type on both sides the cast is the identity, and so is the conversion. */
  lemma ConvertedIdentity<A>(x: seq<A>)
    ensures Converted(x, (a: A) => a) == x
  {
  }

  /** Converting with a cast and then with its inverse gives the input back. */
  lemma ConvertedRoundTrip<A, B>(x: seq<A>, cast: A -> B, back: B -> A)
    requires forall a :: back(cast(a)) == a
    ensures Converted(Converted(x, cast), back) == x
  {
  }

  /** `eigen2vector`: pushes the cast of each entry of `x` onto an empty list. */
  method EigenToVector<A, B>(x: seq<A>, cast: A -> B) returns (r: seq<B>)
    ensures r == Converted(x, cast)
  {
    r := [];
    for i := 0 to |x|
      invariant r == Converted(x[..i], cast)
    {
      r := r + [cast(x[i])];
    }
    assert x[..|x|] == x;
  }

  /** `vector2eigen`: sizes a vector like `x` and sets each entry to the cast of `x`'s entry. */
  method VectorToEigen<A, B(0)>(x: seq<A>, cast: A -> B) returns (r: seq<B>)
    ensures r == Converted(x, cast)
  {
    var ret := new B[|x|];
    for i := 0 to |x|
      invariant forall l :: 0 <= l < i ==> ret[l] == cast(x[l])
    {
      ret[i] := cast(x[i]);
    }
    r := ret[..];
  }

  /** With the same scalar type on both sides, the two conversions undo each other. */
  method ConversionsRoundTrip(x: seq<real>) returns (v: seq<real>, y: seq<real>)
    ensures v == x && y == x
  {
    v := EigenToVector(x, (a: real) => a);
    y := VectorToEigen(v, (a: real) => a);
    ConvertedIdentity(x);
  }

  /** `state2eigen`: the planner state's vector, converted without a change of scalar type. */
  function StateToEigen<St>(state: St, stateToVector: St -> seq<real>): (r: seq<real>)
    ensures r == stateToVector(state)
  {
    ConvertedIdentity(stateToVector(state));
    Converted(stateToVector(state), (a: real) => a)
  }

  /**
   * The part of the planning world the validity checker uses: the
   * configuration of the planned articulations, and the collision and
   * distance queries, which depend on the world only through that
   * configuration here.
   */
  class PlanningWorld {
    var qpos: seq<real>
    const collidesAt: seq<real> -> bool
    const distanceAt: seq<real> -> real

    constructor (qpos: seq<real>, collidesAt: seq<real> -> bool, distanceAt: seq<real> -> real)
      ensures this.qpos == qpos && this.collidesAt == collidesAt && this.distanceAt == distanceAt
    {
      this.qpos, this.collidesAt, this.distanceAt := qpos, collidesAt, distanceAt;
    }

    /** `setQposAll`: the planned configuration becomes `state`. */
    method SetQposAll(state: seq<real>)
      modifies this`qpos
      ensures qpos == state
    {
      qpos := state;
    }

    /** `collide`: whether the world is in collision at the planned configuration. */
    method Collide() returns (c: bool)
      ensures c == collidesAt(qpos)
    {
      c := collidesAt(qpos);
    }

    /** `distance`: the world's minimum distance at the planned configuration. */
    method Distance() returns (d: real)
      ensures d == distanceAt(qpos)
    {
      d := distanceAt(qpos);
    }
  }

  class ValidityChecker<St> {
    const world: PlanningWorld
    const stateToVector: St -> seq<real>

    constructor (world: PlanningWorld, stateToVector: St -> seq<real>)
      ensures this.world == world && this.stateToVector == stateToVector
    {
      this.world, this.stateToVector := world, stateToVector;
    }

    /** A configuration is valid when the world reports no collision at it. */
    ghost predicate ValidAt(q: seq<real>) {
      !world.collidesAt(q)
    }

    /** `isValid`: writes the state into the world, then reports whether it is collision free. */
    method IsValid(state: St) returns (valid: bool)
      modifies world`qpos
      ensures world.qpos == stateToVector(state)
      ensures valid <==> ValidAt(stateToVector(state))
    {
      world.SetQposAll(StateToEigen(state, stateToVector));
      var c := world.Collide();
      valid := !c;
    }

    /** `clearance`: writes the state into the world, then reports the world's distance there. */
    method Clearance(state: St) returns (d: real)
      modifies world`qpos
      ensures world.qpos == stateToVector(state)
      ensures d == world.distanceAt(stateToVector(state))
    {
      world.SetQposAll(StateToEigen(state, stateToVector));
      d := world.Distance();
    }

    /** `_isValid`: the same check for a configuration given directly as a vector. */
    method IsValidVector(state: seq<real>) returns (valid: bool)
      modifies world`qpos
      ensures world.qpos == state
      ensures valid <==> ValidAt(state)
    {
      world.SetQposAll(state);
      var c := world.Collide();
      valid := !c;
    }
  }

  /**
   * Checking a planner state and checking its vector directly give the same
   * answer and leave the world in the same configuration.
   */
  method ValidityFormsAgree<St>(checker: ValidityChecker<St>, state: St) returns (a: bool, b: bool)
    modifies checker.world`qpos
    ensures a == b
    ensures checker.world.qpos == checker.stateToVector(state)
  {
    a := checker.IsValid(state);
    var afterState := checker.world.qpos;
    b := checker.IsValidVector(StateToEigen(state, checker.stateToVector));
    assert checker.world.qpos == afterState;
  }
}
