# MPlib configuration bookkeeping, modelled in Dafny

MPlib is a motion-planning library for robot arms. This project models the
index bookkeeping it does around configuration vectors. The physics,
kinematics, collision and search engines it calls are outside the model.

- **Articulated model** (`articulated_model.dfy`, module `ArticulatedModels`).
  An articulation keeps its user-ordered joint and link names, its full
  configuration `currentQpos`, and a *move group*: the joints on the chains
  from the root to chosen end-effector links.
  - `SetMoveGroup` gathers the chain joints, sorts them and removes
    duplicates (`SortedSeqs`). It then sums their degrees of freedom into
    `qposDim`.
  - `SetQpos` either replaces the full configuration or scatters a reduced
    vector of length `qposDim` into the move-group joints' slots. A reduced
    vector of the wrong length fails.
  - The kinematics engine is a table: chain joints per link, plus the first
    slot and width of each joint.
  - Forward kinematics and the collision-pose push are one opaque step.
    Its only record is the configuration the poses were computed from
    (`posedQpos`).
- **KDL model** (`kdl_model.dfy`, module `KdlModels`). The inverse-kinematics
  front end over a KDL tree.
  - The constructor builds a name → user-index map (`IndexMap`) and a
    tree-joint-number → user-index table (`KdlToUser`).
  - Each IK entry point does the same steps:
    - checks the link index;
    - collects the user indices of the chain's non-fixed joints (`ChainUserIndices`);
    - gathers the seed and limits through them (`Gathered`);
    - runs the solver, given as a function parameter;
    - scatters the solution into a copy of the seed (`Overwritten`);
    - returns the solver's status unchanged.
  - Poses `[x, y, z, qw, qx, qy, qz]` become goal frames with the quaternion
    scalar part last (`GoalFrame`).
- **Planner glue** (`ompl_planner.dfy`, module `OmplPlanner`).
  - The element-wise vector conversions between the planner's and the
    linear-algebra library's vectors (`Converted`).
  - The state conversion built on them.
  - The validity checker: it writes a state into the planning world with
    `SetQposAll`, then asks the world about collision or distance.
  - The world is abstract. Its collision and distance answers are functions
    of the configuration last written.

Shared sequence vocabulary (held values, distinctness, index ranges) is in
`seqs.dfy`. Errors the source throws (the `ASSERT` macro, `std::map::at`) are
`Failure` and `Fail` values (`wrappers.dfy`). Out-of-range vector indexing is
undefined behaviour in the source, and becomes a precondition here.
Configuration entries are `real`, because they are only copied, never
computed on.

## Model

| member | source | states |
|---|---|---|
| SortedSeqs.InsertSorted | src/articulated_model.cpp:92 | inserting into a sorted sequence keeps it sorted and adds exactly the one element (multiset) |
| SortedSeqs.SortAscending | src/articulated_model.cpp:92 | `std::sort` of the move-group joints: the result is sorted and a permutation of the input |
| SortedSeqs.Unique | src/articulated_model.cpp:93-95 | `std::unique` plus `erase` on a sorted sequence: the result is strictly ascending, with the same set of elements and no more entries |
| SortedSeqs.AscendingDeterminedByElements | src/articulated_model.cpp:92-95 | two strictly ascending sequences with the same elements are equal, so sort-then-unique leaves exactly one possible result |
| ArticulatedModels.WriteSlot | src/articulated_model.cpp:112 | writing a block over consecutive slots keeps the length; slots inside the block take the block's values, all others keep theirs |
| ArticulatedModels.ScatterSlots | src/articulated_model.cpp:108-113 | a reduced write keeps the configuration's length |
| ArticulatedModels.WriteSlotExtend | src/articulated_model.cpp:112 | one more iteration of the inner loop writes one more slot of the block |
| ArticulatedModels.ScatterSlotsStep | src/articulated_model.cpp:109-113 | one more iteration of the outer loop writes the next joint's block, taken right after the blocks already consumed |
| ArticulatedModels.ChainUnionInRange | src/articulated_model.cpp:87-91 | every joint collected from the chains is a known joint |
| ArticulatedModels.ChainUnionAppend | src/articulated_model.cpp:87-91 | inserting one end effector's chain adds exactly that chain's joints to the collected set |
| ArticulatedModels.SumDimsPrefix | src/articulated_model.cpp:108-113 | the k-th joint's block starts after the earlier joints' blocks and ends within the reduced vector |
| ArticulatedModels.ScatterSlotsAt | src/articulated_model.cpp:108-113 | after a reduced write, slot `jointId(i) + j` of the k-th move-group joint `i` holds `q[off_k + j]`, where `off_k` is the sum of the earlier joints' degrees of freedom |
| ArticulatedModels.ScatterSlotsOutside | src/articulated_model.cpp:108-113 | after a reduced write, every slot outside the move-group joints' slots keeps its value |
| ArticulatedModels.MoveGroupIgnoresOrder | src/articulated_model.cpp:85-95 | the move group depends only on the set of end effectors named, not on their order or repetition |
| ArticulatedModels.MoveGroupOfOneLink | src/articulated_model.cpp:77-80 | the move group of one link is that link's chain, strictly ascending |
| ArticulatedModels.ArticulatedModel.constructor | src/articulated_model.cpp:26-35 | empty name lists default to the engine's names; the configuration starts as `nv` zeros; the move group spans all user links |
| ArticulatedModels.ArticulatedModel.GetMoveGroupJointNames | src/articulated_model.cpp:70-74 | one name per move-group joint, in move-group order: the user joint name at that joint's index |
| ArticulatedModels.ArticulatedModel.SetMoveGroupSingle | src/articulated_model.cpp:77-80 | naming one end effector sets the move group of the one-element list |
| ArticulatedModels.ArticulatedModel.SetMoveGroup | src/articulated_model.cpp:83-98 | records the end effectors; the move-group joints become the union of their chains, strictly ascending; `qposDim` becomes the sum of those joints' degrees of freedom |
| ArticulatedModels.ArticulatedModel.SetQpos | src/articulated_model.cpp:101-126 | a full write replaces the configuration; a reduced write of the wrong length fails and changes nothing; one of the right length scatters into the move-group slots; after a successful write the link poses reflect the new configuration |
| ArticulatedModels.ArticulatedModel.WriteReduced | src/articulated_model.cpp:108-113 | the outer loop of a reduced write leaves the configuration equal to the scatter of the whole reduced vector into the move-group slots |
| ArticulatedModels.ArticulatedModel.WriteJointSlots | src/articulated_model.cpp:110-112 | the inner loop writes the joint's `dim` slots from the next `dim` reduced entries and advances the counter by `dim` |
| ArticulatedModels.ArticulatedModel.UpdateLinkPoses | src/articulated_model.cpp:115-126 | link poses are recomputed from the current configuration |
| ArticulatedModels.CreateFromUrdfString | src/articulated_model.cpp:39-67 | the factory builds the same initial state as the constructor, with no link poses computed yet |
| ArticulatedModels.RestoreAfterReducedWrite | src/articulated_model.cpp:101-126 | a full write of a saved configuration undoes a reduced write made after saving it, keeps the model valid, and the link poses are recomputed from the restored configuration |
| KdlModels.GoalFrame | src/kdl_model.cpp:68-70 | the goal frame takes its translation from pose entries 0-2 and its quaternion arguments `(x, y, z, w)` from entries 4, 5, 6, 3; read back in pose layout, the arguments are the pose |
| KdlModels.IndexMap | src/kdl_model.cpp:36-37 | the name map's keys are exactly the joint names, and each maps to a position holding that name |
| KdlModels.IndexMapLastWins | src/kdl_model.cpp:36-37 | on duplicate joint names the later index wins |
| KdlModels.IndexMapOfDistinct | src/kdl_model.cpp:36-37 | with distinct joint names, `joint_names[i]` maps to `i` |
| KdlModels.KdlToUser | src/kdl_model.cpp:41-50 | the tree-to-user table has one entry per tree joint |
| KdlModels.KdlToUserAt | src/kdl_model.cpp:44-50 | the entry at a segment's joint number is the user index of the segment's joint, when that joint is a user joint and no later such segment has the same number |
| KdlModels.KdlToUserUnmapped | src/kdl_model.cpp:42 | a joint number that no user-joint segment carries keeps the initial value 0 |
| KdlModels.ChainUserIndices | src/kdl_model.cpp:75-80 | collecting chain indices yields one index per non-fixed chain joint, or fails naming a joint that is not a user joint |
| KdlModels.ChainUserIndicesMeaning | src/kdl_model.cpp:75-80 | collecting chain indices succeeds exactly when every non-fixed chain joint is a user joint; it then yields their user indices in chain order, and otherwise names a missing joint |
| KdlModels.ChainUserIndicesBelow | src/kdl_model.cpp:79 | every collected index is a value of the name map |
| KdlModels.ChainIndicesDistinct | src/kdl_model.cpp:75-80 | when the chain's joint names are distinct, so are the user indices collected for them |
| KdlModels.CollectChainIndices | src/kdl_model.cpp:75-80 | the push-back loop computes the chain's user indices, or fails at the first unknown non-fixed joint |
| KdlModels.ChainPrefixFailure | src/kdl_model.cpp:79 | once a lookup fails, the whole collection fails with that error |
| KdlModels.Gathered | src/kdl_model.cpp:81 | the gather has one entry per index, entry `i` being the value at `idx[i]` |
| KdlModels.Overwritten | src/kdl_model.cpp:83-84 | the scatter keeps the seed's length |
| KdlModels.OverwrittenElsewhere | src/kdl_model.cpp:83-84 | scattering leaves every position not in `idx` as in the seed |
| KdlModels.OverwrittenAt | src/kdl_model.cpp:84 | with distinct indices, position `idx[i]` holds solution entry `i` |
| KdlModels.ScatterPlacement | src/kdl_model.cpp:83-84 | after a scatter, positions outside `idx` hold the seed's values, and with distinct indices `idx[i]` holds solution entry `i` |
| KdlModels.GatherAfterScatter | src/kdl_model.cpp:81-84 | gathering what was scattered through distinct indices gives the solution back |
| KdlModels.ScatterOfGather | src/kdl_model.cpp:81-84 | scattering back the gathered seed leaves the seed unchanged |
| KdlModels.Gather | src/kdl_model.cpp:81 | the seed loop gives `q_init(i) == q0[idx[i]]` for every `i` |
| KdlModels.ScatterInto | src/kdl_model.cpp:83-84 | the copy-then-overwrite loop computes the scatter of the solution into the seed |
| KdlModels.GoalFramesKeyed | src/kdl_model.cpp:180-185 | the tree goal map holds each endpoint's frame, built from the pose at its last position |
| KdlModels.GoalFrames | src/kdl_model.cpp:180-185 | the tree goal map is keyed by exactly the endpoints |
| KdlModels.KDLModel.constructor | src/kdl_model.cpp:30-51 | the name map and the tree-to-user table are the ones defined above |
| KdlModels.KDLModel.FillJointIdxMapping | src/kdl_model.cpp:36-37 | the first constructor loop leaves the name map equal to `IndexMap` of the user joint names |
| KdlModels.KDLModel.FillKdl2User | src/kdl_model.cpp:41-50 | the second constructor loop leaves the tree-to-user table equal to `KdlToUser` of the tree's segments |
| KdlModels.KDLModel.CoversEveryChain | src/kdl_model.cpp:79-84 | a vector with an entry per user joint is long enough for every chain's gather and scatter |
| KdlModels.KDLModel.ChainIKLMA | src/kdl_model.cpp:53-86 | fails on an out-of-range link index or an unknown chain joint; otherwise it runs the solver with the weights `[1, 1, 1, 0.01, 0.01, 0.01]` on the gathered seed and returns the solution scattered into the seed, with the solver's status: the result equals the seed outside the chain's indices and, when the chain's joint names are distinct, holds solution entry `i` at chain index `i` |
| KdlModels.KDLModel.ChainIKNR | src/kdl_model.cpp:88-119 | the same failures, gather, scatter, placement and status, with the Newton-Raphson solver |
| KdlModels.KDLModel.ChainIKNRJL | src/kdl_model.cpp:121-161 | the same failures, gather, scatter, placement and status, with joint limits gathered through the same indices as the seed |
| KdlModels.KDLModel.TreeIKNRJL | src/kdl_model.cpp:163-198 | gathers limits and seed through the tree-to-user table, keys the goal frames by endpoint, and runs the solver (1000 iterations, tolerance 1e-6, damping 1e-6); returns the solution scattered into the seed, with the solver's status |
| OmplPlanner.Converted | src/ompl_planner.h:27-40 | the element-wise conversion has the input's length, and element `i` is the cast of element `i` |
| OmplPlanner.ConvertedIdentity | src/ompl_planner.h:27-48 | with the same scalar type on both sides, the conversion is the identity |
| OmplPlanner.ConvertedRoundTrip | src/ompl_planner.h:27-40 | converting with a cast and then with its inverse gives the input back |
| OmplPlanner.EigenToVector | src/ompl_planner.h:27-33 | the push-back loop computes the element-wise conversion |
| OmplPlanner.VectorToEigen | src/ompl_planner.h:35-40 | the sized-then-filled loop computes the element-wise conversion |
| OmplPlanner.ConversionsRoundTrip | src/ompl_planner.h:27-40 | with identical types, converting to a list and back gives the input back |
| OmplPlanner.StateToEigen | src/ompl_planner.h:42-48 | the state's vector, converted, is exactly the planner state's vector |
| OmplPlanner.PlanningWorld.SetQposAll | src/ompl_planner.h:60 | the world's planned configuration becomes the given state |
| OmplPlanner.PlanningWorld.Collide | src/ompl_planner.h:61 | the collision answer is the world's at its planned configuration |
| OmplPlanner.PlanningWorld.Distance | src/ompl_planner.h:71 | the distance answer is the world's at its planned configuration |
| OmplPlanner.ValidityChecker.constructor | src/ompl_planner.h:56-57 | the checker keeps the world it was built with, and the planner's state-to-vector extraction |
| OmplPlanner.ValidityChecker.IsValid | src/ompl_planner.h:59-62 | the world's planned configuration becomes the state's vector, and the answer is true exactly when the world reports no collision there |
| OmplPlanner.ValidityChecker.Clearance | src/ompl_planner.h:69-72 | the world's planned configuration becomes the state's vector, and the answer is the world's distance there |
| OmplPlanner.ValidityChecker.IsValidVector | src/ompl_planner.h:74-77 | the world's planned configuration becomes the given vector, and the answer is true exactly when the world reports no collision there |
| OmplPlanner.ValidityFormsAgree | src/ompl_planner.h:59-62 | checking a state and checking its vector directly give the same answer and leave the world in the same configuration |

## Left out

- Parsing URDF and SRDF, building the kinematic and collision models, and removing collision pairs. The engine's answers are given as data: `Kinematics` for the articulated model, `Tree` for the KDL model.
- Forward kinematics, link poses and the collision-object update in `setQpos`. They are one opaque step, recorded only as `posedQpos`.
- The KDL solvers (`CartToJnt`). They are a function parameter, assumed only to return a solution as long as the seed. Nothing is claimed about convergence or the meaning of the status code.
- `Tree.getChain` failing for an unknown link. The source ignores its result and works on the empty chain. Here `chainTo` is total and returns the empty chain in that case.
- The order of the KDL segment map is given as the order of `Tree.segments`. The map's name ordering is not modelled.
- `KdlModels.KDLModel.ChainIKLMA`, `ChainIKNR`, `ChainIKNRJL` and `TreeIKNRJL` require their vectors to cover the indices used (`CoversChain`, `IndicesBelow`). `TreeIKNRJL` also requires at least as many poses as endpoints (`|endpoints| <= |poses|`). In the source, an index out of range is undefined behaviour.
- KdlModels.GoalFrame: the goal frame is kept as the arguments handed to KDL's quaternion-to-rotation constructor. KDL turns them into a rotation matrix, which does not keep the quaternion's sign or scale, so the contract is about the arguments and not about the rotation.
- The chain IK methods promise the solution at each chain index only when the chain's joint names are distinct (`DistinctJointNames`). A URDF model guarantees this, but the `Tree` given here does not enforce it.
- `KdlModels.KDLModel.constructor` requires every user-joint segment's joint number to lie below the tree's joint count. Otherwise the source writes out of range.
- `ArticulatedModels.ArticulatedModel.SetQpos` requires the current configuration to have at least `nv` entries before a reduced write. A full write in the source may leave a shorter vector, and a later reduced write then indexes outside it (undefined behaviour). A longer vector is handled as in the source: only slots below `nv` are written.
- The scalar type `S` (`float` or `double`) and the casts between element types. They are `real` here, or an arbitrary cast function in the conversions. Rounding is not modelled.
- `state2vector`, the planner state space, `random_sample_nearby` and `plan`. They are declared only, and they are search and randomness. The planner state is a type parameter, and its vector extraction a function parameter.
- The planning world's implementation (`planning_world.h`) is not part of this model. The world is reduced to the configuration last written, plus collision and distance answers that depend on that configuration only. `setQposAll` performs no length check here.
- `mplib/sapien_utils/conversion.py` and the Python bindings. This is glue to the physics engine and to Python, with no logic of its own.
- Console output of the `verbose` flags.
