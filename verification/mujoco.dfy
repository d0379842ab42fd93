/**
  `MujocoMulti` (harl/envs/mamujoco/multiagent_mujoco/mujoco_multi.py): the bookkeeping that
  turns one MuJoCo robot into a cooperative multi-agent environment. The robot itself, its
  gym wrappers and its observations are outside the model; the robot's step is a parameter
  taking the flat action to a transition.
*/
module MujocoMulti {
  import opened Outcomes
  import EnvModel
  import Partition
  import Categories

  /** The adapter's state after construction. */
  datatype Adapter<T, V> = Adapter(
    nAgents: nat,
    nActions: nat,
    acdims: seq<nat>,
    actionSpace: seq<Partition.Box<T>>,
    trueActionSpace: seq<Partition.Box<T>>,
    kCategories: Option<seq<seq<string>>>,
    globalCategories: Option<seq<string>>,
    episodeLimit: int,
    steps: Option<int>,            // `self.steps`; None until something sets it
    logInfo: EnvModel.Info<V>)     // `self.log_info`

  /** What the robot's own step returns: `(reward_n, done_n, info_n)` (its observation is not
      modelled). */
  datatype Transition<V> = Transition(reward: V, done: bool, info: EnvModel.Info<V>)

  /** The per-agent part of `step`'s result: `[[reward_n]] * n`, `[done_n] * n`, and one info
      dictionary per agent. */
  datatype Replicated<V> = Replicated(rewards: seq<seq<V>>, dones: seq<bool>, infos: seq<EnvModel.Info<V>>)

  datatype AdapterError =
    | NoPartitions                                // `max([])` in the constructor
    | Flattening(cause: Partition.FlattenError)   // building the flat action in `step`
    | StepsUnset                                  // `self.steps += 1` before any reset set it

  const BadTransition: string := "bad_transition"

  /** `max(len(l) for l in partitions)`. */
  function MaxLength<J>(parts: seq<seq<J>>): (m: nat)
    requires |parts| > 0
    ensures forall i :: 0 <= i < |parts| ==> |parts[i]| <= m
    ensures exists i :: 0 <= i < |parts| && |parts[i]| == m
  {
    if |parts| == 1 then
      |parts[0]|
    else
      var rest := MaxLength(parts[1..]);
      assert forall i :: 1 <= i < |parts| ==> parts[i] == parts[1..][i - 1];
      if |parts[0]| >= rest then |parts[0]| else rest
  }

  /** The dimension of every agent's true action box: `true_action_space[i].low.shape[0]`. */
  function TrueLengths<T>(spaces: seq<Partition.Box<T>>): (r: seq<nat>)
    ensures |r| == |spaces| && forall i :: 0 <= i < |spaces| ==> r[i] == |spaces[i].low|
  {
    seq(|spaces|, i requires 0 <= i < |spaces| => |spaces[i].low|)
  }

  /** The constructor, given the agent partitions and the robot's action box (which come from
      collaborators outside the model) and the configuration. The step counter starts as
      `inherited`, whatever the base class leaves there. */
  function Create<J, T, V>(
    parts: seq<seq<J>>, robot: Partition.Box<T>, scenario: string,
    agentObsk: Option<int>, kLabel: Option<string>, globalLabel: Option<string>,
    episodeLimit: int, inherited: Option<int>): (r: Result<Adapter<T, V>, AdapterError>)
    ensures r.Failure? <==> |parts| == 0
    ensures r.Failure? ==> r.error == NoPartitions
    ensures r.Success? ==>
              && r.value.nAgents == |parts| >= 1
              && (forall i :: 0 <= i < |parts| ==> |parts[i]| <= r.value.nActions)
              && (exists i :: 0 <= i < |parts| && |parts[i]| == r.value.nActions)
              && r.value.acdims == Partition.Lengths(parts)
              && r.value.trueActionSpace == Partition.TrueActionSpace(robot, r.value.acdims)
              && r.value.actionSpace == Partition.ActionSpace(robot, r.value.acdims)
              && (r.value.kCategories.Some? <==> agentObsk.Some?)
              && (r.value.globalCategories.Some? <==> agentObsk.Some?)
              && (agentObsk.Some? ==>
                    && r.value.kCategories.value == Categories.KCategories(Categories.Label(kLabel, scenario), agentObsk.value)
                    && r.value.globalCategories.value == Categories.GlobalCategories(globalLabel))
              && r.value.episodeLimit == episodeLimit
              && r.value.steps == inherited
  {
    if |parts| == 0 then
      Failure(NoPartitions)
    else
      var acdims := Partition.Lengths(parts);
      var cats := if agentObsk.Some? then Some(Categories.KCategories(Categories.Label(kLabel, scenario), agentObsk.value)) else None;
      var globals := if agentObsk.Some? then Some(Categories.GlobalCategories(globalLabel)) else None;
      Success(Adapter(|parts|, MaxLength(parts), acdims,
        Partition.ActionSpace(robot, acdims), Partition.TrueActionSpace(robot, acdims),
        cats, globals, episodeLimit, inherited, map[]))
  }

  /** `reset`: the step counter restarts at 0; nothing else the model tracks changes. */
  function Reset<T, V>(ad: Adapter<T, V>): (r: Adapter<T, V>)
    ensures r.steps == Some(0)
    ensures r.(steps := ad.steps) == ad
  {
    ad.(steps := Some(0))
  }

  /** `info` after a step: the robot's info, plus `bad_transition` when the episode ended,
      telling whether the step count reached the episode limit. */
  function StepInfo<V>(t: Transition<V>, steps: int, limit: int, flag: bool -> V): (info: EnvModel.Info<V>)
    ensures BadTransition in info <==> t.done || BadTransition in t.info
    ensures t.done ==> info[BadTransition] == flag(steps >= limit)
    ensures forall k :: k != BadTransition ==> (k in info <==> k in t.info)
    ensures forall k :: k != BadTransition && k in info ==> info[k] == t.info[k]
    ensures !t.done ==> info == t.info
  {
    if t.done then t.info[BadTransition := flag(steps >= limit)] else t.info
  }

  /** The bookkeeping half of `step`, once the robot has returned transition `t`: count the
      step, record the info, and hand every agent the same reward, done flag and info.
      Nothing else in the adapter changes. */
  function Advance<T, V>(ad: Adapter<T, V>, t: Transition<V>, flag: bool -> V): (r: (Adapter<T, V>, Replicated<V>))
    requires ad.steps.Some?
    ensures r.0.steps == Some(ad.steps.value + 1)
    ensures r.0.logInfo == StepInfo(t, ad.steps.value + 1, ad.episodeLimit, flag)
    ensures r.0.(steps := ad.steps, logInfo := ad.logInfo) == ad
    ensures |r.1.rewards| == |r.1.dones| == |r.1.infos| == ad.nAgents
    ensures forall i :: 0 <= i < ad.nAgents ==>
              r.1.rewards[i] == [t.reward] && r.1.dones[i] == t.done && r.1.infos[i] == r.0.logInfo
  {
    var n := ad.steps.value + 1;
    var info := StepInfo(t, n, ad.episodeLimit, flag);
    (ad.(steps := Some(n), logInfo := info),
     Replicated(seq(ad.nAgents, _ => [t.reward]), seq(ad.nAgents, _ => t.done), seq(ad.nAgents, _ => info)))
  }

  /** `step(actions)`: cut every agent's action to its true dimension and concatenate them,
      step the robot with the flat action, then do the bookkeeping. Too few actions, or no
      counter yet, raise. `flag` turns a Python bool into an info value. */
  function Step<T, F, V>(ad: Adapter<T, V>, actions: seq<seq<F>>, robotStep: seq<F> -> Transition<V>, flag: bool -> V)
    : (r: Result<(Adapter<T, V>, Replicated<V>), AdapterError>)
    ensures var flat := Partition.Flatten(TrueLengths(ad.trueActionSpace), actions);
            && (flat.Failure? ==> r == Failure(Flattening(flat.error)))
            && (flat.Success? && ad.steps.None? ==> r == Failure(StepsUnset))
            && (r.Success? <==> flat.Success? && ad.steps.Some?)
            && (r.Success? ==> r.value == Advance(ad, robotStep(flat.value), flag))
    ensures r.Success? ==> && ad.steps.Some? && r.value.0.steps == Some(ad.steps.value + 1)
                           && r.value.0.episodeLimit == ad.episodeLimit
                           && r.value.0.trueActionSpace == ad.trueActionSpace
  {
    var flat := Partition.Flatten(TrueLengths(ad.trueActionSpace), actions);
    if flat.Failure? then
      Failure(Flattening(flat.error))
    else
      var t := robotStep(flat.value);
      if ad.steps.None? then Failure(StepsUnset) else Success(Advance(ad, t, flag))
  }

  /** A sequence of steps, the `k`-th with the `k`-th batch of actions and robot step. */
  function Steps<T, F, V>(ad: Adapter<T, V>, batches: seq<seq<seq<F>>>, robotSteps: seq<seq<F> -> Transition<V>>, flag: bool -> V)
    : (r: Result<Adapter<T, V>, AdapterError>)
    requires |robotSteps| == |batches|
    ensures r.Success? && |batches| > 0 ==> ad.steps.Some?
    ensures r.Success? && ad.steps.Some? ==> r.value.steps == Some(ad.steps.value + |batches|)
    ensures r.Success? ==> r.value.episodeLimit == ad.episodeLimit && r.value.trueActionSpace == ad.trueActionSpace
    decreases |batches|
  {
    if |batches| == 0 then
      Success(ad)
    else
      var n := |batches| - 1;
      var before :- Steps(ad, batches[..n], robotSteps[..n], flag);
      var (after, _) :- Step(before, batches[n], robotSteps[n], flag);
      Success(after)
  }

  /** After `reset` and `k` steps the counter is `k`. */
  lemma CounterAfterReset<T, F, V>(ad: Adapter<T, V>, batches: seq<seq<seq<F>>>, robotSteps: seq<seq<F> -> Transition<V>>, flag: bool -> V)
    requires |robotSteps| == |batches|
    requires Steps(Reset(ad), batches, robotSteps, flag).Success?
    ensures Steps(Reset(ad), batches, robotSteps, flag).value.steps == Some(|batches|)
  {
  }

  /** So the `k`-th step after `reset` of an episode that ends there marks `bad_transition`
      exactly when `k` has reached the episode limit, and a step that does not end the episode
      passes the robot's info through unchanged. */
  lemma BadTransitionAfterReset<T, F, V>(ad: Adapter<T, V>, batches: seq<seq<seq<F>>>, robotSteps: seq<seq<F> -> Transition<V>>, flag: bool -> V)
    requires |robotSteps| == |batches| > 0
    requires Steps(Reset(ad), batches, robotSteps, flag).Success?
    ensures var k := |batches|;
            var before := Steps(Reset(ad), batches[..k - 1], robotSteps[..k - 1], flag);
            && before.Success?
            && Partition.Flatten(TrueLengths(before.value.trueActionSpace), batches[k - 1]).Success?
            && Steps(Reset(ad), batches, robotSteps, flag).value.logInfo
                 == StepInfo(robotSteps[k - 1](Partition.Flatten(TrueLengths(before.value.trueActionSpace), batches[k - 1]).value),
                             k, ad.episodeLimit, flag)
  {
    var k := |batches|;
    LastStep(Reset(ad), batches, robotSteps, flag);
    CounterAfterReset(ad, batches[..k - 1], robotSteps[..k - 1], flag);
  }

  /** A successful run of steps is a successful shorter run followed by one successful step. */
  lemma LastStep<T, F, V>(ad: Adapter<T, V>, batches: seq<seq<seq<F>>>, robotSteps: seq<seq<F> -> Transition<V>>, flag: bool -> V)
    requires |robotSteps| == |batches| > 0
    requires Steps(ad, batches, robotSteps, flag).Success?
    ensures var k := |batches|;
            var before := Steps(ad, batches[..k - 1], robotSteps[..k - 1], flag);
            && before.Success?
            && Step(before.value, batches[k - 1], robotSteps[k - 1], flag).Success?
            && Steps(ad, batches, robotSteps, flag).value == Step(before.value, batches[k - 1], robotSteps[k - 1], flag).value.0
  {
  }

  /** Every agent sees the robot's single `done_n`, so the worker's `np.all(dones)` over the
      replicated flags is exactly `done_n` (the adapter always has at least one agent). */
  lemma ReplicatedDoneIsRobotDone<T, F, V>(ad: Adapter<T, V>, actions: seq<seq<F>>, robotStep: seq<F> -> Transition<V>, flag: bool -> V)
    requires ad.nAgents >= 1
    requires Step(ad, actions, robotStep, flag).Success?
    ensures var rep := Step(ad, actions, robotStep, flag).value.1;
            EnvModel.AllDone(EnvModel.PerAgent(rep.dones))
              == robotStep(Partition.Flatten(TrueLengths(ad.trueActionSpace), actions).value).done
  {
    var rep := Step(ad, actions, robotStep, flag).value.1;
    assert rep.dones[0] == robotStep(Partition.Flatten(TrueLengths(ad.trueActionSpace), actions).value).done;
  }

  /** When the robot has at least `sum(acdims)` actuators, agents padded to any common width
      drive the robot with exactly their unpadded actions, concatenated in agent order: the
      flattening in `step`, reading each agent's dimension off `true_action_space`, undoes
      the padding. */
  lemma StepSeesUnpaddedActions<T, F>(robot: Partition.Box<T>, acdims: seq<nat>, raw: seq<seq<F>>, padded: seq<seq<F>>)
    requires |acdims| > 0
    requires |robot.low| >= Partition.Sum(acdims) && |robot.high| >= Partition.Sum(acdims)
    requires Partition.Lengths(raw) == acdims
    requires |padded| >= |raw| && forall i :: 0 <= i < |raw| ==> |raw[i]| <= |padded[i]| && padded[i][..|raw[i]|] == raw[i]
    ensures Partition.Flatten(TrueLengths(Partition.TrueActionSpace(robot, acdims)), padded) == Success(Partition.Concat(raw))
  {
    assert TrueLengths(Partition.TrueActionSpace(robot, acdims)) == acdims by {
      var spaces := Partition.TrueActionSpace(robot, acdims);
      Partition.LowsLengths(robot, acdims);
      assert TrueLengths(spaces) == Partition.Lengths(Partition.LowBounds(spaces));
    }
    Partition.FlattenUndoesPadding(raw, padded);
  }
}
