/**
  The single-environment contract the vectorised environments drive, and the
  auto-reset-on-termination rule they apply to every step
  (harl/envs/env_wrappers.py, `shareworker` and `ShareDummyVecEnv.step_wait`).

  The simulation itself is abstract: an `Env` value carries the environment's
  `step`, `reset`, ... as total functions over an environment state `S`.
  Observations, shared observations, rewards, available-action masks, spaces
  and frames are opaque payloads of type `V`.
*/
module EnvModel {
  import opened Outcomes

  /** `done` as an environment reports it: one flag for the whole episode, or one per agent. */
  datatype Done = Scalar(flag: bool) | PerAgent(flags: seq<bool>)

  /** Termination as the worker decides it: the flag itself, or `np.all` of the flags
      (which holds vacuously for an empty collection). */
  predicate AllDone(d: Done)
  {
    match d
    case Scalar(b) => b
    case PerAgent(fs) => forall i :: 0 <= i < |fs| ==> fs[i]
  }

  /** One agent's `info` dictionary. */
  type Info<V> = map<string, V>

  const OriginalObs: string := "original_obs"
  const OriginalState: string := "original_state"
  const OriginalAvailActions: string := "original_avail_actions"

  /** The keys under which auto-reset records the terminal transition in `info[0]`. */
  const RecordedKeys: set<string> := {OriginalObs, OriginalState, OriginalAvailActions}

  /** The six-tuple `(obs, share_obs, reward, done, info, available_actions)` of one step. */
  datatype StepOut<V> = StepOut(
    obs: V,
    sharedObs: V,
    reward: V,
    done: Done,
    info: seq<Info<V>>,
    availActions: V)

  /** The triple `(obs, share_obs, available_actions)` returned by `reset`. */
  datatype ResetOut<V> = ResetOut(obs: V, sharedObs: V, availActions: V)

  /** `(observation_space, share_observation_space, action_space)`. */
  datatype Spaces<V> = Spaces(observation: V, shareObservation: V, action: V)

  /** The single-environment contract: every operation maps the environment's
      state to its next state and the value it returns; `spaces` and `nAgents` are the
      `observation_space`/`share_observation_space`/`action_space` and `n_agents` attributes
      as read in a given state, so that two environments may answer differently. */
  datatype Env<!S, !A, !V> = Env(
    step: (S, A) -> (S, StepOut<V>),
    reset: S -> (S, ResetOut<V>),
    resetTask: S -> (S, V),
    render: (S, string) -> (S, V),
    renderVulnerability: (S, V) -> (S, V),
    close: S -> S,
    spaces: S -> Spaces<V>,
    nAgents: S -> nat)

  /** Everything the core can raise or run into. */
  datatype Error =
    | UnsupportedCommand(tag: string)  // a worker got a tag it does not know (NotImplementedError)
    | MissingAgentInfo                 // `info[0]` on an empty info list (IndexError)
    | NoReply(remote: nat)             // `recv` with no reply on its way: a hang, or EOF from a stopped worker
    | BrokenPipe(remote: nat)          // `send` to a worker whose loop has ended
    | MalformedReply                   // a reply that does not unpack into the expected tuple
    | NoEnvironments                   // a vectorised environment built from no environment functions
    | EmptyBatch                       // unpacking `zip(*results)` of no results
    | NoPendingActions                 // `ShareDummyVecEnv.step_wait` while `self.actions` is None

  /** `info[0]` after the terminal observation, state and mask are recorded in it. */
  function RecordTerminal<V>(info0: Info<V>, out: StepOut<V>): Info<V>
  {
    info0[OriginalObs := out.obs][OriginalState := out.sharedObs][OriginalAvailActions := out.availActions]
  }

  /** The auto-reset rule for one environment that has just produced `out` and is in state `s`:
      on termination, record the terminal values in `info[0]` and substitute the
      environment's fresh `reset()` triple; otherwise pass the step through. */
  function AutoReset<S, A, V>(env: Env<S, A, V>, s: S, out: StepOut<V>): (r: Result<(S, StepOut<V>), Error>)
    ensures r.Failure? <==> AllDone(out.done) && |out.info| == 0
    ensures r.Failure? ==> r.error == MissingAgentInfo
  {
    if !AllDone(out.done) then
      Success((s, out))
    else if |out.info| == 0 then
      Failure(MissingAgentInfo)
    else
      var (s2, start) := env.reset(s);
      Success((s2, out.(obs := start.obs,
                        sharedObs := start.sharedObs,
                        availActions := start.availActions,
                        info := out.info[0 := RecordTerminal(out.info[0], out)])))
  }

  /** One environment's `step` followed by the auto-reset rule. */
  function StepAndReset<S, A, V>(env: Env<S, A, V>, s: S, a: A): Result<(S, StepOut<V>), Error>
  {
    var (s1, out) := env.step(s, a);
    AutoReset(env, s1, out)
  }

  /** What a caller recovers from a returned step: the terminal transition stored in `info[0]`,
      if there is one. */
  function TerminalTransition<V>(out: StepOut<V>): Option<ResetOut<V>>
  {
    if |out.info| > 0 && OriginalObs in out.info[0] && OriginalState in out.info[0]
       && OriginalAvailActions in out.info[0]
    then Some(ResetOut(out.info[0][OriginalObs], out.info[0][OriginalState], out.info[0][OriginalAvailActions]))
    else None
  }

  /** On termination the returned observation, shared observation and mask are the fresh
      `reset()` triple, the environment moves to the reset state, and the terminal triple
      is what the caller recovers from `info[0]`. */
  lemma AutoResetOnTermination<S, A, V>(env: Env<S, A, V>, s: S, out: StepOut<V>)
    requires AllDone(out.done) && |out.info| > 0
    ensures AutoReset(env, s, out).Success?
    ensures var (s2, o) := AutoReset(env, s, out).value;
            && s2 == env.reset(s).0
            && ResetOut(o.obs, o.sharedObs, o.availActions) == env.reset(s).1
            && TerminalTransition(o) == Some(ResetOut(out.obs, out.sharedObs, out.availActions))
  {
    var o := AutoReset(env, s, out).value.1;
    assert o.info[0] == RecordTerminal(out.info[0], out);
  }

  /** Without termination the step result and the environment state are passed through unchanged,
      `info` included. */
  lemma NoResetWithoutTermination<S, A, V>(env: Env<S, A, V>, s: S, out: StepOut<V>)
    requires !AllDone(out.done)
    ensures AutoReset(env, s, out) == Success((s, out))
  {
  }

  /** Auto-reset never changes `reward` or `done`, keeps one `info` per agent, and leaves every
      `info` entry other than the three recorded keys of agent 0 as the environment reported it. */
  lemma AutoResetKeepsRewardDoneInfo<S, A, V>(env: Env<S, A, V>, s: S, out: StepOut<V>)
    requires AutoReset(env, s, out).Success?
    ensures var o := AutoReset(env, s, out).value.1;
            && o.reward == out.reward
            && o.done == out.done
            && |o.info| == |out.info|
            && (forall i :: 1 <= i < |o.info| ==> o.info[i] == out.info[i])
            && (|o.info| > 0 ==> forall k :: k in out.info[0] ==> k in o.info[0])
            && (|o.info| > 0 ==>
                  forall k :: k in o.info[0] && k !in RecordedKeys ==> k in out.info[0] && o.info[0][k] == out.info[0][k])
  {
  }

  /** A scalar `done=True` and a per-agent `done` whose flags are all true reset in exactly the same way. */
  lemma ScalarAndPerAgentAgree<S, A, V>(env: Env<S, A, V>, s: S, out: StepOut<V>, flags: seq<bool>)
    requires forall i :: 0 <= i < |flags| ==> flags[i]
    ensures var a := AutoReset(env, s, out.(done := Scalar(true)));
            var b := AutoReset(env, s, out.(done := PerAgent(flags)));
            && a.Success? == b.Success?
            && (a.Success? ==> a.value.0 == b.value.0 && a.value.1 == b.value.1.(done := Scalar(true)))
  {
  }

  /** A per-agent `done` with some agent still running does not reset. */
  lemma PartialDoneDoesNotReset<S, A, V>(env: Env<S, A, V>, s: S, out: StepOut<V>, i: nat)
    requires out.done.PerAgent? && i < |out.done.flags| && !out.done.flags[i]
    ensures AutoReset(env, s, out) == Success((s, out))
  {
  }

  /** The reference behaviour of one batched step: environment i, in state `states[i]`, takes
      action `actions[i]` and the auto-reset rule is applied to it, independently of every
      other index. The batch fails as soon as one environment's auto-reset raises. */
  function Lockstep<S, A, V>(env: Env<S, A, V>, states: seq<S>, actions: seq<A>): (r: Result<(seq<S>, seq<StepOut<V>>), Error>)
    requires |actions| == |states|
    ensures r.Success? <==> forall i :: 0 <= i < |states| ==> StepAndReset(env, states[i], actions[i]).Success?
    ensures r.Success? ==> |r.value.0| == |states| && |r.value.1| == |states|
    ensures r.Success? ==> forall i :: 0 <= i < |states| ==>
              (r.value.0[i], r.value.1[i]) == StepAndReset(env, states[i], actions[i]).value
    decreases |states|
  {
    if |states| == 0 then
      Success(([], []))
    else
      var first :- StepAndReset(env, states[0], actions[0]);
      var rest :- Lockstep(env, states[1..], actions[1..]);
      Success(([first.0] + rest.0, [first.1] + rest.1))
  }
}
