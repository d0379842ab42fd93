/**
  `ShareDummyVecEnv` (harl/envs/env_wrappers.py): the same batching and auto-reset rule
  as the subprocess version, with every environment held and stepped in-process.
*/
module Dummy {
  import opened Outcomes
  import opened EnvModel

  /** The environments' states, the actions stored by `step_async` (None when no step is
      pending), and the agent count and spaces taken from environment 0. */
  datatype DummyVecEnv<S, A, V> = DummyVecEnv(envs: seq<S>, actions: Option<seq<A>>, nAgents: nat, spaces: Spaces<V>)

  function Min(a: nat, b: nat): nat
  {
    if a <= b then a else b
  }

  /** `ShareDummyVecEnv.__init__`: environment 0 supplies the spaces and the agent count;
      with no environments `self.envs[0]` raises. */
  function Create<S, A, V>(env: Env<S, A, V>, inits: seq<S>): (r: Result<DummyVecEnv<S, A, V>, Error>)
    ensures r.Success? <==> |inits| > 0
    ensures r.Failure? ==> r.error == NoEnvironments
    ensures r.Success? ==> r.value.envs == inits && r.value.actions.None?
    ensures r.Success? ==> r.value.nAgents == env.nAgents(inits[0]) && r.value.spaces == env.spaces(inits[0])
  {
    if |inits| == 0 then Failure(NoEnvironments) else Success(DummyVecEnv(inits, None, env.nAgents(inits[0]), env.spaces(inits[0])))
  }

  /** `step_async`: only stores the actions; no environment moves until `step_wait`. */
  function StepAsync<S, A, V>(d: DummyVecEnv<S, A, V>, actions: seq<A>): (r: DummyVecEnv<S, A, V>)
    ensures r.actions == Some(actions)
    ensures r.envs == d.envs && r.nAgents == d.nAgents && r.spaces == d.spaces
  {
    d.(actions := Some(actions))
  }

  /** The auto-reset pass of `step_wait`: for each index in order, the rule applied to that
      environment's step result; the pass raises at the first index whose auto-reset raises. */
  function ResetPass<S, A, V>(env: Env<S, A, V>, stepped: seq<(S, StepOut<V>)>): (r: Result<seq<(S, StepOut<V>)>, Error>)
    ensures r.Success? <==> forall i :: 0 <= i < |stepped| ==> AutoReset(env, stepped[i].0, stepped[i].1).Success?
    ensures r.Success? ==> |r.value| == |stepped| && forall i :: 0 <= i < |stepped| ==>
              r.value[i] == AutoReset(env, stepped[i].0, stepped[i].1).value
  {
    if |stepped| == 0 then
      Success([])
    else
      var first :- AutoReset(env, stepped[0].0, stepped[0].1);
      var rest :- ResetPass(env, stepped[1..]);
      Success([first] + rest)
  }

  /** `step_wait`: step the first `min(|actions|, |envs|)` environments (`zip` truncates), then
      apply the auto-reset rule index by index, and forget the stored actions. Without stored
      actions `zip(None, ...)` raises, and no results at all cannot be unpacked. */
  function StepWait<S, A, V>(env: Env<S, A, V>, d: DummyVecEnv<S, A, V>): (r: Result<(DummyVecEnv<S, A, V>, seq<StepOut<V>>), Error>)
    ensures d.actions.None? ==> r == Failure(NoPendingActions)
    ensures d.actions.Some? && (|d.actions.value| == 0 || |d.envs| == 0) ==> r == Failure(EmptyBatch)
    ensures r.Success? ==> r.value.0.actions.None? && |r.value.0.envs| == |d.envs|
    ensures r.Success? ==> r.value.0.nAgents == d.nAgents && r.value.0.spaces == d.spaces
  {
    match d.actions
    case None => Failure(NoPendingActions)
    case Some(acts) =>
      var n := Min(|acts|, |d.envs|);
      if n == 0 then
        Failure(EmptyBatch)
      else
        var stepped := seq(n, i requires 0 <= i < n => env.step(d.envs[i], acts[i]));
        var results :- ResetPass(env, stepped);
        var envs := seq(|d.envs|, i requires 0 <= i < |d.envs| => if i < n then results[i].0 else d.envs[i]);
        var batch := seq(n, i requires 0 <= i < n => results[i].1);
        Success((d.(envs := envs, actions := None), batch))
  }

  /** `ShareVecEnv.step`: `step_async` followed by `step_wait`. */
  function StepSync<S, A, V>(env: Env<S, A, V>, d: DummyVecEnv<S, A, V>, actions: seq<A>)
    : Result<(DummyVecEnv<S, A, V>, seq<StepOut<V>>), Error>
  {
    StepWait(env, StepAsync(d, actions))
  }

  /** `reset`: every environment's `reset()` triple, in index order. Stored actions are kept.
      With no environments, `zip` of no results leaves nothing to unpack. */
  function Reset<S, A, V>(env: Env<S, A, V>, d: DummyVecEnv<S, A, V>): (r: Result<(DummyVecEnv<S, A, V>, seq<ResetOut<V>>), Error>)
    ensures r.Failure? <==> |d.envs| == 0
    ensures r.Failure? ==> r.error == EmptyBatch
    ensures r.Success? ==> |r.value.1| == |d.envs| && |r.value.0.envs| == |d.envs| && r.value.0.actions == d.actions
    ensures r.Success? ==> forall i :: 0 <= i < |d.envs| ==>
              r.value.1[i] == env.reset(d.envs[i]).1 && r.value.0.envs[i] == env.reset(d.envs[i]).0
  {
    if |d.envs| == 0 then
      Failure(EmptyBatch)
    else
      Success((d.(envs := seq(|d.envs|, i requires 0 <= i < |d.envs| => env.reset(d.envs[i]).0)),
               seq(|d.envs|, i requires 0 <= i < |d.envs| => env.reset(d.envs[i]).1)))
  }

  /** `close`: closes every environment. There is no `closed` flag, so each call closes them again. */
  function Close<S, A, V>(env: Env<S, A, V>, d: DummyVecEnv<S, A, V>): (r: DummyVecEnv<S, A, V>)
    ensures |r.envs| == |d.envs| && forall i :: 0 <= i < |d.envs| ==> r.envs[i] == env.close(d.envs[i])
  {
    d.(envs := seq(|d.envs|, i requires 0 <= i < |d.envs| => env.close(d.envs[i])))
  }

  /** With one action per environment, `step` is the reference lockstep: it succeeds exactly when
      every environment's step-and-auto-reset succeeds, and then batch position i and environment
      i's new state are those of environment i's own step. */
  lemma StepMatchesLockstep<S, A, V>(env: Env<S, A, V>, d: DummyVecEnv<S, A, V>, actions: seq<A>)
    requires |actions| == |d.envs| > 0
    ensures var r := StepSync(env, d, actions);
            var ref := Lockstep(env, d.envs, actions);
            && (r.Success? <==> ref.Success?)
            && (r.Success? ==> r.value.1 == ref.value.1 && r.value.0.envs == ref.value.0 && r.value.0.actions.None?)
  {
    var n := |d.envs|;
    var stepped := seq(n, i requires 0 <= i < n => env.step(d.envs[i], actions[i]));
    assert forall i :: 0 <= i < n ==> AutoReset(env, stepped[i].0, stepped[i].1) == StepAndReset(env, d.envs[i], actions[i]);
  }

  /** With fewer actions than environments only the first `|actions|` environments step: the
      step succeeds exactly when the reference lockstep over those environments does, the batch
      is that long, and every other environment is left as it was. */
  lemma ShortActionsStepPrefix<S, A, V>(env: Env<S, A, V>, d: DummyVecEnv<S, A, V>, actions: seq<A>)
    requires 0 < |actions| < |d.envs|
    ensures StepSync(env, d, actions).Success? <==> Lockstep(env, d.envs[..|actions|], actions).Success?
    ensures StepSync(env, d, actions).Success? ==>
            var (d2, batch) := StepSync(env, d, actions).value;
            && |batch| == |actions|
            && (forall i :: 0 <= i < |actions| ==>
                  && StepAndReset(env, d.envs[i], actions[i]).Success?
                  && (d2.envs[i], batch[i]) == StepAndReset(env, d.envs[i], actions[i]).value)
            && forall i :: |actions| <= i < |d.envs| ==> d2.envs[i] == d.envs[i]
  {
    var n := |actions|;
    var stepped := seq(n, i requires 0 <= i < n => env.step(d.envs[i], actions[i]));
    assert forall i :: 0 <= i < n ==> AutoReset(env, stepped[i].0, stepped[i].1) == StepAndReset(env, d.envs[i], actions[i]);
  }

  /** `zip(self.actions, self.envs)` drops the actions beyond the last environment: `step` with
      extra actions is `step` with one action per environment. */
  lemma ExtraActionsIgnored<S, A, V>(env: Env<S, A, V>, d: DummyVecEnv<S, A, V>, actions: seq<A>)
    requires |actions| >= |d.envs|
    ensures StepSync(env, d, actions) == StepSync(env, d, actions[..|d.envs|])
  {
    var n := |d.envs|;
    if n > 0 {
      var s1 := seq(n, i requires 0 <= i < n => env.step(d.envs[i], actions[i]));
      var s2 := seq(n, i requires 0 <= i < n => env.step(d.envs[i], actions[..n][i]));
      assert s1 == s2;
    }
  }

  /** Closing twice closes every environment twice: unlike the subprocess version, `close` is not
      guarded by a flag. */
  lemma CloseTwiceClosesTwice<S, A, V>(env: Env<S, A, V>, d: DummyVecEnv<S, A, V>)
    ensures forall i :: 0 <= i < |d.envs| ==> Close(env, Close(env, d)).envs[i] == env.close(env.close(d.envs[i]))
  {
  }
}
