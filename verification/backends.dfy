/**
  The two vectorised environments of harl/envs/env_wrappers.py present one interface:
  a caller written against `ShareSubprocVecEnv` sees the same results from
  `ShareDummyVecEnv`, as long as it keeps to the protocol.
*/
module Backends {
  import opened Outcomes
  import opened EnvModel
  import Subproc
  import Dummy

  /** The two orchestrators hold the same environments, in the same states and order, with
      nothing pending, and expose the same agent count and spaces. */
  ghost predicate Corresponds<S, A, V>(v: Subproc.SubprocVecEnv<S, A, V>, d: Dummy.DummyVecEnv<S, A, V>)
  {
    && Subproc.Ready(v)
    && d.actions.None?
    && Subproc.Envs(v) == d.envs
    && v.nAgents == d.nAgents
    && v.spaces == d.spaces
  }

  /** Built from the same environments, the two orchestrators both fail (no environments) or
      both succeed and correspond. */
  lemma CreateAgrees<S, A, V>(env: Env<S, A, V>, inits: seq<S>)
    ensures Subproc.Create(env, inits).Success? == Dummy.Create(env, inits).Success?
    ensures Subproc.Create(env, inits).Success? ==>
              Corresponds(Subproc.Create(env, inits).value, Dummy.Create(env, inits).value)
  {
    Subproc.CreateAdoptsWorkerZero(env, inits);
  }

  /** `step` with one action per environment behaves identically on corresponding orchestrators:
      both succeed or both raise, the batches are equal, and the orchestrators correspond again. */
  lemma StepAgrees<S, A, V>(env: Env<S, A, V>, v: Subproc.SubprocVecEnv<S, A, V>, d: Dummy.DummyVecEnv<S, A, V>, actions: seq<A>)
    requires Corresponds(v, d) && |actions| == |d.envs| > 0
    ensures var rs := Subproc.StepSync(env, v, actions);
            var rd := Dummy.StepSync(env, d, actions);
            && (rs.Success? <==> rd.Success?)
            && (rs.Success? ==> rs.value.1 == rd.value.1 && Corresponds(rs.value.0, rd.value.0))
  {
    Subproc.StepMatchesLockstep(env, v, actions);
    Dummy.StepMatchesLockstep(env, d, actions);
    var rs := Subproc.StepSync(env, v, actions);
    if rs.Success? {
      var v1 := Subproc.StepAsync(env, v, actions).value;
      assert rs.value.0.nAgents == v1.nAgents == v.nAgents;
    }
  }

  /** With fewer actions than environments the two orchestrators part ways: the subprocess
      version waits for a reply from a worker that was sent no step (`NoReply`), while the
      in-process version steps the first environments and returns a shorter batch whenever
      their steps succeed. */
  lemma ShortActionsDiverge<S, A, V>(env: Env<S, A, V>, v: Subproc.SubprocVecEnv<S, A, V>, d: Dummy.DummyVecEnv<S, A, V>, actions: seq<A>)
    requires Corresponds(v, d) && 0 < |actions| < |d.envs|
    requires Lockstep(env, d.envs[..|actions|], actions).Success?
    ensures Subproc.StepSync(env, v, actions).Failure?
    ensures Dummy.StepSync(env, d, actions).Success? && |Dummy.StepSync(env, d, actions).value.1| == |actions|
  {
    Subproc.ShortActionsStepFails(env, v, actions);
    Dummy.ShortActionsStepPrefix(env, d, actions);
  }

  /** `reset` behaves identically on corresponding orchestrators. */
  lemma ResetAgrees<S, A, V>(env: Env<S, A, V>, v: Subproc.SubprocVecEnv<S, A, V>, d: Dummy.DummyVecEnv<S, A, V>)
    requires Corresponds(v, d)
    ensures Subproc.Reset(env, v).Success? && Dummy.Reset(env, d).Success?
    ensures Subproc.Reset(env, v).value.1 == Dummy.Reset(env, d).value.1
    ensures Corresponds(Subproc.Reset(env, v).value.0, Dummy.Reset(env, d).value.0)
  {
    Subproc.ResetOnReady(env, v);
  }
}
