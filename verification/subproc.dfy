/**
  `ShareSubprocVecEnv` (harl/envs/env_wrappers.py): N workers, one pipe each, driven
  with the two-phase `step_async` / `step_wait` protocol. Process start-up, `daemon`
  and `join` are not modelled; each pipe is a `Channel` whose worker services every
  command as it is sent.
*/
module Subproc {
  import opened Outcomes
  import opened EnvModel
  import opened Worker
  import opened Pipe

  /** The orchestrator: one channel per worker, the `waiting` and `closed` flags, and the
      agent count and spaces adopted from worker 0. */
  datatype SubprocVecEnv<S, A, V> = SubprocVecEnv(
    remotes: seq<Channel<S, A, V>>,
    waiting: bool,
    closed: bool,
    nAgents: nat,
    spaces: Spaces<V>)

  /** Every channel agrees with the worker loop run on what was sent on it. */
  ghost predicate Valid<S, A, V>(env: Env<S, A, V>, v: SubprocVecEnv<S, A, V>)
  {
    forall i :: 0 <= i < |v.remotes| ==> Pipe.Valid(env, v.remotes[i])
  }

  /** Open, at least one worker (as construction guarantees), no step pending, and nothing in
      flight on any channel. */
  predicate Ready<S, A, V>(v: SubprocVecEnv<S, A, V>)
  {
    0 < |v.remotes| && !v.waiting && !v.closed && forall i :: 0 <= i < |v.remotes| ==> Idle(v.remotes[i])
  }

  /** The state of every worker's environment, in index order. */
  function Envs<S, A, V>(v: SubprocVecEnv<S, A, V>): (r: seq<S>)
    ensures |r| == |v.remotes| && forall i :: 0 <= i < |r| ==> r[i] == v.remotes[i].env
  {
    seq(|v.remotes|, i requires 0 <= i < |v.remotes| => v.remotes[i].env)
  }

  /** `for remote, cmd in zip(remotes, cmds): remote.send(cmd)`, from index `i` on: the first
      `min(|remotes|, |cmds|)` workers each get their own command, the rest get nothing. */
  function SendAll<S, A, V>(env: Env<S, A, V>, rs: seq<Channel<S, A, V>>, cmds: seq<Command<A, V>>, i: nat)
    : (r: Result<seq<Channel<S, A, V>>, Error>)
    requires i <= |rs|
    ensures r.Success? <==> forall j :: i <= j < |rs| && j < |cmds| ==> rs[j].status.Serving?
    ensures r.Failure? ==> r.error.BrokenPipe?
    ensures r.Success? ==> |r.value| == |rs|
    ensures r.Success? ==> forall j :: 0 <= j < |rs| ==>
              r.value[j] == if i <= j < |cmds| then Deliver(env, rs[j], cmds[j]) else rs[j]
    decreases |rs| - i
  {
    if i == |rs| || i >= |cmds| then
      Success(rs)
    else
      var c :- Send(env, rs[i], i, cmds[i]);
      assert forall j :: i < j < |rs| ==> rs[i := c][j] == rs[j];
      SendAll(env, rs[i := c], cmds, i + 1)
  }

  /** `[remote.recv() for remote in remotes]`, from index `i` on: one reply from every
      channel, taken in index order. */
  function RecvAll<S, A, V>(rs: seq<Channel<S, A, V>>, i: nat): (r: Result<(seq<Channel<S, A, V>>, seq<Reply<V>>), Error>)
    requires i <= |rs|
    ensures r.Success? <==> forall j :: i <= j < |rs| ==> |rs[j].pending| > 0
    ensures r.Failure? ==> r.error.NoReply?
    ensures r.Success? ==> |r.value.0| == |rs| && |r.value.1| == |rs| - i
    ensures r.Success? ==> forall j :: 0 <= j < |rs| ==>
              r.value.0[j] == if i <= j then Recv(rs[j], j).value.0 else rs[j]
    ensures r.Success? ==> forall k :: 0 <= k < |rs| - i ==> r.value.1[k] == rs[i + k].pending[0]
    decreases |rs| - i
  {
    if i == |rs| then
      Success((rs, []))
    else
      var got :- Recv(rs[i], i);
      assert forall j :: i < j < |rs| ==> rs[i := got.0][j] == rs[j];
      var rest :- RecvAll(rs[i := got.0], i + 1);
      Success((rest.0, [got.1] + rest.1))
  }

  /** Reading every reply as the value a call expects: every reply must have the expected shape. */
  function Unpack<V, T>(replies: seq<Reply<V>>, shape: Reply<V> -> Option<T>): (r: Result<seq<T>, Error>)
    ensures r.Success? <==> forall k :: 0 <= k < |replies| ==> shape(replies[k]).Some?
    ensures r.Failure? ==> r.error == MalformedReply
    ensures r.Success? ==> |r.value| == |replies| && forall k :: 0 <= k < |replies| ==> r.value[k] == shape(replies[k]).value
  {
    if |replies| == 0 then
      Success([])
    else if shape(replies[0]).None? then
      Failure(MalformedReply)
    else
      var rest :- Unpack(replies[1..], shape);
      Success([shape(replies[0]).value] + rest)
  }

  /** How many fields `zip` finds in a reply: six in a step six-tuple, three in a reset triple
      and in the spaces triple. The other replies are not tuples the batch calls unpack; they
      count as width 0, an approximation, since `zip` would iterate an array payload by rows. */
  function Width<V>(r: Reply<V>): nat
  {
    match r
    case Stepped(_) => 6
    case WasReset(_) => 3
    case SpacesOf(_) => 3
    case _ => 0
  }

  /** The first three fields of a tuple reply: what unpacking `zip(*results)` into three names
      keeps of it. */
  function FirstThree<V>(r: Reply<V>): (t: Option<ResetOut<V>>)
    ensures t.Some? <==> Width(r) >= 3
  {
    match r
    case Stepped(o) => Some(ResetOut(o.obs, o.sharedObs, o.reward))
    case WasReset(triple) => Some(triple)
    case SpacesOf(sp) => Some(ResetOut(sp.observation, sp.shareObservation, sp.action))
    case _ => None
  }

  /** `obs, share_obs, available_actions = zip(*results)`. `zip` stops at the shortest reply, so
      the unpacking succeeds exactly when every reply is a tuple of at least three fields and the
      shortest has exactly three; position k then holds the first three fields of reply k. With
      no replies there is nothing to unpack. */
  function UnpackTriples<V>(replies: seq<Reply<V>>): (r: Result<seq<ResetOut<V>>, Error>)
    ensures |replies| == 0 ==> r == Failure(EmptyBatch)
    ensures r.Success? <==> && (forall k :: 0 <= k < |replies| ==> Width(replies[k]) >= 3)
                            && (exists k :: 0 <= k < |replies| && Width(replies[k]) == 3)
    ensures r.Failure? && 0 < |replies| ==> r.error == MalformedReply
    ensures r.Success? ==> |r.value| == |replies| && forall k :: 0 <= k < |replies| ==> Some(r.value[k]) == FirstThree(replies[k])
  {
    if |replies| == 0 then
      Failure(EmptyBatch)
    else if forall k :: 0 <= k < |replies| ==> Width(replies[k]) != 3 then
      Failure(MalformedReply)
    else
      Unpack(replies, FirstThree)
  }

  function AsStep<V>(r: Reply<V>): (o: Option<StepOut<V>>)
    ensures o.Some? <==> r.Stepped?
  {
    if r.Stepped? then Some(r.out) else None
  }

  /** `obs, share_obs, rews, dones, infos, available_actions = zip(*results)`: six names unpack
      only when the shortest reply has six fields, that is when every reply is a step six-tuple.
      With no replies there is nothing to unpack. */
  function UnpackSixTuples<V>(replies: seq<Reply<V>>): (r: Result<seq<StepOut<V>>, Error>)
    ensures |replies| == 0 ==> r == Failure(EmptyBatch)
    ensures r.Success? <==> 0 < |replies| && forall k :: 0 <= k < |replies| ==> replies[k].Stepped?
    ensures r.Failure? && 0 < |replies| ==> r.error == MalformedReply
    ensures r.Success? ==> |r.value| == |replies| && forall k :: 0 <= k < |replies| ==> r.value[k] == replies[k].out
  {
    if |replies| == 0 then Failure(EmptyBatch) else Unpack(replies, AsStep)
  }

  /** The value a `reset_task` reply carries. The source does not unpack here: it hands every
      reply to `np.stack`. A reply of another kind gives `MalformedReply`, which stands in for the
      `np.stack` error this model does not describe. */
  function AsTask<V>(r: Reply<V>): Option<V>
  {
    if r.TaskReset? then Some(r.obs) else None
  }

  /** The command `cmd(x)` for every element `x` of `xs`. */
  function Each<X, A, V>(xs: seq<X>, cmd: X -> Command<A, V>): (r: seq<Command<A, V>>)
    ensures |r| == |xs| && forall i :: 0 <= i < |xs| ==> r[i] == cmd(xs[i])
  {
    seq(|xs|, i requires 0 <= i < |xs| => cmd(xs[i]))
  }

  /** The same command `n` times. */
  function Repeat<A, V>(cmd: Command<A, V>, n: nat): (r: seq<Command<A, V>>)
    ensures |r| == n && forall i :: 0 <= i < n ==> r[i] == cmd
  {
    seq(n, i => cmd)
  }

  /** `ShareSubprocVecEnv.__init__`: one worker per environment, then agent count and spaces
      asked of worker 0 (a fresh worker always answers both, so neither receive can fail). An empty list of environments cannot be unpacked into pipes; otherwise
      construction succeeds and leaves every worker serving its environment in its initial
      state, with nothing in flight. */
  function Create<S, A, V>(env: Env<S, A, V>, inits: seq<S>): (r: Result<SubprocVecEnv<S, A, V>, Error>)
    ensures r.Success? <==> |inits| > 0
    ensures r.Failure? ==> r.error == NoEnvironments
    ensures r.Success? ==> Ready(r.value) && Envs(r.value) == inits
  {
    if |inits| == 0 then
      Failure(NoEnvironments)
    else
      var rs := seq(|inits|, i requires 0 <= i < |inits| => Open<S, A, V>(inits[i]));
      var c0 := Deliver(env, rs[0], GetNumAgents);
      var got0 := Recv(c0, 0).value;
      var c1 := Deliver(env, got0.0, GetSpaces);
      var got1 := Recv(c1, 0).value;
      Success(SubprocVecEnv(rs[0 := got1.0], false, false, got0.1.n, got1.1.spaces))
  }

  /** `step_async`: send `("step", actions[i])` on remote i and set `waiting`. It must not be
      called while a step is pending. */
  function StepAsync<S, A, V>(env: Env<S, A, V>, v: SubprocVecEnv<S, A, V>, actions: seq<A>)
    : (r: Result<SubprocVecEnv<S, A, V>, Error>)
    requires !v.waiting
    ensures r.Success? <==> forall j :: 0 <= j < |v.remotes| && j < |actions| ==> v.remotes[j].status.Serving?
    ensures r.Success? ==> r.value.waiting && r.value.closed == v.closed
    ensures r.Success? ==> r.value.nAgents == v.nAgents && r.value.spaces == v.spaces
    ensures r.Success? ==> |r.value.remotes| == |v.remotes| && forall j :: 0 <= j < |v.remotes| ==>
              r.value.remotes[j].sent == v.remotes[j].sent + (if j < |actions| then [Step(actions[j])] else [])
    ensures r.Success? ==> forall j :: 0 <= j < |v.remotes| ==>
              r.value.remotes[j] == if j < |actions| then Deliver(env, v.remotes[j], Step(actions[j])) else v.remotes[j]
  {
    var rs :- SendAll(env, v.remotes, Each(actions, a => Step(a)), 0);
    Success(v.(remotes := rs, waiting := true))
  }

  /** `step_wait`: one reply from every remote in index order, unpacked into the batch;
      clears `waiting`. */
  function StepWait<S, A, V>(v: SubprocVecEnv<S, A, V>): (r: Result<(SubprocVecEnv<S, A, V>, seq<StepOut<V>>), Error>)
    ensures |v.remotes| == 0 ==> r == Failure(EmptyBatch)
    ensures r.Success? <==> 0 < |v.remotes| && forall j :: 0 <= j < |v.remotes| ==> |v.remotes[j].pending| > 0 && v.remotes[j].pending[0].Stepped?
    ensures r.Success? ==> !r.value.0.waiting && r.value.0.closed == v.closed
    ensures r.Success? ==> |r.value.1| == |v.remotes| && |r.value.0.remotes| == |v.remotes|
    ensures r.Success? ==> forall j :: 0 <= j < |v.remotes| ==>
              && r.value.1[j] == v.remotes[j].pending[0].out
              && r.value.0.remotes[j].received == v.remotes[j].received + [v.remotes[j].pending[0]]
              && r.value.0.remotes[j].pending == v.remotes[j].pending[1..]
              && r.value.0.remotes[j].sent == v.remotes[j].sent
              && r.value.0.remotes[j].env == v.remotes[j].env
              && r.value.0.remotes[j].status == v.remotes[j].status
  {
    var got :- RecvAll(v.remotes, 0);
    assert forall k :: 0 <= k < |v.remotes| ==> got.1[k] == v.remotes[k].pending[0];
    var batch :- UnpackSixTuples(got.1);
    Success((v.(remotes := got.0, waiting := false), batch))
  }

  /** `ShareVecEnv.step`: `step_async` followed by `step_wait`. */
  function StepSync<S, A, V>(env: Env<S, A, V>, v: SubprocVecEnv<S, A, V>, actions: seq<A>)
    : Result<(SubprocVecEnv<S, A, V>, seq<StepOut<V>>), Error>
    requires !v.waiting
  {
    var v1 :- StepAsync(env, v, actions);
    StepWait(v1)
  }

  /** `reset`: send `reset` to every remote, then take one reply from each, and unpack them into
      triples. A success has sent exactly one `reset` on every remote, taken exactly one reply
      from each, returned one triple per worker, and left the flags alone. */
  function Reset<S, A, V>(env: Env<S, A, V>, v: SubprocVecEnv<S, A, V>)
    : (r: Result<(SubprocVecEnv<S, A, V>, seq<ResetOut<V>>), Error>)
    ensures |v.remotes| == 0 ==> r == Failure(EmptyBatch)
    ensures r.Success? ==> && r.value.0.waiting == v.waiting && r.value.0.closed == v.closed
                           && r.value.0.nAgents == v.nAgents && r.value.0.spaces == v.spaces
    ensures r.Success? ==> |r.value.1| == |v.remotes| && |r.value.0.remotes| == |v.remotes|
    ensures r.Success? ==> forall j :: 0 <= j < |v.remotes| ==>
              && r.value.0.remotes[j].sent == v.remotes[j].sent + [Worker.Reset]
              && |r.value.0.remotes[j].received| == |v.remotes[j].received| + 1
  {
    var rs :- SendAll(env, v.remotes, Repeat(Worker.Reset, |v.remotes|), 0);
    var got :- RecvAll(rs, 0);
    var batch :- UnpackTriples(got.1);
    Success((v.(remotes := got.0), batch))
  }

  /** `reset_task`: send `reset_task` to every remote, then take one reply from each. A success
      has sent exactly one `reset_task` on every remote, taken exactly one reply from each,
      returned one value per worker, and left the flags alone. */
  function ResetTask<S, A, V>(env: Env<S, A, V>, v: SubprocVecEnv<S, A, V>)
    : (r: Result<(SubprocVecEnv<S, A, V>, seq<V>), Error>)
    ensures r.Success? ==> && r.value.0.waiting == v.waiting && r.value.0.closed == v.closed
                           && r.value.0.nAgents == v.nAgents && r.value.0.spaces == v.spaces
    ensures r.Success? ==> |r.value.1| == |v.remotes| && |r.value.0.remotes| == |v.remotes|
    ensures r.Success? ==> forall j :: 0 <= j < |v.remotes| ==>
              && r.value.0.remotes[j].sent == v.remotes[j].sent + [Worker.ResetTask]
              && |r.value.0.remotes[j].received| == |v.remotes[j].received| + 1
  {
    var rs :- SendAll(env, v.remotes, Repeat(Worker.ResetTask, |v.remotes|), 0);
    var got :- RecvAll(rs, 0);
    var batch :- Unpack(got.1, AsTask);
    Success((v.(remotes := got.0), batch))
  }

  /** `close`: nothing once closed; otherwise drain one reply per remote if a step is pending,
      send `close` to every remote and set `closed`. `waiting` is left as it was. It fails
      exactly when a pending step has left some remote without a reply, or some worker has
      stopped. */
  function Close<S, A, V>(env: Env<S, A, V>, v: SubprocVecEnv<S, A, V>): (r: Result<SubprocVecEnv<S, A, V>, Error>)
    ensures v.closed ==> r == Success(v)
    ensures !v.closed ==> (r.Success? <==> forall j :: 0 <= j < |v.remotes| ==>
                             v.remotes[j].status.Serving? && (v.waiting ==> |v.remotes[j].pending| > 0))
    ensures r.Success? ==> r.value.closed && r.value.waiting == v.waiting && |r.value.remotes| == |v.remotes|
    ensures r.Success? && !v.closed ==> forall j :: 0 <= j < |v.remotes| ==>
              r.value.remotes[j].sent == v.remotes[j].sent + [Worker.Close]
  {
    if v.closed then
      Success(v)
    else
      var drained :- if v.waiting then RecvAll(v.remotes, 0) else Success((v.remotes, []));
      var rs :- SendAll(env, drained.0, Repeat(Worker.Close, |v.remotes|), 0);
      Success(v.(remotes := rs, closed := true))
  }

  /** A step sent to an idle channel: the worker steps and applies auto-reset, and exactly one
      reply, the auto-reset six-tuple, is left pending unless the auto-reset raised. */
  lemma StepOnIdle<S, A, V>(env: Env<S, A, V>, c: Channel<S, A, V>, a: A)
    requires Idle(c)
    ensures var d := Deliver(env, c, Step(a));
            var r := StepAndReset(env, c.env, a);
            && d.sent == c.sent + [Step(a)]
            && d.received == c.received
            && (|d.pending| > 0 <==> r.Success?)
            && (r.Success? ==> d.pending == [Stepped(r.value.1)] && d.status.Serving? && d.env == r.value.0)
  {
    HandleReplies(env, c.env, Step(a));
  }

  /** `step_async` on a ready orchestrator with at most one action per worker: worker j < |actions|
      has taken its step, and holds the reply for action j exactly when its auto-reset succeeded;
      every other worker is untouched. */
  lemma StepAsyncOnReady<S, A, V>(env: Env<S, A, V>, v: SubprocVecEnv<S, A, V>, actions: seq<A>)
    requires Ready(v) && |actions| <= |v.remotes|
    ensures StepAsync(env, v, actions).Success?
    ensures var v1 := StepAsync(env, v, actions).value;
            && |v1.remotes| == |v.remotes|
            && (forall j :: |actions| <= j < |v.remotes| ==> v1.remotes[j] == v.remotes[j])
            && forall j :: 0 <= j < |actions| ==>
                 var r := StepAndReset(env, v.remotes[j].env, actions[j]);
                 && (|v1.remotes[j].pending| > 0 <==> r.Success?)
                 && (r.Success? ==> v1.remotes[j].pending == [Stepped(r.value.1)]
                                    && v1.remotes[j].status.Serving? && v1.remotes[j].env == r.value.0)
  {
    var v1 := StepAsync(env, v, actions).value;
    forall j | 0 <= j < |actions|
      ensures var r := StepAndReset(env, v.remotes[j].env, actions[j]);
              && (|v1.remotes[j].pending| > 0 <==> r.Success?)
              && (r.Success? ==> v1.remotes[j].pending == [Stepped(r.value.1)]
                                 && v1.remotes[j].status.Serving? && v1.remotes[j].env == r.value.0)
    {
      StepOnIdle(env, v.remotes[j], actions[j]);
    }
  }

  /** `zip(self.remotes, actions)` drops the actions beyond the last worker: `step_async` with
      extra actions sends exactly what it sends with one action per worker. */
  lemma ExtraActionsIgnored<S, A, V>(env: Env<S, A, V>, v: SubprocVecEnv<S, A, V>, actions: seq<A>)
    requires !v.waiting && |actions| >= |v.remotes|
    ensures StepAsync(env, v, actions) == StepAsync(env, v, actions[..|v.remotes|])
  {
    var n := |v.remotes|;
    var cmds := Each(actions, a => Step(a));
    assert cmds[..n] == Each(actions[..n], a => Step(a));
    SendAllPrefix(env, v.remotes, cmds, 0);
  }

  /** Sending pairs commands with channels as `zip` does: commands beyond the last channel are
      never sent. */
  lemma {:induction false} SendAllPrefix<S, A, V>(env: Env<S, A, V>, rs: seq<Channel<S, A, V>>, cmds: seq<Command<A, V>>, i: nat)
    requires i <= |rs| <= |cmds|
    ensures SendAll(env, rs, cmds, i) == SendAll(env, rs, cmds[..|rs|], i)
    decreases |rs| - i
  {
    if i < |rs| {
      assert cmds[..|rs|][i] == cmds[i];
      var c := Send(env, rs[i], i, cmds[i]);
      if c.Success? {
        SendAllPrefix(env, rs[i := c.value], cmds, i + 1);
      }
    }
  }

  /** With fewer actions than workers `step` cannot succeed: a worker that was sent no step has
      no reply on its way, so `step_wait`'s `remote.recv()` would block (`NoReply`). */
  lemma ShortActionsStepFails<S, A, V>(env: Env<S, A, V>, v: SubprocVecEnv<S, A, V>, actions: seq<A>)
    requires Ready(v) && |actions| < |v.remotes|
    ensures StepSync(env, v, actions).Failure?
    ensures StepSync(env, v, actions).error.NoReply?
  {
    StepAsyncOnReady(env, v, actions);
    var v1 := StepAsync(env, v, actions).value;
    assert |v1.remotes[|actions|].pending| == 0;
  }

  /** Index stability and agreement with the reference: on a ready orchestrator, `step` with one
      action per worker succeeds exactly when every environment's step-and-auto-reset succeeds;
      then batch position i is environment i's auto-reset step result, worker i's environment is
      in the state that step left it in, and the orchestrator is ready again. */
  lemma StepMatchesLockstep<S, A, V>(env: Env<S, A, V>, v: SubprocVecEnv<S, A, V>, actions: seq<A>)
    requires Ready(v) && |actions| == |v.remotes|
    ensures var r := StepSync(env, v, actions);
            var ref := Lockstep(env, Envs(v), actions);
            && (r.Success? <==> ref.Success?)
            && (r.Success? ==> r.value.1 == ref.value.1 && Envs(r.value.0) == ref.value.0 && Ready(r.value.0))
  {
    if Lockstep(env, Envs(v), actions).Success? {
      StepSyncWhenLockstepSucceeds(env, v, actions);
    } else {
      StepSyncWhenLockstepFails(env, v, actions);
    }
  }

  lemma StepSyncWhenLockstepSucceeds<S, A, V>(env: Env<S, A, V>, v: SubprocVecEnv<S, A, V>, actions: seq<A>)
    requires Ready(v) && |actions| == |v.remotes| && Lockstep(env, Envs(v), actions).Success?
    ensures var r := StepSync(env, v, actions);
            var ref := Lockstep(env, Envs(v), actions);
            r.Success? && r.value.1 == ref.value.1 && Envs(r.value.0) == ref.value.0 && Ready(r.value.0)
  {
    StepAsyncOnReady(env, v, actions);
    var v1 := StepAsync(env, v, actions).value;
    var ref := Lockstep(env, Envs(v), actions);
    var r := StepWait(v1);
    assert r == StepSync(env, v, actions);
    assert r.Success?;
    var v2 := r.value.0;
    assert forall j :: 0 <= j < |v.remotes| ==> Idle(v2.remotes[j]);
    assert Envs(v2) == ref.value.0;
    assert r.value.1 == ref.value.1;
  }

  lemma StepSyncWhenLockstepFails<S, A, V>(env: Env<S, A, V>, v: SubprocVecEnv<S, A, V>, actions: seq<A>)
    requires Ready(v) && |actions| == |v.remotes| && Lockstep(env, Envs(v), actions).Failure?
    ensures StepSync(env, v, actions).Failure?
  {
    StepAsyncOnReady(env, v, actions);
    var v1 := StepAsync(env, v, actions).value;
    assert StepWait(v1) == StepSync(env, v, actions);
    var j :| 0 <= j < |v.remotes| && StepAndReset(env, Envs(v)[j], actions[j]).Failure?;
    assert |v1.remotes[j].pending| == 0;
  }

  /** A command that calls for a reply, sent to an idle channel, leaves exactly its reply pending. */
  lemma ReplyOnIdle<S, A, V>(env: Env<S, A, V>, c: Channel<S, A, V>, cmd: Command<A, V>)
    requires Idle(c) && (cmd.Reset? || cmd.ResetTask? || cmd.GetNumAgents? || cmd.GetSpaces?)
    ensures var d := Deliver(env, c, cmd);
            && d.status.Serving?
            && d.pending == [Handle(env, c.env, cmd).reply.value]
            && d.env == Handle(env, c.env, cmd).env
  {
  }

  /** The reply a serving remote delivers first once `reset` has been sent to it: whatever was
      already pending, or else the environment's reset triple. */
  function FirstAfterReset<S, A, V>(env: Env<S, A, V>, c: Channel<S, A, V>): Reply<V>
  {
    if |c.pending| > 0 then c.pending[0] else WasReset(env.reset(c.env).1)
  }

  /** What `reset` reads when every worker is serving: the first reply on each remote after the
      `reset` commands, unpacked as triples. */
  lemma ResetReads<S, A, V>(env: Env<S, A, V>, v: SubprocVecEnv<S, A, V>)
    requires forall j :: 0 <= j < |v.remotes| ==> v.remotes[j].status.Serving?
    ensures var heads := seq(|v.remotes|, j requires 0 <= j < |v.remotes| => FirstAfterReset(env, v.remotes[j]));
            && (Reset(env, v).Success? <==> UnpackTriples(heads).Success?)
            && (Reset(env, v).Success? ==> Reset(env, v).value.1 == UnpackTriples(heads).value)
  {
    var heads := seq(|v.remotes|, j requires 0 <= j < |v.remotes| => FirstAfterReset(env, v.remotes[j]));
    var cmds := Repeat<A, V>(Worker.Reset, |v.remotes|);
    var rs := SendAll(env, v.remotes, cmds, 0).value;
    forall j | 0 <= j < |v.remotes|
      ensures |rs[j].pending| > 0 && rs[j].pending[0] == heads[j]
    {
      HandleReplies(env, v.remotes[j].env, Worker.Reset);
    }
    var got := RecvAll(rs, 0).value;
    assert got.1 == heads;
  }

  /** `reset` on a ready orchestrator: batch position i is environment i's `reset()` triple,
      worker i's environment is in its reset state, and the orchestrator is ready again. */
  lemma ResetOnReady<S, A, V>(env: Env<S, A, V>, v: SubprocVecEnv<S, A, V>)
    requires Ready(v)
    ensures Reset(env, v).Success?
    ensures var (w, batch) := Reset(env, v).value;
            && |batch| == |v.remotes|
            && Ready(w)
            && |w.remotes| == |v.remotes|
            && forall j :: 0 <= j < |v.remotes| ==>
                 batch[j] == env.reset(v.remotes[j].env).1 && w.remotes[j].env == env.reset(v.remotes[j].env).0
  {
    ResetReads(env, v);
    var heads := seq(|v.remotes|, j requires 0 <= j < |v.remotes| => FirstAfterReset(env, v.remotes[j]));
    assert Width(heads[0]) == 3;
    var cmds := Repeat<A, V>(Worker.Reset, |v.remotes|);
    var rs := SendAll(env, v.remotes, cmds, 0).value;
    forall j | 0 <= j < |v.remotes|
      ensures rs[j].status.Serving? && rs[j].pending == [WasReset(env.reset(v.remotes[j].env).1)]
      ensures rs[j].env == env.reset(v.remotes[j].env).0
    {
      ReplyOnIdle(env, v.remotes[j], Worker.Reset);
    }
  }

  /** `reset_task` on a ready orchestrator: batch position i is environment i's `reset_task()`
      value, worker i's environment is in the state that call leaves, and the orchestrator is
      ready again. */
  lemma ResetTaskOnReady<S, A, V>(env: Env<S, A, V>, v: SubprocVecEnv<S, A, V>)
    requires Ready(v)
    ensures ResetTask(env, v).Success?
    ensures var (w, batch) := ResetTask(env, v).value;
            && |batch| == |v.remotes|
            && Ready(w)
            && |w.remotes| == |v.remotes|
            && forall j :: 0 <= j < |v.remotes| ==>
                 batch[j] == env.resetTask(v.remotes[j].env).1 && w.remotes[j].env == env.resetTask(v.remotes[j].env).0
  {
    var cmds := Repeat<A, V>(Worker.ResetTask, |v.remotes|);
    var rs := SendAll(env, v.remotes, cmds, 0).value;
    forall j | 0 <= j < |v.remotes|
      ensures rs[j].status.Serving? && rs[j].pending == [TaskReset(env.resetTask(v.remotes[j].env).1)]
      ensures rs[j].env == env.resetTask(v.remotes[j].env).0
    {
      ReplyOnIdle(env, v.remotes[j], Worker.ResetTask);
    }
  }

  /** While a step is pending on every worker, `reset` raises: the first reply each remote
      delivers is the step's six-tuple, so `zip` yields six tuples where three names expect three
      (and the reset replies stay queued behind them). */
  lemma ResetWhilePendingFails<S, A, V>(env: Env<S, A, V>, v: SubprocVecEnv<S, A, V>, actions: seq<A>)
    requires Ready(v) && |actions| == |v.remotes|
    ensures Reset(env, StepAsync(env, v, actions).value).Failure?
  {
    StepAsyncOnReady(env, v, actions);
    var v1 := StepAsync(env, v, actions).value;
    if forall j :: 0 <= j < |v1.remotes| ==> v1.remotes[j].status.Serving? {
      ResetReads(env, v1);
      var heads := seq(|v1.remotes|, j requires 0 <= j < |v1.remotes| => FirstAfterReset(env, v1.remotes[j]));
      forall j | 0 <= j < |v1.remotes| ensures Width(heads[j]) == 6 {
        StepOnIdle(env, v.remotes[j], actions[j]);
      }
    } else {
      var j :| 0 <= j < |v1.remotes| && !v1.remotes[j].status.Serving?;
      assert SendAll(env, v1.remotes, Repeat<A, V>(Worker.Reset, |v1.remotes|), 0).Failure?;
    }
  }

  /** As written, `reset` after a `step_async` that addressed only the first workers does not
      raise: `zip` stops at the three fields of the other workers' reset triples, so the batch
      holds the stepped workers' observation, shared observation and reward where their reset
      triple belongs, and the other workers' reset triples. */
  lemma ResetAfterPartialStepMixesBatch<S, A, V>(env: Env<S, A, V>, v: SubprocVecEnv<S, A, V>, actions: seq<A>)
    requires Ready(v) && |actions| < |v.remotes|
    requires forall j :: 0 <= j < |actions| ==> StepAndReset(env, v.remotes[j].env, actions[j]).Success?
    ensures var r := Reset(env, StepAsync(env, v, actions).value);
            && r.Success?
            && |r.value.1| == |v.remotes|
            && (forall j :: 0 <= j < |actions| ==>
                  var o := StepAndReset(env, v.remotes[j].env, actions[j]).value.1;
                  r.value.1[j] == ResetOut(o.obs, o.sharedObs, o.reward))
            && (forall j :: |actions| <= j < |v.remotes| ==> r.value.1[j] == env.reset(v.remotes[j].env).1)
  {
    PartialStepHeads(env, v, actions);
    ResetReads(env, StepAsync(env, v, actions).value);
  }

  /** The first reply on every remote once `reset` follows a partial `step_async`. */
  lemma PartialStepHeads<S, A, V>(env: Env<S, A, V>, v: SubprocVecEnv<S, A, V>, actions: seq<A>)
    requires Ready(v) && |actions| < |v.remotes|
    requires forall j :: 0 <= j < |actions| ==> StepAndReset(env, v.remotes[j].env, actions[j]).Success?
    ensures var v1 := StepAsync(env, v, actions).value;
            var heads := seq(|v1.remotes|, j requires 0 <= j < |v1.remotes| => FirstAfterReset(env, v1.remotes[j]));
            && |v1.remotes| == |v.remotes|
            && (forall j :: 0 <= j < |v1.remotes| ==> v1.remotes[j].status.Serving?)
            && UnpackTriples(heads).Success?
            && (forall j :: 0 <= j < |actions| ==>
                  var o := StepAndReset(env, v.remotes[j].env, actions[j]).value.1;
                  UnpackTriples(heads).value[j] == ResetOut(o.obs, o.sharedObs, o.reward))
            && (forall j :: |actions| <= j < |v.remotes| ==> UnpackTriples(heads).value[j] == env.reset(v.remotes[j].env).1)
  {
    StepAsyncOnReady(env, v, actions);
    var v1 := StepAsync(env, v, actions).value;
    var heads := seq(|v1.remotes|, j requires 0 <= j < |v1.remotes| => FirstAfterReset(env, v1.remotes[j]));
    forall j | 0 <= j < |actions|
      ensures var o := StepAndReset(env, v.remotes[j].env, actions[j]).value.1;
              FirstThree(heads[j]) == Some(ResetOut(o.obs, o.sharedObs, o.reward))
    {
    }
    forall j | |actions| <= j < |v.remotes|
      ensures heads[j] == WasReset(env.reset(v.remotes[j].env).1)
    {
    }
    assert Width(heads[|actions|]) == 3;
  }

  /** `reset` as its documented contract (harl/envs/env_wrappers.py:83-85) describes it: a pending
      step is cancelled by draining its replies first, and `waiting` is cleared. */
  function ResetCancelling<S, A, V>(env: Env<S, A, V>, v: SubprocVecEnv<S, A, V>)
    : (r: Result<(SubprocVecEnv<S, A, V>, seq<ResetOut<V>>), Error>)
    ensures !v.waiting ==> r == Reset(env, v)
    ensures r.Success? ==> !r.value.0.waiting
  {
    var drained :- if v.waiting then RecvAll(v.remotes, 0) else Success((v.remotes, []));
    Reset(env, v.(remotes := drained.0, waiting := false))
  }

  /** With the pending step drained, `reset` after `step_async` returns every environment's reset
      triple, taken from the state the step left it in. */
  lemma ResetCancellingAfterStepAsync<S, A, V>(env: Env<S, A, V>, v: SubprocVecEnv<S, A, V>, actions: seq<A>)
    requires Ready(v) && |actions| == |v.remotes|
    requires Lockstep(env, Envs(v), actions).Success?
    ensures var r := ResetCancelling(env, StepAsync(env, v, actions).value);
            var stepped := Lockstep(env, Envs(v), actions).value.0;
            && r.Success?
            && Ready(r.value.0)
            && |r.value.1| == |v.remotes|
            && forall j :: 0 <= j < |v.remotes| ==> r.value.1[j] == env.reset(stepped[j]).1
  {
    StepAsyncOnReady(env, v, actions);
    var v1 := StepAsync(env, v, actions).value;
    var got := RecvAll(v1.remotes, 0).value;
    var v2 := v1.(remotes := got.0, waiting := false);
    assert Ready(v2);
    ResetOnReady(env, v2);
  }

  /** `close` twice is `close` once: the second call finds `closed` set and sends nothing. */
  lemma CloseIsIdempotent<S, A, V>(env: Env<S, A, V>, v: SubprocVecEnv<S, A, V>)
    requires Close(env, v).Success?
    ensures Close(env, v).value.closed
    ensures Close(env, Close(env, v).value) == Close(env, v)
  {
  }

  /** `close` on an open orchestrator whose workers are all serving: if a step is pending it
      first receives and discards exactly one reply per remote, then sends exactly one `close`
      on every remote, after which every worker has exited with its environment closed. */
  lemma CloseShutsDownEveryWorker<S, A, V>(env: Env<S, A, V>, v: SubprocVecEnv<S, A, V>)
    requires !v.closed
    requires forall j :: 0 <= j < |v.remotes| ==>
               v.remotes[j].status.Serving? && (v.waiting ==> |v.remotes[j].pending| > 0)
    ensures Close(env, v).Success?
    ensures var w := Close(env, v).value;
            && w.closed && w.waiting == v.waiting
            && |w.remotes| == |v.remotes|
            && forall j :: 0 <= j < |v.remotes| ==>
                 && w.remotes[j].sent == v.remotes[j].sent + [Worker.Close]
                 && w.remotes[j].status == Exited
                 && w.remotes[j].env == env.close(v.remotes[j].env)
                 && |w.remotes[j].received| == |v.remotes[j].received| + (if v.waiting then 1 else 0)
  {
    var drained := if v.waiting then RecvAll(v.remotes, 0) else Success((v.remotes, []));
    assert drained.Success?;
    var rs := drained.value.0;
    forall j | 0 <= j < |v.remotes|
      ensures var d := Deliver(env, rs[j], Worker.Close);
              d.status == Exited && d.env == env.close(v.remotes[j].env)
    {
      HandleReplies(env, rs[j].env, Worker.Close);
    }
  }

  /** Construction adopts worker 0's agent count and spaces: it succeeds exactly when there is at
      least one environment, asks worker 0 (and no other) for `n_agents` and the spaces, and leaves
      every worker serving its environment in its initial state, with nothing in flight. */
  lemma CreateAdoptsWorkerZero<S, A, V>(env: Env<S, A, V>, inits: seq<S>)
    ensures Create(env, inits).Success? <==> |inits| > 0
    ensures Create(env, inits).Failure? ==> Create(env, inits).error == NoEnvironments
    ensures Create(env, inits).Success? ==>
              var v := Create(env, inits).value;
              && v.nAgents == env.nAgents(inits[0]) && v.spaces == env.spaces(inits[0])
              && Ready(v) && Envs(v) == inits
              && v.remotes[0].sent == [GetNumAgents, GetSpaces]
              && forall j :: 1 <= j < |inits| ==> v.remotes[j].sent == []
  {
    if |inits| > 0 {
      var c := Open<S, A, V>(inits[0]);
      ReplyOnIdle(env, c, GetNumAgents);
      var c1 := Recv(Deliver(env, c, GetNumAgents), 0).value.0;
      ReplyOnIdle(env, c1, GetSpaces);
      HandleReplies(env, c.env, GetNumAgents);
      HandleReplies(env, c1.env, GetSpaces);
    }
  }

  /** Sending on several channels keeps each in step with its worker. */
  lemma SendAllValid<S, A, V>(env: Env<S, A, V>, rs: seq<Channel<S, A, V>>, cmds: seq<Command<A, V>>, i: nat)
    requires i <= |rs| && SendAll(env, rs, cmds, i).Success?
    requires forall j :: 0 <= j < |rs| ==> Pipe.Valid(env, rs[j])
    ensures forall j :: 0 <= j < |rs| ==> Pipe.Valid(env, SendAll(env, rs, cmds, i).value[j])
  {
    forall j | 0 <= j < |rs|
      ensures Pipe.Valid(env, SendAll(env, rs, cmds, i).value[j])
    {
      if i <= j < |cmds| {
        DeliverValid(env, rs[j], cmds[j]);
      }
    }
  }

  /** Receiving on several channels keeps each in step with its worker. */
  lemma RecvAllValid<S, A, V>(env: Env<S, A, V>, rs: seq<Channel<S, A, V>>, i: nat)
    requires i <= |rs| && RecvAll(rs, i).Success?
    requires forall j :: 0 <= j < |rs| ==> Pipe.Valid(env, rs[j])
    ensures forall j :: 0 <= j < |rs| ==> Pipe.Valid(env, RecvAll(rs, i).value.0[j])
  {
    forall j | 0 <= j < |rs|
      ensures Pipe.Valid(env, RecvAll(rs, i).value.0[j])
    {
      if i <= j {
        RecvValid(env, rs[j], j);
      }
    }
  }

  lemma CreateValid<S, A, V>(env: Env<S, A, V>, inits: seq<S>)
    requires Create(env, inits).Success?
    ensures Valid(env, Create(env, inits).value)
  {
    var c := Open<S, A, V>(inits[0]);
    OpenValid<S, A, V>(env, inits[0]);
    DeliverValid(env, c, GetNumAgents);
    var c1 := Recv(Deliver(env, c, GetNumAgents), 0).value.0;
    RecvValid(env, Deliver(env, c, GetNumAgents), 0);
    DeliverValid(env, c1, GetSpaces);
    RecvValid(env, Deliver(env, c1, GetSpaces), 0);
    forall j | 0 <= j < |inits| ensures Pipe.Valid(env, Open<S, A, V>(inits[j])) {
      OpenValid<S, A, V>(env, inits[j]);
    }
  }

  lemma ResetValid<S, A, V>(env: Env<S, A, V>, v: SubprocVecEnv<S, A, V>)
    requires Valid(env, v) && Reset(env, v).Success?
    ensures Valid(env, Reset(env, v).value.0)
  {
    var resets := Repeat<A, V>(Worker.Reset, |v.remotes|);
    SendAllValid(env, v.remotes, resets, 0);
    RecvAllValid(env, SendAll(env, v.remotes, resets, 0).value, 0);
  }

  lemma ResetTaskValid<S, A, V>(env: Env<S, A, V>, v: SubprocVecEnv<S, A, V>)
    requires Valid(env, v) && ResetTask(env, v).Success?
    ensures Valid(env, ResetTask(env, v).value.0)
  {
    var tasks := Repeat<A, V>(Worker.ResetTask, |v.remotes|);
    SendAllValid(env, v.remotes, tasks, 0);
    RecvAllValid(env, SendAll(env, v.remotes, tasks, 0).value, 0);
  }

  lemma CloseValid<S, A, V>(env: Env<S, A, V>, v: SubprocVecEnv<S, A, V>)
    requires Valid(env, v) && Close(env, v).Success?
    ensures Valid(env, Close(env, v).value)
  {
    if !v.closed {
      var drained := if v.waiting then RecvAll(v.remotes, 0).value else (v.remotes, []);
      if v.waiting {
        RecvAllValid(env, v.remotes, 0);
      }
      SendAllValid(env, drained.0, Repeat<A, V>(Worker.Close, |v.remotes|), 0);
    }
  }

  lemma StepAsyncValid<S, A, V>(env: Env<S, A, V>, v: SubprocVecEnv<S, A, V>, actions: seq<A>)
    requires Valid(env, v) && !v.waiting && StepAsync(env, v, actions).Success?
    ensures Valid(env, StepAsync(env, v, actions).value)
  {
    SendAllValid(env, v.remotes, Each(actions, a => Step(a)), 0);
  }

  lemma StepWaitValid<S, A, V>(env: Env<S, A, V>, v: SubprocVecEnv<S, A, V>)
    requires Valid(env, v) && StepWait(v).Success?
    ensures Valid(env, StepWait(v).value.0)
  {
    RecvAllValid(env, v.remotes, 0);
  }

  /** Index stability for the lifetime of the orchestrator: construction establishes, and every
      operation preserves, that worker i's state and the replies on remote i are exactly those of
      the worker loop run on the commands sent on remote i, and on nothing else. */
  lemma ValidIsInvariant<S, A, V>(env: Env<S, A, V>, v: SubprocVecEnv<S, A, V>, actions: seq<A>, inits: seq<S>)
    requires Valid(env, v)
    ensures Create(env, inits).Success? ==> Valid(env, Create(env, inits).value)
    ensures !v.waiting && StepAsync(env, v, actions).Success? ==> Valid(env, StepAsync(env, v, actions).value)
    ensures StepWait(v).Success? ==> Valid(env, StepWait(v).value.0)
    ensures Reset(env, v).Success? ==> Valid(env, Reset(env, v).value.0)
    ensures ResetTask(env, v).Success? ==> Valid(env, ResetTask(env, v).value.0)
    ensures Close(env, v).Success? ==> Valid(env, Close(env, v).value)
  {
    if Create(env, inits).Success? {
      CreateValid(env, inits);
    }
    if !v.waiting && StepAsync(env, v, actions).Success? {
      StepAsyncValid(env, v, actions);
    }
    if StepWait(v).Success? {
      StepWaitValid(env, v);
    }
    if Reset(env, v).Success? {
      ResetValid(env, v);
    }
    if ResetTask(env, v).Success? {
      ResetTaskValid(env, v);
    }
    if Close(env, v).Success? {
      CloseValid(env, v);
    }
  }
}
