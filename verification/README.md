# HARL environment wrappers, modelled in Dafny

This project models two parts of HARL's environment layer and proves properties about them.

**The vectorised-environment core** (`harl/envs/env_wrappers.py`).
- `shareworker` is the command loop a worker process runs around one environment. Its central rule is auto-reset on termination.
- `ShareSubprocVecEnv` drives one worker per environment over pipes. It keeps `waiting` and `closed` flags.
- `ShareDummyVecEnv` steps the same environments in-process.
- `ShareVecEnv.step` is `step_async` followed by `step_wait`.
- `IsaacLabWrapper.stack_padded_tensors_last_axis` pads tensors to a common last dimension and stacks them.

**The MaMuJoCo multi-agent adapter** (`harl/envs/mamujoco/multiagent_mujoco/mujoco_multi.py`).
- It splits one robot's action vector into per-agent slices.
- In `step` it flattens the per-agent actions back into one vector.
- It counts steps and marks `bad_transition` when an episode ends.
- It gives every agent the same reward, done flag and info.
- It parses the `k_categories` label.

The environment is abstract. An `EnvModel.Env` value carries `step`, `reset`, `reset_task`, `render`, `render_vulnerability` and `close` as total functions over an environment state. Observations, rewards, masks, spaces and frames are opaque values. `done` is `Scalar(bool)` or `PerAgent(seq<bool>)`. Termination is `np.all` of the flags, which holds for an empty collection.

A pipe is modelled as a FIFO of commands that the worker services synchronously, plus a FIFO of replies not yet received. Every exception the wrappers themselves raise becomes a `Failure` of a `Result`. The environment's own operations are total, so an exception raised inside the environment is not modelled. A receive with no reply on its way is `NoReply`: the real call would block forever.

Modules:
- `EnvModel`: the single-environment contract, auto-reset, and `Lockstep`. `Lockstep` is the per-index reference for a batched step.
- `Worker`: `shareworker`.
- `Pipe`: one channel.
- `Subproc`: `ShareSubprocVecEnv`.
- `Dummy`: `ShareDummyVecEnv`.
- `Backends`: shows that the two orchestrators agree.
- `Padding`: `stack_padded_tensors_last_axis`.
- `Partition`: action slices and flattening.
- `Categories`: label parsing.
- `MujocoMulti`: the adapter's constructor, `reset` and `step`.

## Model

| member | source | states |
|---|---|---|
| EnvModel.AutoReset | harl/envs/env_wrappers.py:177-195 | The auto-reset rule fails exactly when the episode has terminated and `info` is empty (`info[0]` raises IndexError); otherwise it succeeds |
| EnvModel.AutoResetOnTermination | harl/envs/env_wrappers.py:178-193 | On termination the returned obs, shared obs and mask are the environment's `reset()` triple, and the environment is in its reset state. The terminal obs, state and mask can be read back from `info[0]` under the three `original_*` keys |
| EnvModel.NoResetWithoutTermination | harl/envs/env_wrappers.py:186-195 | Without termination the step result, `info` included, and the environment state pass through unchanged |
| EnvModel.AutoResetKeepsRewardDoneInfo | harl/envs/env_wrappers.py:177-195 | Auto-reset never changes `reward` or `done`, keeps one info per agent, and leaves every info entry untouched except the three recorded keys of agent 0 |
| EnvModel.ScalarAndPerAgentAgree | harl/envs/env_wrappers.py:178-193 | A scalar `done=True` and a per-agent `done` whose flags are all true reset identically |
| EnvModel.PartialDoneDoesNotReset | harl/envs/env_wrappers.py:187-195 | A per-agent `done` with any agent still running does not reset |
| EnvModel.Lockstep | harl/envs/env_wrappers.py:325-350 | Reference batch step: it succeeds exactly when every index's step-and-auto-reset succeeds, and then position i is index i's own result |
| Worker.Handle | harl/envs/env_wrappers.py:171-222 | One command: only `close` exits. Only an unknown tag, or a step whose auto-reset raises, crashes. An unknown tag raises `UnsupportedCommand`. A serving worker replies exactly to the commands that call for a reply, with a reply of the matching kind. The two queries and an unknown tag leave the environment alone |
| Worker.HandleReplies | harl/envs/env_wrappers.py:176-220 | `step` replies with the auto-reset six-tuple. `reset` replies with `env.reset()`'s triple. `get_num_agents` replies with `n_agents`, and `get_spaces` with the spaces. `close` closes the environment |
| Worker.Serve | harl/envs/env_wrappers.py:174-175 | The loop never takes more commands than it was given. It takes all of them while it keeps serving, and at least one once it has stopped. The order is stated by `Worker.ServeAppend` and `Worker.ServeStopsAt` |
| Worker.ServeAppend | harl/envs/env_wrappers.py:174-175 | A loop still serving after one inbox serves that inbox followed by another as the first, then the second from where the first left off |
| Worker.ServeStopsAt | harl/envs/env_wrappers.py:174-175 | A stopped loop was still serving after every command before the last one it took. Handling that last command in the state the loop had reached gives the loop's final status and state |
| Worker.Run | harl/envs/env_wrappers.py:174-222 | A loop still serving has taken the whole inbox. A stopped loop stopped at a command that can stop it, and it exited only at a `close` |
| Worker.StopsAtStoppingCommand | harl/envs/env_wrappers.py:208-222 | The last command a stopped loop took is `close`, an unknown tag or a step. It exited only at a `close`. Which steps crash is stated by `Worker.CrashAtStep` |
| Worker.RunStopsAt | harl/envs/env_wrappers.py:174-222 | A stopped worker was serving after the commands before its last one. Handling that command in the state the worker had reached gives its final status and environment |
| Worker.CrashAtStep | harl/envs/env_wrappers.py:176-222 | A crashed worker crashed at an unknown tag, or at a step whose step-and-auto-reset raises in the state the worker had reached |
| Worker.RunAppend | harl/envs/env_wrappers.py:174-175 | Servicing commands as they arrive equals running the loop on the whole inbox at once |
| Worker.StoppedIgnoresLater | harl/envs/env_wrappers.py:208-211 | Once the loop has stopped, no later command changes its replies, state or status |
| Worker.CloseEndsLoop | harl/envs/env_wrappers.py:208-211 | `close` after a serving prefix exits with the environment closed, and no command after it is taken |
| Worker.UnknownTagRaises | harl/envs/env_wrappers.py:221-222 | An unknown tag ends the loop with `UnsupportedCommand` and no reply |
| Pipe.Send | harl/envs/env_wrappers.py:261-262 | Sending succeeds exactly on a pipe whose worker is still serving; otherwise it fails with `BrokenPipe` |
| Pipe.Recv | harl/envs/env_wrappers.py:266-266 | Receiving returns the oldest pending reply and removes it from the pending queue. With nothing pending it fails with `NoReply`. Replies are neither lost nor reordered |
| Pipe.DeliverValid | harl/envs/env_wrappers.py:174-195 | The channel invariant survives a send: the channel agrees with the worker loop run on every command sent so far |
| Pipe.RecvValid | harl/envs/env_wrappers.py:266-266 | Receiving keeps the channel invariant |
| Pipe.DeliverToIdle | harl/envs/env_wrappers.py:175-198 | A command sent to an idle channel leaves exactly its own reply pending |
| Subproc.Create | harl/envs/env_wrappers.py:226-258 | Construction succeeds exactly when there is an environment; otherwise it fails with `NoEnvironments`. The orchestrator starts ready, with environment i at index i |
| Subproc.StepAsync | harl/envs/env_wrappers.py:260-263 | Sends exactly one `step(actions[i])` on remote i, for the indices `zip` pairs up, and sets `waiting`. It fails exactly when one of those workers has stopped |
| Subproc.StepWait | harl/envs/env_wrappers.py:265-276 | Receives one reply per remote, in index order, and clears `waiting`. Batch position i is remote i's reply. It succeeds exactly when there is a remote and every remote has a step reply waiting. With no remotes it fails with `EmptyBatch` |
| Subproc.StepAsyncOnReady | harl/envs/env_wrappers.py:260-263 | On a ready orchestrator every worker takes its step. Remote i then holds the reply for action i exactly when that worker's auto-reset succeeded |
| Subproc.StepMatchesLockstep | harl/envs/env_wrappers.py:260-276 | `step` equals the per-index reference: same success, batch position i from environment i, new states from the reference. The orchestrator is ready again afterwards |
| Subproc.ExtraActionsIgnored | harl/envs/env_wrappers.py:260-263 | Because `zip` stops at the last worker, `step_async` with extra actions is `step_async` with one action per worker |
| Subproc.SendAllPrefix | harl/envs/env_wrappers.py:261-262 | Sending a list of commands that is longer than the list of remotes sends exactly the first command per remote and nothing more |
| Subproc.ShortActionsStepFails | harl/envs/env_wrappers.py:260-276 | With fewer actions than workers on a ready orchestrator, `step` fails with `NoReply`: some worker was sent no step, so `remote.recv()` would block |
| Subproc.Reset | harl/envs/env_wrappers.py:278-283 | With no remotes it fails with `EmptyBatch`. A success sends exactly one `reset` on every remote, takes exactly one reply from each, returns one triple per remote, and leaves the flags, agent count and spaces alone |
| Subproc.ResetReads | harl/envs/env_wrappers.py:278-283 | When every worker is serving, `reset` reads each remote's first reply: the one already pending, or else the reset triple. It succeeds exactly when `zip` can unpack those replies into three names, that is, when each has at least three fields and the shortest has exactly three. The batch is their first three fields |
| Subproc.ResetOnReady | harl/envs/env_wrappers.py:278-283 | `reset` returns every environment's `reset()` triple at its index, and leaves the orchestrator ready |
| Subproc.ResetWhilePendingFails | harl/envs/env_wrappers.py:278-283 | As written, `reset` after `step_async` raises, because the first reply on each remote is the step six-tuple |
| Subproc.ResetAfterPartialStepMixesBatch | harl/envs/env_wrappers.py:278-283 | As written, after a `step_async` with fewer actions than workers, where every step succeeded, unpacking `reset`'s replies into three names does not raise. The unpacked batch holds the stepped workers' obs, shared obs and reward, followed by the other workers' reset triples. The `np.stack` that follows may still raise on that mixed third column |
| Subproc.ResetCancelling | harl/envs/env_wrappers.py:83-85 | The documented reset cancels a pending step. It is the plain `reset` when nothing is pending, and it always clears `waiting` |
| Subproc.ResetCancellingAfterStepAsync | harl/envs/env_wrappers.py:83-85 | After `step_async` with one action per worker, when every worker's step-and-auto-reset succeeded (the `Lockstep` reference succeeds), the cancelling reset succeeds. It returns the reset triple of every environment's post-step state, and the orchestrator is ready again |
| Subproc.ResetTask | harl/envs/env_wrappers.py:285-288 | A success sends exactly one `reset_task` on every remote, takes exactly one reply from each, returns one value per remote, and leaves the flags, agent count and spaces alone |
| Subproc.ResetTaskOnReady | harl/envs/env_wrappers.py:285-288 | On a ready orchestrator `reset_task` succeeds. Batch position i is environment i's `reset_task()` value, environment i is left in the state that call produces, and the orchestrator is ready again |
| Subproc.Close | harl/envs/env_wrappers.py:290-300 | Once closed, `close` changes nothing. Otherwise it succeeds exactly when every worker is serving and, if a step is pending, every remote has a reply to drain. A success sends one `close` on every remote and sets `closed` |
| Subproc.CloseIsIdempotent | harl/envs/env_wrappers.py:290-292 | A second `close` finds `closed` set and changes nothing |
| Subproc.CloseShutsDownEveryWorker | harl/envs/env_wrappers.py:290-300 | If a step is pending, `close` first drains exactly one reply per remote. It then sends exactly one `close` on each remote. Every worker exits with its environment closed, and `closed` is set |
| Subproc.CreateAdoptsWorkerZero | harl/envs/env_wrappers.py:250-255 | The orchestrator's agent count and spaces are those of environment 0's initial state. Only worker 0 is asked, for `n_agents` then the spaces, and every other worker has been sent nothing |
| Subproc.ValidIsInvariant | harl/envs/env_wrappers.py:225-300 | Construction establishes, and every operation preserves, one fact: each remote's worker state and replies are the worker loop run on exactly the commands sent on that remote |
| Dummy.Create | harl/envs/env_wrappers.py:305-319 | The agent count and spaces are those of environment 0's initial state. With no environments the constructor raises. No actions are stored |
| Dummy.StepAsync | harl/envs/env_wrappers.py:321-322 | Stores the actions and moves no environment |
| Dummy.ResetPass | harl/envs/env_wrappers.py:330-350 | Applies the auto-reset rule index by index. It fails exactly when some index's auto-reset fails |
| Dummy.StepWait | harl/envs/env_wrappers.py:324-353 | Without stored actions it raises, and with an empty batch it raises. Otherwise it forgets the actions and keeps the environment count |
| Dummy.StepMatchesLockstep | harl/envs/env_wrappers.py:324-353 | With one action per environment, `step` equals the per-index reference |
| Dummy.ShortActionsStepPrefix | harl/envs/env_wrappers.py:325-325 | Because `zip` truncates, with fewer actions only the first environments step. The step succeeds exactly when the reference lockstep over those environments does. Then the batch has one entry per action, each from its own environment's step, and the other environments are unchanged |
| Dummy.ExtraActionsIgnored | harl/envs/env_wrappers.py:325-325 | Because `zip` stops at the last environment, `step` with extra actions is `step` with one action per environment |
| Dummy.Reset | harl/envs/env_wrappers.py:355-358 | With no environments, unpacking fails with `EmptyBatch`. Otherwise it returns environment i's reset triple at index i and leaves environment i in its reset state. The stored actions are kept |
| Dummy.Close | harl/envs/env_wrappers.py:360-362 | Closes every environment |
| Dummy.CloseTwiceClosesTwice | harl/envs/env_wrappers.py:360-362 | There is no `closed` flag, so a second `close` closes every environment again |
| Backends.CreateAgrees | harl/envs/env_wrappers.py:305-319 | Built from the same environments, the two orchestrators both fail or both succeed, and then correspond |
| Backends.StepAgrees | harl/envs/env_wrappers.py:130-137 | With one action per environment, on corresponding orchestrators `step` gives the same outcome and batch, and they correspond again |
| Backends.ShortActionsDiverge | harl/envs/env_wrappers.py:260-276 | With fewer actions than environments the orchestrators differ: the subprocess version fails, waiting on a worker that was sent no step, while the in-process version returns one entry per action whenever those environments' steps succeed |
| Backends.ResetAgrees | harl/envs/env_wrappers.py:355-358 | On corresponding orchestrators `reset` gives the same batch, and they correspond again |
| Padding.Pad | harl/envs/env_wrappers.py:476-477 | The padded row has the target width. It starts with the row, and every later entry is the fill value |
| Padding.MaxWidth | harl/envs/env_wrappers.py:473-473 | The result is at least every tensor's last dimension and equal to one of them |
| Padding.StackPadded | harl/envs/env_wrappers.py:473-480 | Empty input raises. Mismatched leading shapes raise. Otherwise there is one slot per input, in input order. Each padded row has the maximum width, with the input as prefix and fill after it |
| Padding.NoPaddingWhenWidthsAgree | harl/envs/env_wrappers.py:473-480 | With a single input, or equal widths, every slot is the input row itself |
| Partition.SlicesTile | harl/envs/mamujoco/multiagent_mujoco/mujoco_multi.py:149-157 | Agent slices start at 0. Each ends where the next begins. Starts never decrease. The last slice ends at `sum(acdims)` |
| Partition.AgentBox | harl/envs/mamujoco/multiagent_mujoco/mujoco_multi.py:149-157 | Agent a's true box has exactly `acdims[a]` dimensions. They are the robot's bounds from `sum(acdims[:a])` on |
| Partition.TrueSpacesCoverRobot | harl/envs/mamujoco/multiagent_mujoco/mujoco_multi.py:149-157 | The agents' true lower bounds, concatenated, are exactly the robot's first `sum(acdims)` lower bounds |
| Partition.TrueActionSpace | harl/envs/mamujoco/multiagent_mujoco/mujoco_multi.py:149-157 | One box per agent, in agent order; entry a is agent a's own true box |
| Partition.ActionSpace | harl/envs/mamujoco/multiagent_mujoco/mujoco_multi.py:140-148 | One box per agent index, and every entry is agent 0's true box |
| Partition.ActionSpaceIsAgentZeros | harl/envs/mamujoco/multiagent_mujoco/mujoco_multi.py:140-148 | Every entry of `action_space` is agent 0's true box |
| Partition.ActionSpaceMisreportsUnequalPartitions | harl/envs/mamujoco/multiagent_mujoco/mujoco_multi.py:140-157 | An agent whose partition size differs from agent 0's is advertised a box of the wrong dimension |
| Partition.Flatten | harl/envs/mamujoco/multiagent_mujoco/mujoco_multi.py:163-168 | No agents raises, and a missing agent action raises; otherwise it succeeds. When every action is at least as long as its agent's dimension, the flat action has `sum(lens)` entries and agent i's truncated action occupies `[sum(lens[:i]), sum(lens[:i+1]))` |
| Partition.FlattenLaysOutPieces | harl/envs/mamujoco/multiagent_mujoco/mujoco_multi.py:163-168 | Whatever the actions' lengths, piece i is `actions[i][:lens[i]]`, with `min(lens[i], len(actions[i]))` entries. The pieces lie end to end in agent order, and the flat action's length is the sum of the piece lengths |
| Partition.FlattenUndoesPadding | harl/envs/mamujoco/multiagent_mujoco/mujoco_multi.py:163-168 | Flattening actions that begin with the unpadded actions gives the unpadded concatenation, whatever the padding |
| Partition.FlattenAfterPad | harl/envs/mamujoco/multiagent_mujoco/mujoco_multi.py:163-168 | Padding every agent's action with `Padding.Pad` and then flattening gives the concatenation back |
| Categories.Split | harl/envs/mamujoco/multiagent_mujoco/mujoco_multi.py:80-80 | `str.split` returns at least one piece, and no piece contains the separator |
| Categories.JoinSplit | harl/envs/mamujoco/multiagent_mujoco/mujoco_multi.py:80-84 | Joining the split pieces with the separator gives the string back |
| Categories.SplitJoin | harl/envs/mamujoco/multiagent_mujoco/mujoco_multi.py:80-84 | Splitting a join of separator-free pieces gives the pieces back |
| Categories.DefaultLabel | harl/envs/mamujoco/multiagent_mujoco/mujoco_multi.py:66-78 | Every default label splits at `\|` into two parts. The first starts with `qpos,qvel`. The second is `qpos`, except the empty string for `coupled_half_cheetah` |
| Categories.Label | harl/envs/mamujoco/multiagent_mujoco/mujoco_multi.py:65-78 | The configured label wins when given. Without one, the label has two `\|` parts: the first starts with `qpos,qvel`, the second is `qpos`, or empty for `coupled_half_cheetah` |
| Categories.DefaultCategories | harl/envs/mamujoco/multiagent_mujoco/mujoco_multi.py:64-84 | Without a configured label, distance 0 observes quantities that start with `qpos` and `qvel`. Every further distance observes `qpos` alone, or the single empty quantity in `coupled_half_cheetah` |
| Categories.KCategories | harl/envs/mamujoco/multiagent_mujoco/mujoco_multi.py:80-84 | There are `max(0, agent_obsk + 1)` entries. Entry k re-joins to the k-th `\|` part, or to the last part beyond the end. No quantity contains a comma |
| Categories.KCategoriesRecoverLabel | harl/envs/mamujoco/multiagent_mujoco/mujoco_multi.py:80-84 | With one distance per part, the categories re-join to the whole label |
| Categories.LastPartRepeats | harl/envs/mamujoco/multiagent_mujoco/mujoco_multi.py:81-84 | Every distance from the label's last part on observes that part's quantities |
| Categories.GlobalCategories | harl/envs/mamujoco/multiagent_mujoco/mujoco_multi.py:86-91 | No label gives no categories. A label gives pieces that re-join to it |
| MujocoMulti.MaxLength | harl/envs/mamujoco/multiagent_mujoco/mujoco_multi.py:54-54 | `n_actions` is at least every partition's size and equal to one of them |
| MujocoMulti.Create | harl/envs/mamujoco/multiagent_mujoco/mujoco_multi.py:42-157 | No partitions raises. Otherwise `n_agents` is the partition count (at least 1), and `n_actions` is the largest partition. The action spaces are built from the partition sizes. Categories exist exactly when `agent_obsk` is set |
| MujocoMulti.Reset | harl/envs/mamujoco/multiagent_mujoco/mujoco_multi.py:279-283 | The step counter becomes 0 and nothing else changes |
| MujocoMulti.StepInfo | harl/envs/mamujoco/multiagent_mujoco/mujoco_multi.py:172-186 | When the episode ended, `bad_transition` is `steps >= episode_limit`. Otherwise the robot's info is unchanged. Every other key is always unchanged |
| MujocoMulti.Advance | harl/envs/mamujoco/multiagent_mujoco/mujoco_multi.py:170-192 | The counter grows by exactly 1. Every agent gets `[reward_n]`, `done_n` and the same info. Nothing else changes |
| MujocoMulti.Step | harl/envs/mamujoco/multiagent_mujoco/mujoco_multi.py:161-200 | Flattening errors raise first, then an unset counter. Otherwise the robot is stepped with the flat action |
| MujocoMulti.CounterAfterReset | harl/envs/mamujoco/multiagent_mujoco/mujoco_multi.py:170-281 | After `reset` and k steps the counter is k |
| MujocoMulti.BadTransitionAfterReset | harl/envs/mamujoco/multiagent_mujoco/mujoco_multi.py:170-186 | The k-th step after `reset` records its info with counter k, so `bad_transition` is `k >= episode_limit` |
| MujocoMulti.ReplicatedDoneIsRobotDone | harl/envs/mamujoco/multiagent_mujoco/mujoco_multi.py:189-191 | `np.all` over the replicated dones equals `done_n` |
| MujocoMulti.StepSeesUnpaddedActions | harl/envs/mamujoco/multiagent_mujoco/mujoco_multi.py:161-168 | With enough actuators, padded per-agent actions reach the robot as exactly the unpadded actions, concatenated in agent order |

## Left out

- Processes and pipes (`Process`, `daemon`, `join`, `Pipe` end closing, `CloudpickleWrapper`): each worker is serviced synchronously when a command is sent. Concurrency is not modelled.
- Blocking: a `recv` with nothing on its way would hang, or raise EOFError on a dead worker. It is modelled as the `NoReply` error.
- `np.stack`/`np.array` of a batch, `reset_task`'s included: batches are sequences. Errors from stacking ragged or mixed payloads are not modelled.
- Subproc.ResetAfterPartialStepMixesBatch: it states only that unpacking into three names succeeds. The `np.stack` of the mixed third column (stepped workers' rewards next to other workers' available actions) is not modelled and may raise.
- Exceptions inside the environment: `step`, `reset`, `reset_task`, `render` and `close` of an environment are total functions. An exception they raise would kill the worker or propagate from `ShareDummyVecEnv`; that path is not modelled. Only the wrappers' own failures (auto-reset on an empty `info`, unpacking, pipes, unknown tags) are.
- `copy.deepcopy` and aliasing: the model has value semantics. The `info` dict that `MujocoMulti.step` shares between agents is modelled as equal copies.
- Partial state on exceptions: when an operation raises midway (for example `reset` after some sends), the model returns only the error and drops the half-updated orchestrator.
- Base `ShareVecEnv.close` (env_wrappers.py:122-128), with its viewer and `close_extras`: both orchestrators override it.
- Rendering: `render`, `get_images`, `tile_images` and the viewer are image I/O. Worker-side `render`/`render_vulnerability` are modelled with opaque frames.
- `ShareDummyVecEnv.__init__`'s `try/except` around `n_agents`: the modelled environment always has an agent count.
- Subproc.StepAsync: requires that no step is pending. The source raises nothing here; its docstring (env_wrappers.py:96-97) forbids the call.
- The rest of `IsaacLabWrapper`, `SingleAgentIsaacLabWrapper`, adversarial/team paths, torch devices and gymnasium `Box` construction: glue outside the core.
- Padding.StackPadded: a tensor is a leading shape plus rows along the last axis, so a 0-d tensor (whose `shape[-1]` raises) cannot be represented.
- Floating point: `NormalizedActions` rescaling, `get_state` normalisation, observation sizes and bound values. Bounds are opaque values.
- MaMuJoCo collaborators: `gym.make`, `TimeLimit`, `get_parts_and_edges`, `get_joints_at_kdist`, `build_obs`, `k_dicts`. The partitions and the robot's action box are inputs. The robot's step is a parameter from the flat action to `(reward_n, done_n, info_n)`. Its observation is not modelled.
- MujocoMulti.Create: `MultiAgentEnv`, the base class, is not part of this model. So the step counter before the first `reset` is a parameter (`None` when unset).
- MujocoMulti.Step: the robot's own state is outside the model. That the robot has already stepped when an unset counter raises is therefore not visible.
- `get_obs`, `get_state`, `get_avail_actions` (always `None`), `seed`, `render`, `close`, `get_env_info`, `env_version` other than 2: not modelled.
- Partition.AgentBox: a box's contents are characterised only when the robot has at least `sum(acdims)` actuators. With fewer, Python's clamped slicing gives shorter boxes. `Partition.Slice` models this, but no lemma describes it.
- Worker.Serve: its own contract bounds how many commands the loop takes. The order in which it takes them is stated by `Worker.ServeAppend`, `Worker.RunAppend` and `Worker.ServeStopsAt`.
- Partition.Flatten: its own contract states the contents only when every action reaches its agent's width. The clamped case, where a short `actions[i][:n]` shifts every later piece, is stated by `Partition.FlattenLaysOutPieces`.
- Dummy.StepWait: its own contract covers only errors and bookkeeping. Per-index contents are stated by `Dummy.StepMatchesLockstep` (one action per environment) and `Dummy.ShortActionsStepPrefix` (fewer actions). More actions than environments reduce to the first case by `Dummy.ExtraActionsIgnored`.

## Findings

| source | as written | input that shows it | evidently intended | confidence | as-written member | corrected member |
|---|---|---|---|---|---|---|
| harl/envs/env_wrappers.py:278-283 | `ShareSubprocVecEnv.reset` sends `reset` and unpacks the first reply from each remote, whatever it is | `step_async(actions)` with one action for every worker, then `reset()`: each remote's first reply is the step six-tuple, so unpacking into three names raises ValueError | The base class contract (env_wrappers.py:83-85): work pending from `step_async` is cancelled, and `reset` returns the reset triples | medium, not executed | Subproc.ResetWhilePendingFails | Subproc.ResetCancelling |
