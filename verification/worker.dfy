/**
  The worker command loop `shareworker` (harl/envs/env_wrappers.py): one worker owns
  one environment and serves the commands it receives, in order, until `close`
  or until a command raises.
*/
module Worker {
  import opened Outcomes
  import opened EnvModel

  /** The eight tags `shareworker` dispatches on. */
  const KnownTags: set<string> :=
    {"step", "reset", "reset_task", "render", "close", "get_spaces", "render_vulnerability", "get_num_agents"}

  /** A tag the worker does not know. */
  type UnknownTag = t: string | t !in KnownTags witness "unknown"

  /** The commands of the worker protocol. `Unrecognised` stands for a message
      whose tag is none of the eight the worker knows. */
  datatype Command<A, V> =
    | Step(action: A)
    | Reset
    | ResetTask
    | Render(mode: string)
    | Close
    | GetSpaces
    | RenderVulnerability(data: V)
    | GetNumAgents
    | Unrecognised(tag: UnknownTag)

  /** The replies a worker sends back. */
  datatype Reply<V> =
    | Stepped(out: StepOut<V>)
    | WasReset(triple: ResetOut<V>)
    | TaskReset(obs: V)
    | Frame(frame: V)
    | SpacesOf(spaces: Spaces<V>)
    | AgentCount(n: nat)

  /** Whether the loop is still serving, has left it through `close`, or was ended by an error. */
  datatype Status = Serving | Exited | Crashed(error: Error)

  /** The effect of one command: the loop's status afterwards, the environment's state, and the reply sent. */
  datatype Handled<S, R> = Handled(status: Status, env: S, reply: Option<R>)

  /** One iteration of the loop on command `cmd` with the environment in state `s`. It obeys the
      protocol: only `close` exits; only an unknown tag, or a step whose auto-reset raises,
      crashes, and an unknown tag raises `UnsupportedCommand`; a serving worker replies exactly
      to the commands that call for a reply, with a reply of the matching kind; the two queries
      and an unknown tag leave the environment as it was. */
  function Handle<S, A, V>(env: Env<S, A, V>, s: S, cmd: Command<A, V>): (h: Handled<S, Reply<V>>)
    ensures h.status == Exited <==> cmd.Close?
    ensures h.status.Crashed? <==> cmd.Unrecognised? || (cmd.Step? && StepAndReset(env, s, cmd.action).Failure?)
    ensures cmd.Unrecognised? ==> h.status == Crashed(UnsupportedCommand(cmd.tag))
    ensures h.reply.Some? <==> h.status.Serving? && Replies(cmd)
    ensures h.reply.Some? ==> Answers(cmd, h.reply.value)
    ensures cmd.GetSpaces? || cmd.GetNumAgents? || cmd.Unrecognised? ==> h.env == s
  {
    match cmd
    case Step(a) => HandleStep(env, s, a)
    case Reset => Handled(Serving, env.reset(s).0, Some(WasReset(env.reset(s).1)))
    case ResetTask => Handled(Serving, env.resetTask(s).0, Some(TaskReset(env.resetTask(s).1)))
    case Render(mode) => HandleRender(env, s, mode)
    case Close => Handled(Exited, env.close(s), None)
    case GetSpaces => Handled(Serving, s, Some(SpacesOf(env.spaces(s))))
    case RenderVulnerability(data) =>
      Handled(Serving, env.renderVulnerability(s, data).0, Some(Frame(env.renderVulnerability(s, data).1)))
    case GetNumAgents => Handled(Serving, s, Some(AgentCount(env.nAgents(s))))
    case Unrecognised(tag) => Handled(Crashed(UnsupportedCommand(tag)), s, None)
  }

  /** `step`: step the environment, apply the auto-reset rule and reply with the six-tuple;
      an auto-reset that raises ends the loop without a reply. */
  function HandleStep<S, A, V>(env: Env<S, A, V>, s: S, a: A): Handled<S, Reply<V>>
  {
    var (s1, out) := env.step(s, a);
    match AutoReset(env, s1, out)
    case Success((s2, o)) => Handled(Serving, s2, Some(Stepped(o)))
    case Failure(e) => Handled(Crashed(e), s1, None)
  }

  /** `render`: a frame is sent back only for "rgb_array"; "human" renders without a reply,
      and any other mode does nothing at all. */
  function HandleRender<S, A, V>(env: Env<S, A, V>, s: S, mode: string): Handled<S, Reply<V>>
  {
    if mode == "rgb_array" then
      Handled(Serving, env.render(s, mode).0, Some(Frame(env.render(s, mode).1)))
    else if mode == "human" then
      Handled(Serving, env.render(s, mode).0, None)
    else
      Handled(Serving, s, None)
  }

  /** Whether a worker that keeps serving sends a reply to `cmd`: everything except `close`
      and a `render` in a mode other than "rgb_array". */
  predicate Replies<A, V>(cmd: Command<A, V>)
  {
    !cmd.Close? && !cmd.Unrecognised? && !(cmd.Render? && cmd.mode != "rgb_array")
  }

  /** Whether `r` is the kind of reply the protocol pairs with `cmd`. */
  predicate Answers<A, V>(cmd: Command<A, V>, r: Reply<V>)
  {
    match cmd
    case Step(_) => r.Stepped?
    case Reset => r.WasReset?
    case ResetTask => r.TaskReset?
    case Render(_) => r.Frame?
    case RenderVulnerability(_) => r.Frame?
    case GetSpaces => r.SpacesOf?
    case GetNumAgents => r.AgentCount?
    case Close => false
    case Unrecognised(_) => false
  }

  /** What the worker replies: the auto-reset step six-tuple, the environment's `reset()` triple,
      its agent count and its spaces; `close` closes the environment. */
  lemma HandleReplies<S, A, V>(env: Env<S, A, V>, s: S, cmd: Command<A, V>)
    ensures var h := Handle(env, s, cmd);
            && (cmd.Step? && h.status.Serving? ==>
                  Some(Stepped(StepAndReset(env, s, cmd.action).value.1)) == h.reply
                  && h.env == StepAndReset(env, s, cmd.action).value.0)
            && (cmd.Reset? ==> h.reply == Some(WasReset(env.reset(s).1)) && h.env == env.reset(s).0)
            && (cmd.GetNumAgents? ==> h.reply == Some(AgentCount(env.nAgents(s))) && h.env == s)
            && (cmd.GetSpaces? ==> h.reply == Some(SpacesOf(env.spaces(s))) && h.env == s)
            && (cmd.Close? ==> h.env == env.close(s))
  {
  }

  /** The commands at which the loop can end: `close`, an unknown tag, and a step (when its
      auto-reset raises; see `CrashAtStep`). */
  predicate Stops<A, V>(cmd: Command<A, V>)
  {
    cmd.Close? || cmd.Unrecognised? || cmd.Step?
  }

  /** The loop after working through an inbox: its status, the environment's state,
      every reply it sent, and how many commands it took off the inbox. */
  datatype Loop<S, R> = Loop(status: Status, env: S, replies: seq<R>, consumed: nat)

  /** A receive-dispatch-reply loop with per-command behaviour `handle`, run on `inbox` from
      state `s`: it takes commands in order and stops at the first one after which the loop is
      no longer serving. */
  function Serve<S, C, R>(handle: (S, C) -> Handled<S, R>, s: S, inbox: seq<C>): (l: Loop<S, R>)
    ensures l.consumed <= |inbox|
    ensures l.status.Serving? ==> l.consumed == |inbox|
    ensures !l.status.Serving? ==> 0 < l.consumed
    decreases |inbox|
  {
    if |inbox| == 0 then
      Loop(Serving, s, [], 0)
    else
      var h := handle(s, inbox[0]);
      if h.status.Serving? then
        var rest := Serve(handle, h.env, inbox[1..]);
        Loop(rest.status, rest.env, Elements(h.reply) + rest.replies, 1 + rest.consumed)
      else
        Loop(h.status, h.env, Elements(h.reply), 1)
  }

  /** Serving `a` and then, from where the loop left off, `b`. */
  function Then<S, R>(first: Loop<S, R>, second: Loop<S, R>): Loop<S, R>
  {
    Loop(second.status, second.env, first.replies + second.replies, first.consumed + second.consumed)
  }

  /** The first step of a loop whose first command keeps it serving. */
  lemma ServeCons<S, C, R>(handle: (S, C) -> Handled<S, R>, s: S, c: C, rest: seq<C>)
    requires handle(s, c).status.Serving?
    ensures var h := handle(s, c);
            var tail := Serve(handle, h.env, rest);
            Serve(handle, s, [c] + rest) == Loop(tail.status, tail.env, Elements(h.reply) + tail.replies, 1 + tail.consumed)
  {
    assert ([c] + rest)[0] == c && ([c] + rest)[1..] == rest;
  }

  /** The loop on a single command does what the handler does. */
  lemma ServeSingle<S, C, R>(handle: (S, C) -> Handled<S, R>, s: S, c: C)
    ensures var h := handle(s, c);
            Serve(handle, s, [c]) == Loop(h.status, h.env, Elements(h.reply), 1)
  {
    var h := handle(s, c);
    assert [c][0] == c && [c][1..] == [];
    assert Elements(h.reply) + [] == Elements(h.reply);
  }

  /** Appending to an empty inbox. */
  lemma ServeAppendEmpty<S, C, R>(handle: (S, C) -> Handled<S, R>, s: S, a: seq<C>, b: seq<C>)
    requires |a| == 0
    ensures Serve(handle, s, a + b) == Then(Serve(handle, s, a), Serve(handle, Serve(handle, s, a).env, b))
  {
    assert a + b == b;
  }

  /** A loop that serves a command after `a` was already serving after `a`'s first element. */
  lemma ServeHeadServing<S, C, R>(handle: (S, C) -> Handled<S, R>, s: S, c: C, rest: seq<C>)
    requires Serve(handle, s, [c] + rest).status.Serving?
    ensures handle(s, c).status.Serving?
    ensures Serve(handle, handle(s, c).env, rest).status.Serving?
  {
    assert ([c] + rest)[0] == c && ([c] + rest)[1..] == rest;
  }

  /** The inductive step of `ServeAppend`: one serving command in front of a serving inbox. */
  lemma ServeAppendStep<S, C, R>(handle: (S, C) -> Handled<S, R>, s: S, c: C, a: seq<C>, b: seq<C>)
    requires handle(s, c).status.Serving?
    requires var s1 := handle(s, c).env;
             Serve(handle, s1, a + b) == Then(Serve(handle, s1, a), Serve(handle, Serve(handle, s1, a).env, b))
    ensures Serve(handle, s, [c] + a + b) == Then(Serve(handle, s, [c] + a), Serve(handle, Serve(handle, s, [c] + a).env, b))
  {
    var h := handle(s, c);
    var tail := Serve(handle, h.env, a);
    var later := Serve(handle, tail.env, b);
    assert [c] + a + b == [c] + (a + b);
    ServeCons(handle, s, c, a);
    ServeCons(handle, s, c, a + b);
    assert Elements(h.reply) + (tail.replies + later.replies) == (Elements(h.reply) + tail.replies) + later.replies;
  }

  /** A loop still serving after `a` serves `a + b` as `a` followed by `b`. */
  lemma {:induction false} ServeAppend<S, C, R>(handle: (S, C) -> Handled<S, R>, s: S, a: seq<C>, b: seq<C>)
    requires Serve(handle, s, a).status.Serving?
    ensures Serve(handle, s, a + b) == Then(Serve(handle, s, a), Serve(handle, Serve(handle, s, a).env, b))
    decreases |a|
  {
    if |a| == 0 {
      ServeAppendEmpty(handle, s, a, b);
    } else {
      var c, a' := a[0], a[1..];
      assert a == [c] + a';
      ServeHeadServing(handle, s, c, a');
      ServeAppend(handle, handle(s, c).env, a', b);
      ServeAppendStep(handle, s, c, a', b);
    }
  }

  /** A loop that has stopped after `a` ignores everything appended to its inbox. */
  lemma {:induction false} ServeStopped<S, C, R>(handle: (S, C) -> Handled<S, R>, s: S, a: seq<C>, b: seq<C>)
    requires !Serve(handle, s, a).status.Serving?
    ensures Serve(handle, s, a + b) == Serve(handle, s, a)
    decreases |a|
  {
    var h := handle(s, a[0]);
    assert (a + b)[0] == a[0];
    if h.status.Serving? {
      assert (a + b)[1..] == a[1..] + b;
      ServeStopped(handle, h.env, a[1..], b);
    }
  }

  /** A loop that has stopped was still serving just before the command it stopped at, and
      that command, handled in the state the loop had reached, is what stopped it. */
  lemma {:induction false} ServeStopsAt<S, C, R>(handle: (S, C) -> Handled<S, R>, s: S, inbox: seq<C>)
    requires !Serve(handle, s, inbox).status.Serving?
    ensures var l := Serve(handle, s, inbox);
            var before := Serve(handle, s, inbox[..l.consumed - 1]);
            && before.status.Serving?
            && handle(before.env, inbox[l.consumed - 1]).status == l.status
            && handle(before.env, inbox[l.consumed - 1]).env == l.env
    decreases |inbox|
  {
    var l := Serve(handle, s, inbox);
    var h := handle(s, inbox[0]);
    if h.status.Serving? {
      var tail := inbox[1..];
      var rest := Serve(handle, h.env, tail);
      ServeStopsAt(handle, h.env, tail);
      assert inbox[..l.consumed - 1] == [inbox[0]] + tail[..rest.consumed - 1];
      ServeCons(handle, s, inbox[0], tail[..rest.consumed - 1]);
      assert inbox[l.consumed - 1] == tail[rest.consumed - 1];
    } else {
      assert inbox[..l.consumed - 1] == [];
    }
  }

  /** `shareworker` serving the inbox `inbox` with its environment starting in state `s`. */
  function Run<S, A, V>(env: Env<S, A, V>, s: S, inbox: seq<Command<A, V>>): (l: Loop<S, Reply<V>>)
    ensures l.consumed <= |inbox|
    ensures l.status.Serving? ==> l.consumed == |inbox|
    ensures !l.status.Serving? ==> 0 < l.consumed && Stops(inbox[l.consumed - 1])
    ensures l.status == Exited ==> inbox[l.consumed - 1].Close?
  {
    StopsAtStoppingCommand(env, s, inbox);
    Serve((s0, c) => Handle(env, s0, c), s, inbox)
  }

  /** The loop only stops at a command that can stop it. */
  lemma {:induction false} StopsAtStoppingCommand<S, A, V>(env: Env<S, A, V>, s: S, inbox: seq<Command<A, V>>)
    ensures var l := Serve((s0, c) => Handle(env, s0, c), s, inbox);
            && (!l.status.Serving? ==> Stops(inbox[l.consumed - 1]))
            && (l.status == Exited ==> inbox[l.consumed - 1].Close?)
    decreases |inbox|
  {
    if |inbox| > 0 {
      var h := Handle(env, s, inbox[0]);
      if h.status.Serving? {
        StopsAtStoppingCommand(env, h.env, inbox[1..]);
      }
    }
  }

  /** A stopped worker was still serving before its last command, and handling that command in
      the state the loop had reached is what stopped it. */
  lemma RunStopsAt<S, A, V>(env: Env<S, A, V>, s: S, inbox: seq<Command<A, V>>)
    requires !Run(env, s, inbox).status.Serving?
    ensures var l := Run(env, s, inbox);
            var before := Run(env, s, inbox[..l.consumed - 1]);
            && before.status.Serving?
            && Handle(env, before.env, inbox[l.consumed - 1]).status == l.status
            && Handle(env, before.env, inbox[l.consumed - 1]).env == l.env
  {
    ServeStopsAt((s0, c) => Handle(env, s0, c), s, inbox);
  }

  /** A worker crashes only at an unknown tag, or at a step whose auto-reset raised in the state
      the loop had reached. */
  lemma CrashAtStep<S, A, V>(env: Env<S, A, V>, s: S, inbox: seq<Command<A, V>>)
    requires Run(env, s, inbox).status.Crashed?
    ensures var l := Run(env, s, inbox);
            var before := Run(env, s, inbox[..l.consumed - 1]);
            var cmd := inbox[l.consumed - 1];
            && before.status.Serving?
            && (cmd.Unrecognised? || (cmd.Step? && StepAndReset(env, before.env, cmd.action).Failure?))
  {
    RunStopsAt(env, s, inbox);
  }

  /** The loop on a single command does exactly what `Handle` does. */
  lemma RunSingle<S, A, V>(env: Env<S, A, V>, s: S, cmd: Command<A, V>)
    ensures var h := Handle(env, s, cmd);
            Run(env, s, [cmd]) == Loop(h.status, h.env, Elements(h.reply), 1)
  {
    ServeSingle((s0, c) => Handle(env, s0, c), s, cmd);
  }

  /** Servicing each command as it arrives is the same as running the loop on the whole inbox:
      a worker still serving after `a` serves `a + b` as `a` followed by `b`. */
  lemma RunAppend<S, A, V>(env: Env<S, A, V>, s: S, a: seq<Command<A, V>>, b: seq<Command<A, V>>)
    requires Run(env, s, a).status.Serving?
    ensures Run(env, s, a + b) == Then(Run(env, s, a), Run(env, Run(env, s, a).env, b))
  {
    ServeAppend((s0, c) => Handle(env, s0, c), s, a, b);
  }

  /** Once the loop has stopped (through `close` or an error) no later command is processed:
      nothing appended to the inbox changes the replies, the state or the status. */
  lemma StoppedIgnoresLater<S, A, V>(env: Env<S, A, V>, s: S, a: seq<Command<A, V>>, b: seq<Command<A, V>>)
    requires !Run(env, s, a).status.Serving?
    ensures Run(env, s, a + b) == Run(env, s, a)
  {
    ServeStopped((s0, c) => Handle(env, s0, c), s, a, b);
  }

  /** `close` ends the loop: after a serving prefix `a`, a `close` followed by anything at all
      exits with the environment closed, and no command after the `close` is taken. */
  lemma CloseEndsLoop<S, A, V>(env: Env<S, A, V>, s: S, a: seq<Command<A, V>>, rest: seq<Command<A, V>>)
    requires Run(env, s, a).status.Serving?
    ensures var l := Run(env, s, a + [Close] + rest);
            && l.status == Exited
            && l.consumed == |a| + 1
            && l.env == env.close(Run(env, s, a).env)
            && l.replies == Run(env, s, a).replies
  {
    var s1 := Run(env, s, a).env;
    RunAppend(env, s, a, [Close]);
    RunSingle(env, s1, Close);
    StoppedIgnoresLater(env, s, a + [Close], rest);
  }

  /** An unknown tag ends the loop with `UnsupportedCommand` and no reply. */
  lemma UnknownTagRaises<S, A, V>(env: Env<S, A, V>, s: S, tag: UnknownTag, rest: seq<Command<A, V>>)
    ensures Run(env, s, [Unrecognised(tag)] + rest) == Loop(Crashed(UnsupportedCommand(tag)), s, [], 1)
  {
    RunSingle(env, s, Unrecognised(tag));
    StoppedIgnoresLater(env, s, [Unrecognised(tag)], rest);
  }
}
