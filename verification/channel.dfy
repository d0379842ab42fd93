/**
  One pipe between the orchestrator and a worker (harl/envs/env_wrappers.py,
  `Pipe()` in `ShareSubprocVecEnv.__init__`), modelled as a request FIFO that the
  worker services synchronously and a reply FIFO the orchestrator reads from.
*/
module Pipe {
  import opened Outcomes
  import opened EnvModel
  import opened Worker

  /** The orchestrator's end of one pipe and the worker behind it: the environment state the
      worker started from, every command sent so far, the loop's status and environment
      state, the replies already received, and the replies sent but not yet received. */
  datatype Channel<S, A, V> = Channel(
    init: S,
    sent: seq<Command<A, V>>,
    status: Status,
    env: S,
    received: seq<Reply<V>>,
    pending: seq<Reply<V>>)

  /** A fresh pipe to a worker whose environment starts in state `s`. */
  function Open<S, A, V>(s: S): Channel<S, A, V>
  {
    Channel(s, [], Serving, s, [], [])
  }

  /** The channel is exactly the worker loop run on everything sent on it: every command was
      taken, and the replies received followed by those pending are the replies the loop sent. */
  ghost predicate Valid<S, A, V>(env: Env<S, A, V>, c: Channel<S, A, V>)
  {
    var l := Run(env, c.init, c.sent);
    && l.status == c.status
    && l.env == c.env
    && l.consumed == |c.sent|
    && l.replies == c.received + c.pending
  }

  /** A channel with nothing in flight, to a worker still serving. */
  predicate Idle<S, A, V>(c: Channel<S, A, V>)
  {
    c.status.Serving? && c.pending == []
  }

  /** Sending `cmd` to a serving worker, which handles it at once. */
  function Deliver<S, A, V>(env: Env<S, A, V>, c: Channel<S, A, V>, cmd: Command<A, V>): Channel<S, A, V>
    requires c.status.Serving?
  {
    var h := Handle(env, c.env, cmd);
    c.(sent := c.sent + [cmd], status := h.status, env := h.env, pending := c.pending + Elements(h.reply))
  }

  /** `remote.send(cmd)` on the pipe with index `i`: a worker whose loop has ended cannot take it. */
  function Send<S, A, V>(env: Env<S, A, V>, c: Channel<S, A, V>, i: nat, cmd: Command<A, V>): (r: Result<Channel<S, A, V>, Error>)
    ensures r.Success? <==> c.status.Serving?
    ensures r.Failure? ==> r.error == BrokenPipe(i)
  {
    if c.status.Serving? then Success(Deliver(env, c, cmd)) else Failure(BrokenPipe(i))
  }

  /** `remote.recv()` on the pipe with index `i`: the oldest pending reply, or no reply at all
      (the call would block forever, or fail on a worker that has gone). */
  function Recv<S, A, V>(c: Channel<S, A, V>, i: nat): (r: Result<(Channel<S, A, V>, Reply<V>), Error>)
    ensures r.Success? <==> |c.pending| > 0
    ensures r.Failure? ==> r.error == NoReply(i)
    ensures r.Success? ==> r.value.1 == c.pending[0] && r.value.0.pending == c.pending[1..]
    ensures r.Success? ==> r.value.0.received + r.value.0.pending == c.received + c.pending
    ensures r.Success? ==> r.value.0.received == c.received + [c.pending[0]]
    ensures r.Success? ==> r.value.0.sent == c.sent && r.value.0.status == c.status && r.value.0.env == c.env
  {
    if |c.pending| == 0 then
      Failure(NoReply(i))
    else
      Success((c.(received := c.received + [c.pending[0]], pending := c.pending[1..]), c.pending[0]))
  }

  /** A fresh channel is valid. */
  lemma OpenValid<S, A, V>(env: Env<S, A, V>, s: S)
    ensures Valid(env, Open<S, A, V>(s))
  {
  }

  /** Delivering a command keeps the channel in step with the worker loop. */
  lemma DeliverValid<S, A, V>(env: Env<S, A, V>, c: Channel<S, A, V>, cmd: Command<A, V>)
    requires Valid(env, c) && c.status.Serving?
    ensures Valid(env, Deliver(env, c, cmd))
  {
    var l := Run(env, c.init, c.sent);
    RunAppend(env, c.init, c.sent, [cmd]);
    var h := Handle(env, c.env, cmd);
    RunSingle(env, c.env, cmd);
    assert l.replies + Elements(h.reply) == c.received + (c.pending + Elements(h.reply));
  }

  /** Receiving keeps the channel in step with the worker loop. */
  lemma RecvValid<S, A, V>(env: Env<S, A, V>, c: Channel<S, A, V>, i: nat)
    requires Valid(env, c) && Recv(c, i).Success?
    ensures Valid(env, Recv(c, i).value.0)
  {
  }

  /** Sending a command that calls for a reply to an idle channel leaves exactly that reply pending. */
  lemma DeliverToIdle<S, A, V>(env: Env<S, A, V>, c: Channel<S, A, V>, cmd: Command<A, V>)
    requires Idle(c)
    ensures var h := Handle(env, c.env, cmd);
            var d := Deliver(env, c, cmd);
            && d.sent == c.sent + [cmd]
            && d.received == c.received
            && d.pending == Elements(h.reply)
  {
  }
}
