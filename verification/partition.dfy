/**
  How MaMuJoCo's multi-agent adapter (harl/envs/mamujoco/multiagent_mujoco/mujoco_multi.py)
  carves the robot's single action vector into per-agent pieces: the bounds of each agent's
  action box, and the flattening of per-agent actions back into one vector in `step`.

  Partition members (joints) are opaque: only the partition sizes `acdims` matter here.
*/
module Partition {
  import opened Outcomes
  import Padding

  /** Sum of a sequence of naturals, peeled from the end so that a prefix sum
      `Sum(xs[..a+1])` unfolds to `Sum(xs[..a]) + xs[a]`. */
  function Sum(xs: seq<nat>): nat
  {
    if |xs| == 0 then 0 else Sum(xs[..|xs| - 1]) + xs[|xs| - 1]
  }

  /** Concatenation of a sequence of sequences (`np.concatenate` of 1-d arrays). */
  function Concat<T>(xss: seq<seq<T>>): seq<T>
  {
    if |xss| == 0 then [] else Concat(xss[..|xss| - 1]) + xss[|xss| - 1]
  }

  /** The length of every piece. */
  function Lengths<T>(xss: seq<seq<T>>): (r: seq<nat>)
    ensures |r| == |xss| && forall i :: 0 <= i < |xss| ==> r[i] == |xss[i]|
  {
    seq(|xss|, i requires 0 <= i < |xss| => |xss[i]|)
  }

  /** Where agent `a`'s slice of the action vector begins: `sum(acdims[:a])`. */
  function Offset(acdims: seq<nat>, a: nat): nat
    requires a <= |acdims|
  {
    Sum(acdims[..a])
  }

  lemma OffsetStep(acdims: seq<nat>, a: nat)
    requires a < |acdims|
    ensures Offset(acdims, a + 1) == Offset(acdims, a) + acdims[a]
  {
    assert acdims[..a + 1][..a] == acdims[..a];
  }

  lemma {:induction false} OffsetMonotone(acdims: seq<nat>, a: nat, b: nat)
    requires a <= b <= |acdims|
    ensures Offset(acdims, a) <= Offset(acdims, b)
  {
    if a < b {
      OffsetMonotone(acdims, a, b - 1);
      OffsetStep(acdims, b - 1);
    }
  }

  /** The agents' slices tile `[0, sum(acdims))`: the first starts at 0, each ends where the next
      begins, the starts never decrease (so no two slices overlap), and the last ends at the
      total. */
  lemma SlicesTile(acdims: seq<nat>)
    ensures Offset(acdims, 0) == 0
    ensures Offset(acdims, |acdims|) == Sum(acdims)
    ensures forall a :: 0 <= a < |acdims| ==> Offset(acdims, a + 1) == Offset(acdims, a) + acdims[a]
    ensures forall a, b :: 0 <= a <= b <= |acdims| ==> Offset(acdims, a) <= Offset(acdims, b)
  {
    assert acdims[..|acdims|] == acdims;
    forall a | 0 <= a < |acdims|
      ensures Offset(acdims, a + 1) == Offset(acdims, a) + acdims[a]
    {
      OffsetStep(acdims, a);
    }
    forall a, b | 0 <= a <= b <= |acdims|
      ensures Offset(acdims, a) <= Offset(acdims, b)
    {
      OffsetMonotone(acdims, a, b);
    }
  }

  lemma {:induction false} ConcatLength<T>(xss: seq<seq<T>>)
    ensures |Concat(xss)| == Sum(Lengths(xss))
  {
    if |xss| > 0 {
      var init := xss[..|xss| - 1];
      ConcatLength(init);
      assert Lengths(xss)[..|xss| - 1] == Lengths(init);
    }
  }

  /** Entry `j` of piece `i` sits at `Offset(lengths, i) + j` of the concatenation. */
  lemma {:induction false} ConcatIndex<T>(xss: seq<seq<T>>, i: nat, j: nat)
    requires i < |xss| && j < |xss[i]|
    ensures Offset(Lengths(xss), i) + j < |Concat(xss)|
    ensures Concat(xss)[Offset(Lengths(xss), i) + j] == xss[i][j]
  {
    var n := |xss|;
    var init := xss[..n - 1];
    var lens := Lengths(xss);
    ConcatLength(init);
    assert lens[..n - 1] == Lengths(init);
    if i < n - 1 {
      ConcatIndex(init, i, j);
      assert lens[..i] == Lengths(init)[..i];
    } else {
      assert lens[..i] == Lengths(init);
    }
  }

  /** Piece `i` occupies `[Offset(lengths, i), Offset(lengths, i) + |xss[i]|)` of the
      concatenation. */
  lemma ConcatSlice<T>(xss: seq<seq<T>>, i: nat)
    requires i < |xss|
    ensures Offset(Lengths(xss), i) + |xss[i]| <= |Concat(xss)|
    ensures Concat(xss)[Offset(Lengths(xss), i)..Offset(Lengths(xss), i) + |xss[i]|] == xss[i]
  {
    var lens := Lengths(xss);
    OffsetStep(lens, i);
    OffsetMonotone(lens, i + 1, |xss|);
    assert lens[..|xss|] == lens;
    ConcatLength(xss);
    forall j | 0 <= j < |xss[i]|
      ensures Concat(xss)[Offset(lens, i) + j] == xss[i][j]
    {
      ConcatIndex(xss, i, j);
    }
  }

  /** An action box: per-dimension lower and upper bounds. */
  datatype Box<T> = Box(low: seq<T>, high: seq<T>)

  /** Python's `xs[lo:hi]` for non-negative bounds: both are clamped to the length. */
  function Slice<T>(xs: seq<T>, lo: nat, hi: nat): (r: seq<T>)
    ensures lo <= hi <= |xs| ==> r == xs[lo..hi]
    ensures |xs| <= lo ==> r == []
  {
    var l := if lo <= |xs| then lo else |xs|;
    var h := if hi <= |xs| then hi else |xs|;
    if l <= h then xs[l..h] else []
  }

  function SliceBox<T>(b: Box<T>, lo: nat, hi: nat): Box<T>
  {
    Box(Slice(b.low, lo, hi), Slice(b.high, lo, hi))
  }

  /** Agent `a`'s entry of `true_action_space`: the robot's box restricted to
      `[sum(acdims[:a]), sum(acdims[:a+1]))`. When the robot has at least `sum(acdims)`
      actuators, the agent gets exactly its partition's number of dimensions, read from its
      own place in the robot's bounds. */
  function AgentBox<T>(robot: Box<T>, acdims: seq<nat>, a: nat): (r: Box<T>)
    requires a < |acdims|
    ensures |robot.low| >= Sum(acdims) && |robot.high| >= Sum(acdims) ==>
              && |r.low| == acdims[a] && |r.high| == acdims[a]
              && Offset(acdims, a) + acdims[a] <= Sum(acdims)
              && (forall j :: 0 <= j < acdims[a] ==> r.low[j] == robot.low[Offset(acdims, a) + j])
              && (forall j :: 0 <= j < acdims[a] ==> r.high[j] == robot.high[Offset(acdims, a) + j])
  {
    OffsetStep(acdims, a);
    OffsetMonotone(acdims, a + 1, |acdims|);
    assert acdims[..|acdims|] == acdims;
    SliceBox(robot, Offset(acdims, a), Offset(acdims, a + 1))
  }

  /** `true_action_space`: one box per agent, in agent order. */
  function TrueActionSpace<T>(robot: Box<T>, acdims: seq<nat>): (r: seq<Box<T>>)
    ensures |r| == |acdims|
    ensures forall a :: 0 <= a < |acdims| ==> r[a] == AgentBox(robot, acdims, a)
  {
    seq(|acdims|, a requires 0 <= a < |acdims| => AgentBox(robot, acdims, a))
  }

  /** The agents' true lower bounds, laid end to end, are exactly the robot's first
      `sum(acdims)` lower bounds: no dimension is skipped or given to two agents. */
  lemma TrueSpacesCoverRobot<T>(robot: Box<T>, acdims: seq<nat>)
    requires |robot.low| >= Sum(acdims) && |robot.high| >= Sum(acdims)
    ensures Concat(LowBounds(TrueActionSpace(robot, acdims))) == robot.low[..Sum(acdims)]
  {
    var lows := LowBounds(TrueActionSpace(robot, acdims));
    LowsLengths(robot, acdims);
    forall a, j | 0 <= a < |lows| && 0 <= j < |lows[a]|
      ensures Offset(Lengths(lows), a) + j < |robot.low|
      ensures lows[a][j] == robot.low[Offset(Lengths(lows), a) + j]
    {
      LowTile(robot, acdims, a, j);
    }
    ConcatOfTiles(lows, robot.low);
  }

  lemma LowsLengths<T>(robot: Box<T>, acdims: seq<nat>)
    requires |robot.low| >= Sum(acdims) && |robot.high| >= Sum(acdims)
    ensures Lengths(LowBounds(TrueActionSpace(robot, acdims))) == acdims
  {
    var lows := LowBounds(TrueActionSpace(robot, acdims));
    forall a | 0 <= a < |acdims| ensures |lows[a]| == acdims[a] {
      assert lows[a] == AgentBox(robot, acdims, a).low;
    }
  }

  lemma LowTile<T>(robot: Box<T>, acdims: seq<nat>, a: nat, j: nat)
    requires |robot.low| >= Sum(acdims) && |robot.high| >= Sum(acdims)
    requires a < |acdims| && j < acdims[a]
    ensures Offset(acdims, a) + j < |robot.low|
    ensures LowBounds(TrueActionSpace(robot, acdims))[a][j] == robot.low[Offset(acdims, a) + j]
  {
    assert LowBounds(TrueActionSpace(robot, acdims))[a] == AgentBox(robot, acdims, a).low;
  }

  /** Pieces that each match `whole` at their own offset concatenate to a prefix of `whole`. */
  lemma ConcatOfTiles<T>(xss: seq<seq<T>>, whole: seq<T>)
    requires Sum(Lengths(xss)) <= |whole|
    requires forall a, j :: 0 <= a < |xss| && 0 <= j < |xss[a]| ==>
               Offset(Lengths(xss), a) + j < |whole| && xss[a][j] == whole[Offset(Lengths(xss), a) + j]
    ensures Concat(xss) == whole[..Sum(Lengths(xss))]
  {
    ConcatLength(xss);
    forall p | 0 <= p < Sum(Lengths(xss))
      ensures Concat(xss)[p] == whole[p]
    {
      var a, j := ConcatAt(xss, p);
    }
  }

  /** Position `p` of a concatenation is entry `j` of some piece `a`. */
  lemma ConcatAt<T>(xss: seq<seq<T>>, p: nat) returns (a: nat, j: nat)
    requires p < Sum(Lengths(xss))
    ensures a < |xss| && j < |xss[a]| && p == Offset(Lengths(xss), a) + j
    ensures p < |Concat(xss)| && Concat(xss)[p] == xss[a][j]
  {
    a, j := Locate(Lengths(xss), p);
    ConcatIndex(xss, a, j);
  }

  /** The agent whose slice holds position `p`, and where in that slice it is. */
  lemma Locate(acdims: seq<nat>, p: nat) returns (a: nat, j: nat)
    requires p < Sum(acdims)
    ensures a < |acdims| && j < acdims[a] && p == Offset(acdims, a) + j
  {
    SlicesTile(acdims);
    a := 0;
    while Offset(acdims, a + 1) <= p
      invariant a < |acdims| && Offset(acdims, a) <= p
      decreases |acdims| - a
    {
      if a + 1 == |acdims| {
        assert false;
      }
      a := a + 1;
    }
    j := p - Offset(acdims, a);
  }

  function LowBounds<T>(spaces: seq<Box<T>>): (r: seq<seq<T>>)
    ensures |r| == |spaces| && forall a :: 0 <= a < |spaces| ==> r[a] == spaces[a].low
  {
    seq(|spaces|, a requires 0 <= a < |spaces| => spaces[a].low)
  }

  /** `action_space`: one box per agent index (a dictionary keyed `0 .. n_agents - 1`, here a
      sequence); every entry is `robot[sum(acdims[:0]):sum(acdims[:1])]`. */
  function ActionSpace<T>(robot: Box<T>, acdims: seq<nat>): (r: seq<Box<T>>)
    ensures |r| == |acdims|
    ensures forall a :: 0 <= a < |acdims| ==> r[a] == AgentBox(robot, acdims, 0)
  {
    var first := SliceBox(robot, Offset(acdims, 0), if |acdims| == 0 then 0 else Offset(acdims, 1));
    seq(|acdims|, _ => first)
  }

  /** Every agent's advertised `action_space` is agent 0's true box, whatever its own
      partition. */
  lemma ActionSpaceIsAgentZeros<T>(robot: Box<T>, acdims: seq<nat>, a: nat)
    requires a < |acdims|
    ensures ActionSpace(robot, acdims)[a] == TrueActionSpace(robot, acdims)[0]
  {
  }

  /** So an agent whose partition size differs from agent 0's is advertised a box of the wrong
      dimension when the robot has enough actuators. */
  lemma ActionSpaceMisreportsUnequalPartitions<T>(robot: Box<T>, acdims: seq<nat>, a: nat)
    requires a < |acdims| && acdims[a] != acdims[0]
    requires |robot.low| >= Sum(acdims) && |robot.high| >= Sum(acdims)
    ensures |ActionSpace(robot, acdims)[a].low| != |TrueActionSpace(robot, acdims)[a].low|
  {
    ActionSpaceIsAgentZeros(robot, acdims, a);
    assert TrueActionSpace(robot, acdims)[0] == AgentBox(robot, acdims, 0);
    assert TrueActionSpace(robot, acdims)[a] == AgentBox(robot, acdims, a);
  }

  /** What `step` can raise while building the flat action. */
  datatype FlattenError =
    | MissingAgentAction(agent: nat)  // `actions[i]` for an agent with no action: IndexError
    | NoAgents                        // `np.concatenate([])`: ValueError

  /** Python's `xs[:n]`. */
  function Take<F>(xs: seq<F>, n: nat): (r: seq<F>)
    ensures n <= |xs| ==> r == xs[..n]
    ensures |xs| <= n ==> r == xs
    ensures |r| <= n
  {
    if n <= |xs| then xs[..n] else xs
  }

  /** The flat action of `step`: agent `i`'s action cut to its true dimension `lens[i]`, the
      pieces concatenated in agent order. When every action is at least as long as its agent's
      dimension the result has `sum(lens)` entries and agent `i`'s first `lens[i]` entries
      occupy `[sum(lens[:i]), sum(lens[:i+1]))`; `FlattenLaysOutPieces` covers shorter actions.
      Extra actions beyond the agent count are ignored. */
  function Flatten<F>(lens: seq<nat>, actions: seq<seq<F>>): (r: Result<seq<F>, FlattenError>)
    ensures |lens| == 0 ==> r == Failure(NoAgents)
    ensures 0 < |lens| && |actions| < |lens| ==> r == Failure(MissingAgentAction(|actions|))
    ensures r.Success? <==> 0 < |lens| <= |actions|
    ensures r.Success? && LongEnough(lens, actions) ==>
              && |r.value| == Sum(lens)
              && forall i :: 0 <= i < |lens| ==>
                   && Offset(lens, i) + lens[i] <= |r.value|
                   && r.value[Offset(lens, i)..Offset(lens, i) + lens[i]] == actions[i][..lens[i]]
  {
    if |lens| == 0 then
      Failure(NoAgents)
    else if |actions| < |lens| then
      Failure(MissingAgentAction(|actions|))
    else
      var pieces := Truncate(lens, actions);
      PiecesLaidOut(lens, actions);
      Success(Concat(pieces))
  }

  /** Every agent's action cut to its true dimension. */
  function Truncate<F>(lens: seq<nat>, actions: seq<seq<F>>): (r: seq<seq<F>>)
    requires |lens| <= |actions|
    ensures |r| == |lens| && forall i :: 0 <= i < |lens| ==> r[i] == Take(actions[i], lens[i])
  {
    seq(|lens|, i requires 0 <= i < |lens| => Take(actions[i], lens[i]))
  }

  /** Whether every agent's action is at least its agent's true dimension long. */
  predicate LongEnough<F>(lens: seq<nat>, actions: seq<seq<F>>)
    requires |lens| <= |actions|
  {
    forall i :: 0 <= i < |lens| ==> lens[i] <= |actions[i]|
  }

  lemma PiecesLaidOut<F>(lens: seq<nat>, actions: seq<seq<F>>)
    requires |lens| <= |actions|
    ensures LongEnough(lens, actions) ==>
              && |Concat(Truncate(lens, actions))| == Sum(lens)
              && forall i :: 0 <= i < |lens| ==>
                   && Offset(lens, i) + lens[i] <= |Concat(Truncate(lens, actions))|
                   && Concat(Truncate(lens, actions))[Offset(lens, i)..Offset(lens, i) + lens[i]] == actions[i][..lens[i]]
  {
    if LongEnough(lens, actions) {
      var pieces := Truncate(lens, actions);
      assert Lengths(pieces) == lens by {
        assert forall i :: 0 <= i < |lens| ==> pieces[i] == actions[i][..lens[i]];
      }
      ConcatLength(pieces);
      forall i | 0 <= i < |lens|
        ensures Offset(lens, i) + lens[i] <= |Concat(pieces)|
        ensures Concat(pieces)[Offset(lens, i)..Offset(lens, i) + lens[i]] == actions[i][..lens[i]]
      {
        PieceSlice(lens, actions, i);
      }
    }
  }

  /** Whatever the actions' lengths, the flat action is agent `i`'s `actions[i][:lens[i]]` laid
      end to end in agent order: piece `i` has `min(lens[i], len(actions[i]))` entries and starts
      right after the pieces before it, so a short action shifts every later agent's piece. */
  lemma FlattenLaysOutPieces<F>(lens: seq<nat>, actions: seq<seq<F>>)
    requires 0 < |lens| <= |actions|
    ensures var r := Flatten(lens, actions);
            var cut := Lengths(Truncate(lens, actions));
            && r.Success?
            && |r.value| == Sum(cut)
            && forall i :: 0 <= i < |lens| ==>
                 && cut[i] == (if lens[i] <= |actions[i]| then lens[i] else |actions[i]|)
                 && Offset(cut, i) + cut[i] <= |r.value|
                 && r.value[Offset(cut, i)..Offset(cut, i) + cut[i]] == Take(actions[i], lens[i])
  {
    var pieces := Truncate(lens, actions);
    ConcatLength(pieces);
    forall i | 0 <= i < |lens|
      ensures Offset(Lengths(pieces), i) + |pieces[i]| <= |Concat(pieces)|
      ensures Concat(pieces)[Offset(Lengths(pieces), i)..Offset(Lengths(pieces), i) + |pieces[i]|] == pieces[i]
    {
      ConcatSlice(pieces, i);
    }
  }

  lemma PieceSlice<F>(lens: seq<nat>, actions: seq<seq<F>>, i: nat)
    requires |lens| <= |actions| && LongEnough(lens, actions) && i < |lens|
    ensures Offset(lens, i) + lens[i] <= |Concat(Truncate(lens, actions))|
    ensures Concat(Truncate(lens, actions))[Offset(lens, i)..Offset(lens, i) + lens[i]] == actions[i][..lens[i]]
  {
    var pieces := Truncate(lens, actions);
    assert Lengths(pieces) == lens by {
      assert forall k :: 0 <= k < |lens| ==> pieces[k] == actions[k][..lens[k]];
    }
    ConcatSlice(pieces, i);
  }

  /** Flattening undoes padding: if every agent's action starts with its unpadded action, the
      flat action is the unpadded actions concatenated, whatever the padding was. */
  lemma FlattenUndoesPadding<F>(raw: seq<seq<F>>, padded: seq<seq<F>>)
    requires 0 < |raw| <= |padded|
    requires forall i :: 0 <= i < |raw| ==> |raw[i]| <= |padded[i]| && padded[i][..|raw[i]|] == raw[i]
    ensures Flatten(Lengths(raw), padded) == Success(Concat(raw))
  {
    assert Truncate(Lengths(raw), padded) == raw;
  }

  /** In particular, padding each agent's action to a common width with any fill value (as the
      batched action tensor is padded) and flattening gives back the concatenation. */
  lemma FlattenAfterPad<F>(raw: seq<seq<F>>, width: nat, fill: F)
    requires 0 < |raw|
    requires forall i :: 0 <= i < |raw| ==> |raw[i]| <= width
    ensures Flatten(Lengths(raw), seq(|raw|, i requires 0 <= i < |raw| => Padding.Pad(raw[i], width, fill)))
              == Success(Concat(raw))
  {
    FlattenUndoesPadding(raw, seq(|raw|, i requires 0 <= i < |raw| => Padding.Pad(raw[i], width, fill)));
  }
}
