/**
  The observation-category labels of MaMuJoCo's multi-agent adapter
  (harl/envs/mamujoco/multiagent_mujoco/mujoco_multi.py): a label such as
  `"qpos,qvel,cfrc_ext|qpos"` lists, per graph distance `k`, the joint quantities an agent
  observes, with `|` between distances and `,` between quantities.
*/
module Categories {
  import opened Outcomes

  /** Python's `s.split(sep)` for a one-character separator: the maximal pieces between
      separators, including empty ones; never an empty list. */
  function Split(s: string, sep: char): (r: seq<string>)
    ensures |r| >= 1
    ensures forall k :: 0 <= k < |r| ==> sep !in r[k]
    decreases |s|
  {
    if |s| == 0 then
      [""]
    else
      var rest := Split(s[1..], sep);
      if s[0] == sep then [""] + rest else [[s[0]] + rest[0]] + rest[1..]
  }

  /** `sep.join(pieces)`. */
  function Join(pieces: seq<string>, sep: char): string
    requires |pieces| >= 1
    decreases |pieces|
  {
    if |pieces| == 1 then pieces[0] else pieces[0] + [sep] + Join(pieces[1..], sep)
  }

  /** Splitting loses nothing: joining the pieces back with the separator gives the string. */
  lemma {:induction false} JoinSplit(s: string, sep: char)
    ensures Join(Split(s, sep), sep) == s
    decreases |s|
  {
    if |s| > 0 {
      var rest := Split(s[1..], sep);
      JoinSplit(s[1..], sep);
      if s[0] == sep {
        assert Split(s, sep)[1..] == rest;
      } else if |rest| == 1 {
        assert Join(Split(s, sep), sep) == [s[0]] + rest[0];
      } else {
        var r := Split(s, sep);
        assert r[1..] == rest[1..];
        assert Join(rest, sep) == rest[0] + [sep] + Join(rest[1..], sep);
      }
    }
  }

  lemma {:induction false} SplitWithoutSeparator(p: string, sep: char)
    requires sep !in p
    ensures Split(p, sep) == [p]
    decreases |p|
  {
    if |p| > 0 {
      SplitWithoutSeparator(p[1..], sep);
      assert p[0] != sep && [p[0]] + p[1..] == p;
    }
  }

  lemma {:induction false} SplitAtFirstSeparator(p: string, t: string, sep: char)
    requires sep !in p
    ensures Split(p + [sep] + t, sep) == [p] + Split(t, sep)
    decreases |p|
  {
    var s := p + [sep] + t;
    if |p| == 0 {
      assert s[1..] == t;
    } else {
      assert s[1..] == p[1..] + [sep] + t;
      SplitAtFirstSeparator(p[1..], t, sep);
      assert s[0] == p[0] != sep && [p[0]] + p[1..] == p;
    }
  }

  /** Joining is undone by splitting, provided no piece contains the separator. */
  lemma {:induction false} SplitJoin(pieces: seq<string>, sep: char)
    requires |pieces| >= 1
    requires forall k :: 0 <= k < |pieces| ==> sep !in pieces[k]
    ensures Split(Join(pieces, sep), sep) == pieces
    decreases |pieces|
  {
    if |pieces| == 1 {
      SplitWithoutSeparator(pieces[0], sep);
    } else {
      SplitJoin(pieces[1..], sep);
      SplitAtFirstSeparator(pieces[0], Join(pieces[1..], sep), sep);
    }
  }

  /** A two-part label `near|far`, whose `|` split gives back its two parts. */
  function TwoParts(near: string, far: string): (text: string)
    requires '|' !in near && '|' !in far
    ensures Split(text, '|') == [near, far]
  {
    SplitAtFirstSeparator(near, far, '|');
    SplitWithoutSeparator(far, '|');
    near + "|" + far
  }

  /** The label used when none is configured, chosen by scenario name. Every default has two
      parts: the quantities observed at distance 0, which always start with `qpos,qvel`, and
      those at every further distance, `qpos` for every scenario except `coupled_half_cheetah`,
      whose far part is empty. */
  function DefaultLabel(scenario: string): (text: string)
    ensures |Split(text, '|')| == 2
    ensures |Split(text, '|')[0]| >= 9 && Split(text, '|')[0][..9] == "qpos,qvel"
    ensures Split(text, '|')[1] == if scenario == "coupled_half_cheetah" then "" else "qpos"
  {
    TwoParts(DefaultNear(scenario), if scenario == "coupled_half_cheetah" then "" else "qpos")
  }

  /** The distance-0 part of each scenario's default label. */
  function DefaultNear(scenario: string): (near: string)
    ensures '|' !in near && |near| >= 9 && near[..9] == "qpos,qvel"
  {
    if scenario in ["Ant-v2", "manyagent_ant", "isaac_factor_ant-v2"] then
      Near("cfrc_ext")
    else if scenario in ["Humanoid-v2", "HumanoidStandup-v2"] then
      Near("cfrc_ext,cvel,cinert,qfrc_actuator")
    else if scenario in ["Reacher-v2"] then
      Near("fingertip_dist")
    else if scenario in ["coupled_half_cheetah"] then
      Near("ten_J,ten_length,ten_velocity")
    else
      "qpos,qvel"
  }

  /** `qpos,qvel` followed by further quantities. */
  function Near(more: string): (near: string)
    requires '|' !in more
    ensures '|' !in near && |near| >= 9 && near[..9] == "qpos,qvel"
  {
    "qpos,qvel," + more
  }

  /** `k_categories_label`: the configured label, or the scenario's default. */
  function Label(configured: Option<string>, scenario: string): (chosen: string)
    ensures configured.Some? ==> chosen == configured.value
    ensures configured.None? ==> chosen == DefaultLabel(scenario)
    ensures configured.None? ==>
              && |Split(chosen, '|')| == 2
              && |Split(chosen, '|')[0]| >= 9 && Split(chosen, '|')[0][..9] == "qpos,qvel"
              && Split(chosen, '|')[1] == if scenario == "coupled_half_cheetah" then "" else "qpos"
  {
    if configured.Some? then configured.value else DefaultLabel(scenario)
  }

  /** Without a configured label, distance 0 observes quantities starting with `qpos` and
      `qvel`, and every further distance observes `qpos` alone, except in
      `coupled_half_cheetah`, where it observes the single empty quantity `""`. */
  lemma DefaultCategories(scenario: string, obsk: int, k: nat)
    requires k < obsk + 1
    ensures var cats := KCategories(Label(None, scenario), obsk);
            && (k == 0 ==> |Join(cats[0], ',')| >= 9 && Join(cats[0], ',')[..9] == "qpos,qvel")
            && (k >= 1 ==> cats[k] == if scenario == "coupled_half_cheetah" then [""] else ["qpos"])
  {
    var text := Label(None, scenario);
    var cats := KCategories(text, obsk);
    if k >= 1 {
      var far := Split(text, '|')[1];
      SplitJoin(cats[k], ',');
      SplitWithoutSeparator(far, ',');
    }
  }

  /** `k_categories`: for every distance `k` in `range(agent_obsk + 1)` (none when that is
      empty), the `,`-separated quantities of the `k`-th `|`-separated part of the label, the
      last part standing in for all distances beyond the label. Joining an entry back with
      `,` gives that part of the label, and no quantity contains a `,`. */
  function KCategories(text: string, obsk: int): (r: seq<seq<string>>)
    ensures |r| == if obsk + 1 > 0 then obsk + 1 else 0
    ensures forall k :: 0 <= k < |r| ==> |r[k]| >= 1
    ensures forall k :: 0 <= k < |r| && k < |Split(text, '|')| ==> Join(r[k], ',') == Split(text, '|')[k]
    ensures forall k :: 0 <= k < |r| && k >= |Split(text, '|')| ==> Join(r[k], ',') == Split(text, '|')[|Split(text, '|')| - 1]
    ensures forall k, q :: 0 <= k < |r| && 0 <= q < |r[k]| ==> ',' !in r[k][q]
  {
    var parts := Split(text, '|');
    var n := if obsk + 1 > 0 then obsk + 1 else 0;
    seq(n, k requires 0 <= k < n => Layer(parts, k))
  }

  /** Entry `k` of `k_categories`: the `k`-th part (or the last one) split at `,`. */
  function Layer(parts: seq<string>, k: nat): (r: seq<string>)
    requires |parts| >= 1
    ensures |r| >= 1
    ensures Join(r, ',') == parts[if k < |parts| then k else |parts| - 1]
    ensures forall q :: 0 <= q < |r| ==> ',' !in r[q]
  {
    JoinSplit(parts[if k < |parts| then k else |parts| - 1], ',');
    Split(parts[if k < |parts| then k else |parts| - 1], ',')
  }

  /** With exactly one distance per part, the categories recover the whole label. */
  lemma KCategoriesRecoverLabel(text: string, obsk: int)
    requires obsk + 1 == |Split(text, '|')|
    ensures var cats := KCategories(text, obsk);
            Join(seq(|cats|, k requires 0 <= k < |cats| => Join(cats[k], ',')), '|') == text
  {
    var cats := KCategories(text, obsk);
    assert seq(|cats|, k requires 0 <= k < |cats| => Join(cats[k], ',')) == Split(text, '|');
    JoinSplit(text, '|');
  }

  /** `global_categories`: the configured text split at `,`, or nothing. */
  function GlobalCategories(configured: Option<string>): (r: seq<string>)
    ensures configured.None? ==> r == []
    ensures configured.Some? ==> |r| >= 1 && Join(r, ',') == configured.value
  {
    if configured.Some? then
      JoinSplit(configured.value, ',');
      Split(configured.value, ',')
    else
      []
  }

  /** Every distance at or beyond the label's last part observes the same quantities, and
      they are those of the last part. */
  lemma {:induction false} LastPartRepeats(text: string, obsk: int, k: nat)
    requires |Split(text, '|')| - 1 <= k < obsk + 1
    ensures var cats := KCategories(text, obsk);
            cats[k] == cats[|Split(text, '|')| - 1] == Split(Split(text, '|')[|Split(text, '|')| - 1], ',')
  {
    var cats := KCategories(text, obsk);
    var parts := Split(text, '|');
    SplitJoin(cats[k], ',');
    SplitJoin(cats[|parts| - 1], ',');
  }
}
