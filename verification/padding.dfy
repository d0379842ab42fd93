/**
  `IsaacLabWrapper.stack_padded_tensors_last_axis` (harl/envs/env_wrappers.py): tensors
  whose last dimension differs are right-padded to the widest one and stacked on a new
  axis just before the last one.

  A tensor is represented by its leading shape, its last-dimension extent, and its rows:
  the vectors along the last dimension, with the leading dimensions flattened in
  row-major order.
*/
module Padding {
  import opened Outcomes

  /** A tensor of shape `lead + [width]`. */
  datatype Tensor<T> = Tensor(lead: seq<nat>, width: nat, rows: seq<seq<T>>)

  /** The number of elements of a shape. */
  function Product(shape: seq<nat>): nat
  {
    if |shape| == 0 then 1 else shape[0] * Product(shape[1..])
  }

  /** One row per index of the leading shape, each `width` long. */
  predicate WellShaped<T>(t: Tensor<T>)
  {
    |t.rows| == Product(t.lead) && forall j :: 0 <= j < |t.rows| ==> |t.rows[j]| == t.width
  }

  /** The result of stacking: shape `lead + [count, width]`, where `rows[j][i]` is row j of
      input tensor i, padded. */
  datatype Stacked<T> = Stacked(lead: seq<nat>, count: nat, width: nat, rows: seq<seq<seq<T>>>)

  /** What stacking can raise: `max` of an empty list, or `torch.stack` of tensors whose
      leading shapes differ. */
  datatype StackError = EmptyInput | ShapeMismatch

  /** `torch.nn.functional.pad(row, (0, width - |row|), 'constant', fill)`. */
  function Pad<T>(row: seq<T>, width: nat, fill: T): (r: seq<T>)
    requires |row| <= width
    ensures |r| == width
    ensures r[..|row|] == row
    ensures forall k :: |row| <= k < width ==> r[k] == fill
  {
    row + seq(width - |row|, _ => fill)
  }

  /** `max(tensor.shape[-1] for tensor in tensors)`. */
  function MaxWidth<T>(ts: seq<Tensor<T>>): (w: nat)
    requires |ts| > 0
    ensures forall i :: 0 <= i < |ts| ==> ts[i].width <= w
    ensures exists i :: 0 <= i < |ts| && ts[i].width == w
  {
    if |ts| == 1 then
      ts[0].width
    else
      var rest := MaxWidth(ts[1..]);
      assert forall i :: 1 <= i < |ts| ==> ts[i] == ts[1..][i - 1];
      if ts[0].width >= rest then ts[0].width else rest
  }

  /** Whether every tensor has the leading shape of the first. */
  predicate SameLead<T>(ts: seq<Tensor<T>>)
  {
    forall i :: 0 <= i < |ts| ==> ts[i].lead == ts[0].lead
  }

  /** Every tensor is well shaped, has `n` rows, and is at most `w` wide. */
  predicate Fits<T>(ts: seq<Tensor<T>>, n: nat, w: nat)
  {
    forall i :: 0 <= i < |ts| ==> WellShaped(ts[i]) && |ts[i].rows| == n && ts[i].width <= w
  }

  /** Tensors of one leading shape fit the common row count and the widest width. */
  lemma SameLeadFits<T>(ts: seq<Tensor<T>>)
    requires forall i :: 0 <= i < |ts| ==> WellShaped(ts[i])
    requires |ts| > 0 && SameLead(ts)
    ensures Fits(ts, Product(ts[0].lead), MaxWidth(ts))
  {
    forall i | 0 <= i < |ts|
      ensures |ts[i].rows| == Product(ts[0].lead)
    {
      assert WellShaped(ts[i]) && ts[i].lead == ts[0].lead;
    }
  }

  /** Pads each tensor to `w` and interleaves them: slot `[j][i]` is row j of tensor i. */
  function Interleave<T>(ts: seq<Tensor<T>>, n: nat, w: nat, fill: T): (rows: seq<seq<seq<T>>>)
    requires Fits(ts, n, w)
    ensures |rows| == n
    ensures forall j, i :: 0 <= j < n && 0 <= i < |ts| ==>
              && |rows[j]| == |ts|
              && |rows[j][i]| == w
              && rows[j][i][..ts[i].width] == ts[i].rows[j]
              && forall k :: ts[i].width <= k < w ==> rows[j][i][k] == fill
  {
    seq(n, j requires 0 <= j < n =>
      seq(|ts|, i requires 0 <= i < |ts| => Pad(ts[i].rows[j], w, fill)))
  }

  /** `stack_padded_tensors_last_axis(tensors, fill)`: pad every tensor's last dimension to the
      widest, then stack the padded tensors on a new second-to-last axis. The output has one slot
      per input tensor, in input order; each slot keeps its tensor's entries as the prefix of a
      row of the common width and holds `fill` everywhere after them. */
  function StackPadded<T>(ts: seq<Tensor<T>>, fill: T): (r: Result<Stacked<T>, StackError>)
    requires forall i :: 0 <= i < |ts| ==> WellShaped(ts[i])
    ensures |ts| == 0 ==> r == Failure(EmptyInput)
    ensures |ts| > 0 ==> (r.Success? <==> SameLead(ts))
    ensures r.Failure? && |ts| > 0 ==> r.error == ShapeMismatch
    ensures r.Success? ==>
              && r.value.lead == ts[0].lead && r.value.count == |ts|
              && (forall i :: 0 <= i < |ts| ==> ts[i].width <= r.value.width)
              && (exists i :: 0 <= i < |ts| && ts[i].width == r.value.width)
              && |r.value.rows| == Product(ts[0].lead)
    ensures r.Success? ==> Fits(ts, |r.value.rows|, r.value.width) && forall j, i :: 0 <= j < |r.value.rows| && 0 <= i < |ts| ==>
              && |r.value.rows[j]| == |ts|
              && |r.value.rows[j][i]| == r.value.width
              && r.value.rows[j][i][..ts[i].width] == ts[i].rows[j]
              && forall k :: ts[i].width <= k < r.value.width ==> r.value.rows[j][i][k] == fill
  {
    if |ts| == 0 then
      Failure(EmptyInput)
    else if !SameLead(ts) then
      Failure(ShapeMismatch)
    else
      SameLeadFits(ts);
      var w := MaxWidth(ts);
      Success(Stacked(ts[0].lead, |ts|, w, Interleave(ts, Product(ts[0].lead), w, fill)))
  }

  /** A single tensor, or tensors all of one width, are stacked without any padding: each slot
      is the tensor's own row. */
  lemma NoPaddingWhenWidthsAgree<T>(ts: seq<Tensor<T>>, fill: T)
    requires forall i :: 0 <= i < |ts| ==> WellShaped(ts[i])
    requires |ts| > 0 && SameLead(ts)
    requires forall i :: 0 <= i < |ts| ==> ts[i].width == ts[0].width
    ensures StackPadded(ts, fill).Success?
    ensures var s := StackPadded(ts, fill).value;
            s.width == ts[0].width && forall j, i :: 0 <= j < |s.rows| && 0 <= i < |ts| ==> s.rows[j][i] == ts[i].rows[j]
  {
    var s := StackPadded(ts, fill).value;
    forall j, i | 0 <= j < |s.rows| && 0 <= i < |ts|
      ensures s.rows[j][i] == ts[i].rows[j]
    {
      assert s.rows[j][i] == s.rows[j][i][..ts[i].width];
    }
  }
}
