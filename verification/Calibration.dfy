/** Unifying the measurements of several ranks and expanding them again.

    Unification takes the channel-wise maximum over the ranks of a group.  With expert
    parallelism it keeps all ranks' experts under new numbers and concatenates the
    per-expert outputs of the fused operation; expansion slices them apart again. */
module Calibration {
  import opened Common

  /** One measured channel: a non-empty list of which only the head is ever merged. */
  datatype Cell = Cell(amax: real, rest: seq<real>)

  datatype Node = Node(inputs: seq<seq<Cell>>, outputs: Option<seq<Cell>>, weight: Option<seq<Cell>>)

  type Nodes = map<string, Node>

  // ---------------------------------------------------------------- Merging one node

  function MaxCell(a: Cell, b: Cell): Cell {
    if a.amax < b.amax then a.(amax := b.amax) else a
  }

  function MaxCells(a: seq<Cell>, b: seq<Cell>): (r: seq<Cell>)
    requires |a| <= |b|
    ensures |r| == |a| && forall i :: 0 <= i < |a| ==> r[i] == MaxCell(a[i], b[i])
  {
    seq(|a|, i requires 0 <= i < |a| => MaxCell(a[i], b[i]))
  }

  predicate InputsFit(a: seq<seq<Cell>>, b: seq<seq<Cell>>) {
    |a| <= |b| && forall i :: 0 <= i < |a| ==> |a[i]| <= |b[i]|
  }

  function MaxInputs(a: seq<seq<Cell>>, b: seq<seq<Cell>>): (r: seq<seq<Cell>>)
    requires InputsFit(a, b)
    ensures |r| == |a| && forall i :: 0 <= i < |a| ==> r[i] == MaxCells(a[i], b[i])
  {
    seq(|a|, i requires 0 <= i < |a| => MaxCells(a[i], b[i]))
  }

  /** What every rank must offer for the accumulated node a to be merged with it. */
  predicate Fits(a: Node, b: Node, extend: bool) {
    && InputsFit(a.inputs, b.inputs)
    && (a.outputs.Some? ==> b.outputs.Some?)
    && (a.outputs.Some? && extend ==> |a.outputs.value| > 0 && |b.outputs.value| > 0)
    && (a.outputs.Some? && !extend ==> |a.outputs.value| <= |b.outputs.value|)
    && (a.weight.Some? ==> b.weight.Some? && |a.weight.value| <= |b.weight.value|)
  }

  /** The fused operation keeps its first output as a maximum and gathers the others. */
  function MergedOutputs(a: seq<Cell>, b: seq<Cell>, extend: bool): seq<Cell>
    requires if extend then |a| > 0 && |b| > 0 else |a| <= |b|
  {
    if extend then a[0 := MaxCell(a[0], b[0])] + b[1..] else MaxCells(a, b)
  }

  function Merged(a: Node, b: Node, extend: bool): Node
    requires Fits(a, b, extend)
  {
    Node(MaxInputs(a.inputs, b.inputs),
         if a.outputs.Some? then Some(MergedOutputs(a.outputs.value, b.outputs.value, extend)) else None,
         if a.weight.Some? then Some(MaxCells(a.weight.value, b.weight.value)) else None)
  }

  /** The same node as measured by each rank of the group. */
  predicate Aligned(ns: seq<Node>, extend: bool) {
    ns != [] && forall k :: 0 <= k < |ns| ==> Fits(ns[0], ns[k], extend)
  }

  /** The unified node after the first k ranks; the first rank only meets itself. */
  function Unified(ns: seq<Node>, extend: bool, k: nat): (r: Node)
    requires Aligned(ns, extend) && 0 < k <= |ns|
    ensures forall c :: Fits(ns[0], c, extend) ==> Fits(r, c, extend)
  {
    if k == 1 then ns[0]
    else
      assert Fits(ns[0], ns[k - 1], extend);
      Merged(Unified(ns, extend, k - 1), ns[k - 1], extend)
  }

  method MaxCellList(a: seq<Cell>, b: seq<Cell>) returns (r: seq<Cell>)
    requires |a| <= |b|
    ensures r == MaxCells(a, b)
  {
    r := a;
    for i := 0 to |r|
      invariant |r| == |a|
      invariant forall j :: 0 <= j < i ==> r[j] == MaxCell(a[j], b[j])
      invariant forall j :: i <= j < |a| ==> r[j] == a[j]
    {
      if r[i].amax < b[i].amax {
        r := r[i := r[i].(amax := b[i].amax)];
      }
    }
  }

  method MaxInputLists(a: seq<seq<Cell>>, b: seq<seq<Cell>>) returns (r: seq<seq<Cell>>)
    requires InputsFit(a, b)
    ensures r == MaxInputs(a, b)
  {
    r := a;
    for i := 0 to |r|
      invariant |r| == |a|
      invariant forall j :: 0 <= j < i ==> r[j] == MaxCells(a[j], b[j])
      invariant forall j :: i <= j < |a| ==> r[j] == a[j]
    {
      var merged := MaxCellList(r[i], b[i]);
      r := r[i := merged];
    }
  }

  lemma SelfMax(a: seq<seq<Cell>>, c: seq<Cell>)
    ensures MaxInputs(a, a) == a && MaxCells(c, c) == c
  {
    forall i | 0 <= i < |a| ensures MaxCells(a[i], a[i]) == a[i] {
    }
  }

  /** All ranks' measurements of one node, merged in rank order. */
  method UnifyNode(ns: seq<Node>, extend: bool) returns (r: Node)
    requires Aligned(ns, extend)
    ensures r == Unified(ns, extend, |ns|)
  {
    var inputs, outputs, weight := ns[0].inputs, ns[0].outputs, ns[0].weight;
    for idx := 0 to |ns|
      invariant Node(inputs, outputs, weight) == if idx == 0 then ns[0] else Unified(ns, extend, idx)
    {
      var acc := Node(inputs, outputs, weight);
      assert Fits(ns[0], ns[idx], extend);
      if idx == 0 {
        SelfMax(inputs, []);
        if outputs.Some? { SelfMax([], outputs.value); }
        if weight.Some? { SelfMax([], weight.value); }
      }
      inputs := MaxInputLists(inputs, ns[idx].inputs);
      if outputs.Some? {
        var cells, other := outputs.value, ns[idx].outputs.value;
        if extend && idx > 0 {
          cells := cells[0 := MaxCell(cells[0], other[0])];
          cells := cells + other[1..];
        } else {
          cells := MaxCellList(cells, other);
        }
        outputs := Some(cells);
      }
      if weight.Some? {
        var cells := MaxCellList(weight.value, ns[idx].weight.value);
        weight := Some(cells);
      }
    }
    r := Node(inputs, outputs, weight);
  }

  // -------------------------------------------------------------- What merging means

  lemma {:induction false} UnifiedShape(ns: seq<Node>, extend: bool, k: nat)
    requires Aligned(ns, extend) && 0 < k <= |ns|
    ensures |Unified(ns, extend, k).inputs| == |ns[0].inputs|
    ensures forall i :: 0 <= i < |ns[0].inputs| ==> |Unified(ns, extend, k).inputs[i]| == |ns[0].inputs[i]|
  {
    if k > 1 { UnifiedShape(ns, extend, k - 1); }
  }

  /** Every unified input channel is the maximum over the ranks. */
  lemma {:induction false} InputsAreMaxima(ns: seq<Node>, extend: bool, k: nat, i: nat, c: nat)
    requires Aligned(ns, extend) && 0 < k <= |ns| && i < |ns[0].inputs| && c < |ns[0].inputs[i]|
    requires forall j :: 0 <= j < |ns| ==> i < |ns[j].inputs| && c < |ns[j].inputs[i]|
    ensures var u := Unified(ns, extend, k);
            && i < |u.inputs| && c < |u.inputs[i]|
            && (forall j :: 0 <= j < k ==> ns[j].inputs[i][c].amax <= u.inputs[i][c].amax)
            && (exists j :: 0 <= j < k && ns[j].inputs[i][c].amax == u.inputs[i][c].amax)
            && u.inputs[i][c].rest == ns[0].inputs[i][c].rest
  {
    UnifiedShape(ns, extend, k);
    if k > 1 {
      InputsAreMaxima(ns, extend, k - 1, i, c);
      assert Fits(ns[0], ns[k - 1], extend);
    }
  }

  /** Cell m has the greatest head of all the cells, which is attained, and the rest of the
      first one. */
  predicate IsMax(cells: seq<Cell>, m: Cell) {
    && cells != [] && m.rest == cells[0].rest
    && (forall j :: 0 <= j < |cells| ==> cells[j].amax <= m.amax)
    && (exists j :: 0 <= j < |cells| && cells[j].amax == m.amax)
  }

  lemma OneIsMax(c: Cell)
    ensures IsMax([c], c)
  {
    assert [c][0] == c;
  }

  lemma MoreIsMax(cells: seq<Cell>, m: Cell, c: Cell)
    requires IsMax(cells, m)
    ensures IsMax(cells + [c], MaxCell(m, c))
  {
    var j :| 0 <= j < |cells| && cells[j].amax == m.amax;
    var more := cells + [c];
    assert more[j] == cells[j] && more[|cells|] == c;
  }

  /** One input, output or weight channel as measured by the first k ranks. */
  function InputCells(ns: seq<Node>, extend: bool, i: nat, c: nat, k: nat): (r: seq<Cell>)
    requires Aligned(ns, extend) && i < |ns[0].inputs| && c < |ns[0].inputs[i]| && k <= |ns|
    ensures |r| == k
  {
    if k == 0 then []
    else
      assert Fits(ns[0], ns[k - 1], extend);
      InputCells(ns, extend, i, c, k - 1) + [ns[k - 1].inputs[i][c]]
  }

  /** With the fused operation's outputs gathered, only the first one is merged. */
  predicate MergesOutput(ns: seq<Node>, extend: bool, c: nat)
    requires Aligned(ns, extend)
  {
    ns[0].outputs.Some? && c < |ns[0].outputs.value| && (extend ==> c == 0)
  }

  function OutputCells(ns: seq<Node>, extend: bool, c: nat, k: nat): (r: seq<Cell>)
    requires Aligned(ns, extend) && MergesOutput(ns, extend, c) && k <= |ns|
    ensures |r| == k
  {
    if k == 0 then []
    else
      assert Fits(ns[0], ns[k - 1], extend);
      OutputCells(ns, extend, c, k - 1) + [ns[k - 1].outputs.value[c]]
  }

  function WeightCells(ns: seq<Node>, extend: bool, c: nat, k: nat): (r: seq<Cell>)
    requires Aligned(ns, extend) && ns[0].weight.Some? && c < |ns[0].weight.value| && k <= |ns|
    ensures |r| == k
  {
    if k == 0 then []
    else
      assert Fits(ns[0], ns[k - 1], extend);
      WeightCells(ns, extend, c, k - 1) + [ns[k - 1].weight.value[c]]
  }

  lemma {:induction false} InputIsMax(ns: seq<Node>, extend: bool, i: nat, c: nat, k: nat)
    requires Aligned(ns, extend) && i < |ns[0].inputs| && c < |ns[0].inputs[i]| && 0 < k <= |ns|
    ensures var u := Unified(ns, extend, k);
            && |u.inputs| == |ns[0].inputs| && |u.inputs[i]| == |ns[0].inputs[i]|
            && IsMax(InputCells(ns, extend, i, c, k), u.inputs[i][c])
  {
    UnifiedShape(ns, extend, k);
    var cells := InputCells(ns, extend, i, c, k - 1);
    hide IsMax;
    if k == 1 {
      OneIsMax(ns[0].inputs[i][c]);
      assert cells + [ns[0].inputs[i][c]] == [ns[0].inputs[i][c]];
    } else {
      InputIsMax(ns, extend, i, c, k - 1);
      assert Fits(ns[0], ns[k - 1], extend);
      MoreIsMax(cells, Unified(ns, extend, k - 1).inputs[i][c], ns[k - 1].inputs[i][c]);
    }
  }

  lemma {:induction false} OutputIsMax(ns: seq<Node>, extend: bool, c: nat, k: nat)
    requires Aligned(ns, extend) && MergesOutput(ns, extend, c) && 0 < k <= |ns|
    ensures var u := Unified(ns, extend, k).outputs;
            && u.Some? && c < |u.value| && (!extend ==> |u.value| == |ns[0].outputs.value|)
            && IsMax(OutputCells(ns, extend, c, k), u.value[c])
  {
    var cells := OutputCells(ns, extend, c, k - 1);
    hide IsMax;
    if k == 1 {
      OneIsMax(ns[0].outputs.value[c]);
      assert cells + [ns[0].outputs.value[c]] == [ns[0].outputs.value[c]];
    } else {
      OutputIsMax(ns, extend, c, k - 1);
      assert Fits(ns[0], ns[k - 1], extend);
      MoreIsMax(cells, Unified(ns, extend, k - 1).outputs.value[c], ns[k - 1].outputs.value[c]);
    }
  }

  lemma {:induction false} WeightIsMax(ns: seq<Node>, extend: bool, c: nat, k: nat)
    requires Aligned(ns, extend) && ns[0].weight.Some? && c < |ns[0].weight.value| && 0 < k <= |ns|
    ensures var u := Unified(ns, extend, k).weight;
            && u.Some? && |u.value| == |ns[0].weight.value| && IsMax(WeightCells(ns, extend, c, k), u.value[c])
  {
    var cells := WeightCells(ns, extend, c, k - 1);
    hide IsMax;
    if k == 1 {
      OneIsMax(ns[0].weight.value[c]);
      assert cells + [ns[0].weight.value[c]] == [ns[0].weight.value[c]];
    } else {
      WeightIsMax(ns, extend, c, k - 1);
      assert Fits(ns[0], ns[k - 1], extend);
      MoreIsMax(cells, Unified(ns, extend, k - 1).weight.value[c], ns[k - 1].weight.value[c]);
    }
  }

  lemma {:induction false} OutputCellsAt(ns: seq<Node>, extend: bool, c: nat, k: nat, j: nat)
    requires Aligned(ns, extend) && MergesOutput(ns, extend, c) && j < k <= |ns|
    ensures ns[j].outputs.Some? && c < |ns[j].outputs.value|
    ensures OutputCells(ns, extend, c, k)[j] == ns[j].outputs.value[c]
  {
    assert Fits(ns[0], ns[j], extend);
    if j < k - 1 { OutputCellsAt(ns, extend, c, k - 1, j); }
  }

  lemma {:induction false} WeightCellsAt(ns: seq<Node>, extend: bool, c: nat, k: nat, j: nat)
    requires Aligned(ns, extend) && ns[0].weight.Some? && c < |ns[0].weight.value| && j < k <= |ns|
    ensures ns[j].weight.Some? && c < |ns[j].weight.value| && WeightCells(ns, extend, c, k)[j] == ns[j].weight.value[c]
  {
    assert Fits(ns[0], ns[j], extend);
    if j < k - 1 { WeightCellsAt(ns, extend, c, k - 1, j); }
  }

  /** Every merged output channel after the first k ranks is the attained maximum over
      them; without gathering these are all output channels. */
  lemma OutputsAreMaxima(ns: seq<Node>, extend: bool, k: nat, c: nat)
    requires Aligned(ns, extend) && MergesOutput(ns, extend, c) && 0 < k <= |ns|
    ensures forall j :: 0 <= j < k ==> ns[j].outputs.Some? && c < |ns[j].outputs.value|
    ensures var u := Unified(ns, extend, k).outputs;
            && u.Some? && c < |u.value| && (!extend ==> |u.value| == |ns[0].outputs.value|)
            && u.value[c].rest == ns[0].outputs.value[c].rest
            && (forall j :: 0 <= j < k ==> ns[j].outputs.value[c].amax <= u.value[c].amax)
            && (exists j :: 0 <= j < k && ns[j].outputs.value[c].amax == u.value[c].amax)
  {
    OutputIsMax(ns, extend, c, k);
    hide Unified, Fits, OutputCells;
    forall j | 0 <= j < k
      ensures ns[j].outputs.Some? && c < |ns[j].outputs.value|
      ensures OutputCells(ns, extend, c, k)[j] == ns[j].outputs.value[c]
    {
      OutputCellsAt(ns, extend, c, k, j);
    }
  }

  /** The same for the weight channels. */
  lemma WeightsAreMaxima(ns: seq<Node>, extend: bool, k: nat, c: nat)
    requires Aligned(ns, extend) && ns[0].weight.Some? && c < |ns[0].weight.value| && 0 < k <= |ns|
    ensures forall j :: 0 <= j < k ==> ns[j].weight.Some? && c < |ns[j].weight.value|
    ensures var u := Unified(ns, extend, k).weight;
            && u.Some? && |u.value| == |ns[0].weight.value| && u.value[c].rest == ns[0].weight.value[c].rest
            && (forall j :: 0 <= j < k ==> ns[j].weight.value[c].amax <= u.value[c].amax)
            && (exists j :: 0 <= j < k && ns[j].weight.value[c].amax == u.value[c].amax)
  {
    WeightIsMax(ns, extend, c, k);
    hide Unified, Fits, WeightCells;
    forall j | 0 <= j < k
      ensures ns[j].weight.Some? && c < |ns[j].weight.value|
      ensures WeightCells(ns, extend, c, k)[j] == ns[j].weight.value[c]
    {
      WeightCellsAt(ns, extend, c, k, j);
    }
  }

  /** Node u has the shape of the first rank's node and the maximum over all ranks in every
      channel that is merged. */
  ghost predicate Maximal(ns: seq<Node>, extend: bool, u: Node)
    requires Aligned(ns, extend)
  {
    && |u.inputs| == |ns[0].inputs| && (forall i :: 0 <= i < |u.inputs| ==> |u.inputs[i]| == |ns[0].inputs[i]|)
    && (forall i: nat, c: nat | i < |u.inputs| && c < |u.inputs[i]| ::
          IsMax(InputCells(ns, extend, i, c, |ns|), u.inputs[i][c]))
    && u.outputs.Some? == ns[0].outputs.Some?
    && (u.outputs.Some? && !extend ==> |u.outputs.value| == |ns[0].outputs.value|)
    && (forall c: nat | MergesOutput(ns, extend, c) ::
          c < |u.outputs.value| && IsMax(OutputCells(ns, extend, c, |ns|), u.outputs.value[c]))
    && u.weight.Some? == ns[0].weight.Some?
    && (u.weight.Some? ==> |u.weight.value| == |ns[0].weight.value|)
    && (u.weight.Some? ==> forall c: nat | c < |u.weight.value| ::
          IsMax(WeightCells(ns, extend, c, |ns|), u.weight.value[c]))
  }

  lemma {:induction false} UnifiedKinds(ns: seq<Node>, extend: bool, k: nat)
    requires Aligned(ns, extend) && 0 < k <= |ns|
    ensures var u := Unified(ns, extend, k);
            && u.outputs.Some? == ns[0].outputs.Some? && u.weight.Some? == ns[0].weight.Some?
            && (u.outputs.Some? && !extend ==> |u.outputs.value| == |ns[0].outputs.value|)
            && (u.weight.Some? ==> |u.weight.value| == |ns[0].weight.value|)
  {
    if k > 1 {
      UnifiedKinds(ns, extend, k - 1);
      assert Fits(ns[0], ns[k - 1], extend);
    }
  }

  /** Every merged input, output and weight channel is the attained maximum over the ranks. */
  lemma UnifiedIsMaximal(ns: seq<Node>, extend: bool)
    requires Aligned(ns, extend)
    ensures Maximal(ns, extend, Unified(ns, extend, |ns|))
  {
    var u := Unified(ns, extend, |ns|);
    UnifiedShape(ns, extend, |ns|);
    UnifiedKinds(ns, extend, |ns|);
    hide Unified, IsMax;
    forall i: nat, c: nat | i < |u.inputs| && c < |u.inputs[i]|
      ensures IsMax(InputCells(ns, extend, i, c, |ns|), u.inputs[i][c])
    {
      InputIsMax(ns, extend, i, c, |ns|);
    }
    forall c: nat | MergesOutput(ns, extend, c)
      ensures c < |u.outputs.value| && IsMax(OutputCells(ns, extend, c, |ns|), u.outputs.value[c])
    {
      OutputIsMax(ns, extend, c, |ns|);
    }
    if u.weight.Some? {
      forall c: nat | c < |u.weight.value| ensures IsMax(WeightCells(ns, extend, c, |ns|), u.weight.value[c]) {
        WeightIsMax(ns, extend, c, |ns|);
      }
    }
  }

  predicate FusedWith(ns: seq<Node>, experts: nat) {
    forall k :: 0 <= k < |ns| ==> ns[k].outputs.Some? && |ns[k].outputs.value| == 1 + experts
  }

  /** The per-expert outputs of the first k ranks, in rank order. */
  function Gathered(ns: seq<Node>, experts: nat, k: nat): seq<Cell>
    requires FusedWith(ns, experts) && k <= |ns|
  {
    if k == 0 then [] else Gathered(ns, experts, k - 1) + ns[k - 1].outputs.value[1..]
  }

  /** The fused operation's first output is the maximum over the ranks and the others
      are all ranks' expert outputs. */
  lemma {:induction false} FusedOutputs(ns: seq<Node>, experts: nat, k: nat)
    requires Aligned(ns, true) && FusedWith(ns, experts) && 0 < k <= |ns|
    ensures var u := Unified(ns, true, k);
            && u.outputs.Some? && |u.outputs.value| > 0
            && u.outputs.value[1..] == Gathered(ns, experts, k)
            && (forall j :: 0 <= j < k ==> ns[j].outputs.value[0].amax <= u.outputs.value[0].amax)
            && (exists j :: 0 <= j < k && ns[j].outputs.value[0].amax == u.outputs.value[0].amax)
  {
    if k == 1 {
      assert Gathered(ns, experts, 1) == [] + ns[0].outputs.value[1..];
    } else {
      FusedOutputs(ns, experts, k - 1);
      var before := Unified(ns, true, k - 1).outputs.value;
      var next := ns[k - 1].outputs.value;
      assert Fits(ns[0], ns[k - 1], true);
      assert (before[0 := MaxCell(before[0], next[0])] + next[1..])[1..] == before[1..] + next[1..];
    }
  }

  lemma {:induction false} GatheredSlices(ns: seq<Node>, experts: nat, k: nat, r: nat)
    requires FusedWith(ns, experts) && r < k <= |ns|
    ensures |Gathered(ns, experts, k)| == k * experts && (r + 1) * experts <= k * experts
    ensures Gathered(ns, experts, k)[r * experts..(r + 1) * experts] == ns[r].outputs.value[1..]
  {
    GatheredLength(ns, experts, k - 1);
    var before, last := Gathered(ns, experts, k - 1), ns[k - 1].outputs.value[1..];
    Product(k, experts);
    Product(r + 1, experts);
    if r < k - 1 {
      GatheredSlices(ns, experts, k - 1, r);
      assert (before + last)[r * experts..(r + 1) * experts] == before[r * experts..(r + 1) * experts];
    } else {
      assert (before + last)[|before|..] == last;
    }
  }

  /** Each expert's entry sits one after its new number, behind the first output. */
  lemma ExpertSlot(ns: seq<Node>, experts: nat, r: nat, l: nat)
    requires Aligned(ns, true) && FusedWith(ns, experts) && r < |ns| && l < experts
    ensures var u := Unified(ns, true, |ns|);
            && u.outputs.Some? && 1 + Numbered(experts, r, l) < |u.outputs.value|
            && u.outputs.value[1 + Numbered(experts, r, l)] == ns[r].outputs.value[1 + l]
  {
    FusedOutputs(ns, experts, |ns|);
    hide Unified, Gathered, Aligned;
    GatheredSlices(ns, experts, |ns|, r);
    NumberedBounds(experts, |ns|, r, l);
    var all := Gathered(ns, experts, |ns|);
    SlotInBlock(all, ns[r].outputs.value[1..], r, experts, l);
  }

  lemma SlotInBlock(all: seq<Cell>, block: seq<Cell>, r: nat, experts: nat, l: nat)
    requires l < experts == |block| && r * experts + l < |all| && (r + 1) * experts <= |all|
    requires 0 <= r * experts && all[r * experts..(r + 1) * experts] == block
    ensures all[Numbered(experts, r, l)] == block[l]
  {
    Product(r + 1, experts);
  }

  lemma {:induction false} GatheredLength(ns: seq<Node>, experts: nat, k: nat)
    requires FusedWith(ns, experts) && k <= |ns|
    ensures |Gathered(ns, experts, k)| == k * experts
  {
    if k > 0 {
      GatheredLength(ns, experts, k - 1);
      Product(k, experts);
    }
  }

  // ---------------------------------------------------------------------- Expansion

  /** How many experts each rank gets. */
  function PerRank(total: nat, worldSize: nat): nat
    requires worldSize > 0
  {
    total / worldSize
  }

  /** A rank's share of the fused outputs; None stands for a failed assertion. */
  function Expanded(outputs: seq<Cell>, totalExperts: nat, rank: nat, worldSize: nat): Option<seq<Cell>>
    requires rank < worldSize && |outputs| > 0
  {
    var perExpert := outputs[1..];
    if |perExpert| != totalExperts then None
    else
      var local := PerRank(totalExperts, worldSize);
      SliceFits(totalExperts, rank, worldSize);
      Some([outputs[0]] + perExpert[rank * local..rank * local + local])
  }

  lemma SliceFits(total: nat, rank: nat, worldSize: nat)
    requires rank < worldSize
    ensures var local := PerRank(total, worldSize);
            0 <= rank * local <= rank * local + local <= worldSize * local <= total
  {
    var local := PerRank(total, worldSize);
    Product(rank + 1, local);
    ProductGrows(rank + 1, worldSize, local);
  }

  /** Unifying W ranks and expanding to W ranks gives each rank its own expert outputs
      back, behind the maximum of the first outputs. */
  lemma UnifyThenExpand(ns: seq<Node>, experts: nat, r: nat)
    requires Aligned(ns, true) && FusedWith(ns, experts) && r < |ns|
    ensures var u := Unified(ns, true, |ns|);
            && u.outputs.Some? && |u.outputs.value| > 0
            && Expanded(u.outputs.value, |ns| * experts, r, |ns|)
               == Some([u.outputs.value[0]] + ns[r].outputs.value[1..])
            && (forall j :: 0 <= j < |ns| ==> ns[j].outputs.value[0].amax <= u.outputs.value[0].amax)
            && (exists j :: 0 <= j < |ns| && ns[j].outputs.value[0].amax == u.outputs.value[0].amax)
  {
    FusedOutputs(ns, experts, |ns|);
    hide Unified, Gathered, Aligned;
    GatheredSlices(ns, experts, |ns|, r);
    Quotient(|ns|, experts);
    Product(r + 1, experts);
  }

  lemma Quotient(k: nat, n: nat)
    requires k > 0
    ensures PerRank(k * n, k) == n
  {
    DivModIs(k * n, k, n, 0);
  }

  /** The experts of the first v ranks of an expansion, one after the other. */
  function Shares(outputs: seq<Cell>, worldSize: nat, v: nat): seq<Cell>
    requires 0 < |outputs| && v <= worldSize
  {
    if v == 0 then []
    else Shares(outputs, worldSize, v - 1) + Expanded(outputs, |outputs| - 1, v - 1, worldSize).value[1..]
  }

  lemma {:induction false} SharesArePrefix(outputs: seq<Cell>, worldSize: nat, v: nat)
    requires 0 < |outputs| && 0 < worldSize && v <= worldSize
    ensures v * PerRank(|outputs| - 1, worldSize) <= |outputs| - 1
    ensures Shares(outputs, worldSize, v) == outputs[1..][..v * PerRank(|outputs| - 1, worldSize)]
  {
    if v > 0 {
      var perExpert, local := outputs[1..], PerRank(|outputs| - 1, worldSize);
      SliceFits(|perExpert|, v - 1, worldSize);
      SharesArePrefix(outputs, worldSize, v - 1);
      Product(v, local);
      hide PerRank;
      var own := perExpert[(v - 1) * local..(v - 1) * local + local];
      assert ([outputs[0]] + own)[1..] == own;
    }
  }

  /** Each rank's share is the first output followed by as many experts as each rank gets. */
  lemma ExpandedShape(outputs: seq<Cell>, worldSize: nat, v: nat)
    requires 0 < |outputs| && v < worldSize
    ensures var share := Expanded(outputs, |outputs| - 1, v, worldSize);
            share.Some? && |share.value| == 1 + PerRank(|outputs| - 1, worldSize) && share.value[0] == outputs[0]
  {
    SliceFits(|outputs| - 1, v, worldSize);
  }

  /** Expansion to any number of ranks keeps every expert exactly when that number divides
      the experts; otherwise the last few are dropped. */
  lemma ExpansionCompleteIff(outputs: seq<Cell>, worldSize: nat)
    requires 0 < |outputs| && worldSize > 0
    ensures Shares(outputs, worldSize, worldSize) == outputs[1..] <==> (|outputs| - 1) % worldSize == 0
  {
    hide Shares, PerRank;
    SharesArePrefix(outputs, worldSize, worldSize);
    DivMod(|outputs| - 1, worldSize);
  }

  lemma DivMod(n: nat, d: nat)
    requires d > 0
    ensures d * PerRank(n, d) + n % d == n
  {
  }

  // ------------------------------------------------------- Renumbering and grouping

  /** Member local of block idx, with blocks of the given size: new expert numbers, and
      cards of a group. */
  function Numbered(size: nat, idx: nat, local: nat): nat {
    size * idx + local
  }

  lemma Locate(n: nat, size: nat, blocks: nat) returns (i: nat, j: nat)
    requires n < blocks * size
    ensures i < blocks && j < size && Numbered(size, i, j) == n
  {
    i, j := 0, n;
    while j >= size
      invariant n == i * size + j
      decreases j
    {
      Product(i + 1, size);
      i, j := i + 1, j - size;
    }
    if blocks <= i { ProductGrows(blocks, i, size); }
  }

  /** Renumbering is a bijection from (rank, local number) to 0 .. ranks * experts. */
  lemma RenumberingIsBijective(experts: nat, ranks: nat, n: nat) returns (idx: nat, local: nat)
    requires n < ranks * experts
    ensures idx < ranks && local < experts && Numbered(experts, idx, local) == n
    ensures forall i: nat, l: nat :: l < experts && Numbered(experts, i, l) == n ==> i == idx && l == local
  {
    idx, local := Locate(n, experts, ranks);
    forall i: nat, l: nat | l < experts && Numbered(experts, i, l) == n ensures i == idx && l == local {
      DivModIs(n, experts, i, l);
      DivModIs(n, experts, idx, local);
    }
  }

  lemma NumberedBounds(experts: nat, ranks: nat, idx: nat, local: nat)
    requires idx < ranks && local < experts
    ensures Numbered(experts, idx, local) < ranks * experts
    ensures idx > 0 ==> Numbered(experts, idx, local) >= experts
  {
    Product(idx + 1, experts);
    ProductGrows(idx + 1, ranks, experts);
    if idx > 0 { ProductGrows(1, idx, experts); }
  }

  /** The cards of each group; None stands for the failed assertion on the ranks. */
  function GroupList(totalRank: nat, rank: nat): Option<seq<seq<nat>>>
    requires rank > 0
  {
    if rank < totalRank && totalRank % rank == 0 then
      var size := PerRank(totalRank, rank);
      Some(seq(rank, i requires 0 <= i < rank => seq(size, j requires 0 <= j < size => Numbered(size, i, j))))
    else None
  }

  ghost predicate At(groups: seq<seq<nat>>, i: nat, j: nat, card: nat) {
    i < |groups| && j < |groups[i]| && groups[i][j] == card
  }

  /** The groups partition the cards: each card is in exactly one place. */
  lemma GroupsPartitionCards(totalRank: nat, rank: nat, card: nat) returns (i: nat, j: nat)
    requires rank > 0 && GroupList(totalRank, rank).Some? && card < totalRank
    ensures var groups := GroupList(totalRank, rank).value;
            && |groups| == rank && At(groups, i, j, card)
            && i == card / (totalRank / rank) && j == card % (totalRank / rank)
            && (forall p :: 0 <= p < rank ==> |groups[p]| == totalRank / rank)
            && forall p, q :: At(groups, p, q, card) ==> p == i && q == j
  {
    DivMod(totalRank, rank);
    var size := PerRank(totalRank, rank);
    i, j := RenumberingIsBijective(size, rank, card);
    DivModIs(card, size, i, j);
    hide PerRank, Numbered;
  }
}
