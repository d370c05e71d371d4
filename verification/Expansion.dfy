/** Expanding a unified file to the ranks of a larger world, and what becomes of a
    measurement that is first unified and then expanded. */
module Expansion {
  import opened Common
  import opened NodeNames
  import opened Calibration
  import opened Measurements

  /** A fused operation as one rank of the new world sees it; None stands for missing
      outputs or for the failed assertion on their number. */
  function ExpandedNode(node: Node, totalExperts: nat, rank: nat, worldSize: nat): Option<Node>
    requires rank < worldSize
  {
    if node.outputs.None? || |node.outputs.value| == 0 then None
    else
      match Expanded(node.outputs.value, totalExperts, rank, worldSize)
      case None => None
      case Some(outputs) => Some(node.(outputs := Some(outputs)))
  }

  predicate HasExperts(node: Node, totalExperts: nat) {
    node.outputs.Some? && |node.outputs.value| == 1 + totalExperts
  }

  /** Every expert is numbered and every fused operation has one output for each. */
  ghost predicate Expandable(names: seq<string>, unified: Nodes)
    requires Lists(names, unified)
  {
    Parsed(names) && forall name | name in unified && IsFusedMoeOp(name) :: HasExperts(unified[name], ExpertNum(names))
  }

  /** The node of a given name after the first m names were processed. */
  predicate ExpandedAs(unified: Nodes, total: nat, rank: nat, worldSize: nat, name: string, done: bool, node: Node)
    requires rank < worldSize && name in unified
  {
    if done && IsFusedMoeOp(name) then ExpandedNode(unified[name], total, rank, worldSize) == Some(node)
    else node == unified[name]
  }

  /** Fused operations keep the rank's share, every other node is unchanged. */
  ghost predicate IsExpanded(names: seq<string>, unified: Nodes, rank: nat, worldSize: nat, r: Nodes)
    requires rank < worldSize
  {
    r.Keys == unified.Keys && forall name | name in unified ::
      ExpandedAs(unified, ExpertNum(names), rank, worldSize, name, true, r[name])
  }

  method ExpandMeasurements(names: seq<string>, unified: Nodes, rank: nat, worldSize: nat) returns (r: Option<Nodes>)
    requires rank < worldSize && Lists(names, unified)
    ensures r.Some? <==> Expandable(names, unified)
    ensures r.Some? ==> IsExpanded(names, unified, rank, worldSize, r.value)
  {
    hide IsFusedMoeOp, IsMoeExperts, GetExpertId, ExpertNum, IsLocalExpertNum, Expanded;
    var num := GetLocalExpertNum(names);
    if num.None? {
      return None;
    }
    var total := num.value;
    ExpertNumUnique(names, total);
    hide Parsed;
    var nodes := unified;
    for m := 0 to |names|
      invariant nodes.Keys == unified.Keys
      invariant forall k :: 0 <= k < |names| ==>
        ExpandedAs(unified, total, rank, worldSize, names[k], k < m, nodes[names[k]])
      invariant forall k :: 0 <= k < m && IsFusedMoeOp(names[k]) ==> HasExperts(unified[names[k]], total)
    {
      var name := names[m];
      if IsFusedMoeOp(name) {
        ExpandsIff(unified[name], total, rank, worldSize);
        var node := ExpandedNode(unified[name], total, rank, worldSize);
        if node.None? {
          return None;
        }
        nodes := nodes[name := node.value];
      }
    }
    r := Some(nodes);
  }

  lemma ExpandsIff(node: Node, total: nat, rank: nat, worldSize: nat)
    requires rank < worldSize
    ensures ExpandedNode(node, total, rank, worldSize).Some? <==> HasExperts(node, total)
  {
  }

  // --------------------------------------------------------------- The whole way round

  /** Files of the ranks of one group that can be unified with expert parallelism, each
      fused operation having one output per local expert. */
  ghost predicate Group(names: seq<string>, ranks: seq<Nodes>) {
    && ranks != [] && Lists(names, ranks[0]) && Complete(names, ranks) && Alignable(names, ranks, true)
    && NamesPass(names, |ranks|)
    && forall k :: 0 <= k < |names| && IsFusedMoeOp(names[k]) ==> FusedWith(Column(ranks, names[k]), ExpertNum(names))
  }

  /** The number in a new name is within the unified experts. */
  lemma NewNumber(name: string, idx: nat, experts: nat, ranks: nat)
    requires GetExpertId(name).Some? && IdOf(name) < experts && idx < ranks
    ensures GetExpertId(NewName(name, idx, experts)) == Some(Numbered(experts, idx, IdOf(name)))
    ensures IdOf(NewName(name, idx, experts)) < ranks * experts
  {
    hide GetExpertId, GetExpertPrefix;
    NumberedBounds(experts, ranks, idx, IdOf(name));
    if idx == 0 {
      FirstKeepsName(name, experts);
    } else {
      NewNameParts(name, idx, experts);
    }
  }

  lemma ContributedNumber(names: seq<string>, i: int, e: string, experts: nat, ranks: nat)
    requires Parsed(names) && IsLocalExpertNum(names, experts) && Contributes(names, i, e, experts, ranks)
    ensures GetExpertId(e).Some? && IdOf(e) < ranks * experts
  {
    hide IsMoeExperts, GetExpertId, NewName, IdOf;
    assert names[i] in names;
    var idx :| 0 <= idx < ranks && e == NewName(names[i], idx, experts);
    NewNumber(names[i], idx, experts, ranks);
  }

  lemma KindsExclude(name: string)
    ensures !(IsFusedMoeOp(name) && IsMoeExperts(name))
  {
  }

  /** The last expert of the last rank gets the greatest number. */
  lemma LastNumber(name: string, experts: nat, ranks: nat)
    requires GetExpertId(name).Some? && IdOf(name) == experts - 1 && ranks > 0
    ensures IdOf(NewName(name, ranks - 1, experts)) == ranks * experts - 1
  {
    hide GetExpertId, GetExpertPrefix;
    NewNumber(name, ranks - 1, experts, ranks);
    Product(ranks, experts);
  }

  lemma UnifiedNumbersBounded(names: seq<string>, ranks: seq<Nodes>, u: Nodes, uNames: seq<string>)
    requires Group(names, ranks) && IsUnified(names, ranks, true, ExpertNum(names), u) && Lists(uNames, u)
    ensures Parsed(uNames)
    ensures forall e | e in uNames && IsMoeExperts(e) :: IdOf(e) < |ranks| * ExpertNum(names)
  {
    var experts := ExpertNum(names);
    hide IsMoeExperts, GetExpertId, NewName, IdOf, Contributes, HoldsExperts, MergedNode, ExpertNum, Alignable;
    ExpertNumIs(names);
    hide IsLocalExpertNum;
    forall e | e in uNames && IsMoeExperts(e)
      ensures GetExpertId(e).Some? && IdOf(e) < |ranks| * experts
    {
      var i :| Contributes(names, i, e, experts, |ranks|);
      hide Parsed;
      ContributedNumber(names, i, e, experts, |ranks|);
    }
  }

  /** The unified file numbers its experts 0 .. ranks * local experts, without the
      greatest number missing. */
  lemma UnifiedExpertNum(names: seq<string>, ranks: seq<Nodes>, u: Nodes, uNames: seq<string>)
    requires Group(names, ranks) && IsUnified(names, ranks, true, ExpertNum(names), u) && Lists(uNames, u)
    ensures Parsed(uNames) && ExpertNum(uNames) == |ranks| * ExpertNum(names)
  {
    UnifiedNumbersBounded(names, ranks, u, uNames);
    hide IsMoeExperts, GetExpertId, NewName, IdOf, Contributes, MergedNode, ExpertNum, Alignable;
    ExpertNumIs(names);
    var experts := ExpertNum(names);
    if experts > 0 {
      LastExpertHeld(names, ranks, experts, u);
    }
    hide Group, IsUnified, HoldsExperts, Parsed, IsLocalExpertNum;
    GreatestNumber(uNames, experts, |ranks|, |ranks| * experts);
  }

  lemma GreatestNumber(names: seq<string>, experts: nat, ranks: nat, total: nat)
    requires total == ranks * experts && ranks > 0
    requires forall e | e in names && IsMoeExperts(e) :: IdOf(e) < total
    requires experts > 0 ==> exists e | e in names :: IsMoeExperts(e) && IdOf(e) == total - 1
    ensures ExpertNum(names) == total
  {
    hide IsMoeExperts, IdOf, ExpertNum;
    assert experts == 0 ==> total == 0;
    ExpertNumUnique(names, total);
  }

  lemma LastExpertHeld(names: seq<string>, ranks: seq<Nodes>, experts: nat, u: Nodes)
    requires Complete(names, ranks) && Parsed(names) && IsLocalExpertNum(names, experts)
    requires HoldsExperts(names, ranks, experts, u)
    requires ranks != [] && experts > 0
    ensures exists e | e in u :: IsMoeExperts(e) && IdOf(e) == |ranks| * experts - 1
  {
    hide IsMoeExperts, GetExpertId, NewName, IdOf;
    var name :| name in names && IsMoeExperts(name) && IdOf(name) == experts - 1;
    var i :| 0 <= i < |names| && names[i] == name;
    var e := NewName(name, |ranks| - 1, experts);
    assert HeldAs(u, e, ranks[|ranks| - 1][names[i]]);
    LastNumber(name, experts, |ranks|);
    RenamedIsExpert(name, |ranks| - 1, experts);
  }

  /** What rank r finds for the fused operation named: its own expert outputs behind the
      maximum of all ranks' first outputs. */
  ghost predicate OwnShare(ranks: seq<Nodes>, r: nat, name: string, node: Node)
    requires r < |ranks| && forall k :: 0 <= k < |ranks| ==> name in ranks[k]
  {
    var ns := Column(ranks, name);
    && (forall k :: 0 <= k < |ns| ==> ns[k].outputs.Some? && |ns[k].outputs.value| > 0)
    && node.outputs.Some? && |node.outputs.value| > 0
    && node.outputs.value[1..] == ns[r].outputs.value[1..]
    && (forall k :: 0 <= k < |ns| ==> ns[k].outputs.value[0].amax <= node.outputs.value[0].amax)
    && (exists k :: 0 <= k < |ns| && ns[k].outputs.value[0].amax == node.outputs.value[0].amax)
  }

  lemma ColumnRoundTrip(ns: seq<Node>, experts: nat, r: nat)
    requires Aligned(ns, true) && FusedWith(ns, experts) && r < |ns|
    ensures var u := Unified(ns, true, |ns|);
            var e := ExpandedNode(u, |ns| * experts, r, |ns|);
            && HasExperts(u, |ns| * experts) && e.Some?
            && e.value.outputs.Some? && |e.value.outputs.value| > 0
            && e.value.outputs.value[1..] == ns[r].outputs.value[1..]
            && (forall k :: 0 <= k < |ns| ==> ns[k].outputs.value[0].amax <= e.value.outputs.value[0].amax)
            && (exists k :: 0 <= k < |ns| && ns[k].outputs.value[0].amax == e.value.outputs.value[0].amax)
  {
    UnifyThenExpand(ns, experts, r);
    hide Unified, Aligned, Expanded;
    var u := Unified(ns, true, |ns|);
    ExpandsIff(u, |ns| * experts, r, |ns|);
    var head, tail := [u.outputs.value[0]], ns[r].outputs.value[1..];
    assert (head + tail)[1..] == tail && (head + tail)[0] == u.outputs.value[0];
  }

  /** The unified file can be expanded to as many ranks as went into it. */
  lemma UnifiedIsExpandable(names: seq<string>, ranks: seq<Nodes>, u: Nodes, uNames: seq<string>)
    requires Group(names, ranks) && IsUnified(names, ranks, true, ExpertNum(names), u) && Lists(uNames, u)
    ensures Expandable(uNames, u)
  {
    UnifiedExpertNum(names, ranks, u, uNames);
    hide IsMoeExperts, IsFusedMoeOp, ExpertNum, Parsed, Lists;
    forall name | name in u && IsFusedMoeOp(name) ensures HasExperts(u[name], |ranks| * ExpertNum(names)) {
      FusedIsMerged(names, ranks, u, name);
      hide Group, IsUnified;
      ColumnRoundTrip(Column(ranks, name), ExpertNum(names), 0);
    }
  }

  lemma FusedIsMerged(names: seq<string>, ranks: seq<Nodes>, u: Nodes, name: string)
    requires Group(names, ranks) && IsUnified(names, ranks, true, ExpertNum(names), u) && name in u
    requires IsFusedMoeOp(name)
    ensures name in names && ranks != [] && forall k :: 0 <= k < |ranks| ==> name in ranks[k]
    ensures var ns := Column(ranks, name);
            Aligned(ns, true) && FusedWith(ns, ExpertNum(names)) && u[name] == Unified(ns, true, |ns|)
  {
    hide IsMoeExperts, IsFusedMoeOp, ExpertNum, Aligned, FusedWith, Unified;
    hide HoldsExperts, IsLocalExpertNum, NewName, Contributes;
    KindsExclude(name);
    if name !in names {
      var i :| Contributes(names, i, name, ExpertNum(names), |ranks|);
      ContributedIsExpert(names, i, name, ExpertNum(names), |ranks|);
    }
    var k :| 0 <= k < |names| && names[k] == name;
    assert u[names[k]] == MergedNode(names, ranks, true, k);
  }

  /** Unifying a group with expert parallelism and expanding the result to as many ranks
      gives every rank back its own expert outputs of every fused operation, behind the
      maximum of the first outputs over the group, and all experts of the group. */
  lemma UnifyThenExpandFiles(names: seq<string>, ranks: seq<Nodes>, u: Nodes, uNames: seq<string>, r: nat, file: Nodes)
    requires Group(names, ranks) && IsUnified(names, ranks, true, ExpertNum(names), u) && Lists(uNames, u)
    requires r < |ranks| && IsExpanded(uNames, u, r, |ranks|, file)
    ensures forall k :: 0 <= k < |names| && IsFusedMoeOp(names[k]) ==>
              names[k] in file && OwnShare(ranks, r, names[k], file[names[k]])
    ensures HoldsExperts(names, ranks, ExpertNum(names), file)
  {
    UnifiedExpertNum(names, ranks, u, uNames);
    hide IsMoeExperts, IsFusedMoeOp, ExpertNum, Parsed, Lists, NewName, MergedNode;
    forall k | 0 <= k < |names| && IsFusedMoeOp(names[k])
      ensures names[k] in file && OwnShare(ranks, r, names[k], file[names[k]])
    {
      FusedRoundTrip(names, ranks, u, uNames, r, file, names[k]);
    }
    ExpertsCarried(names, ranks, u, uNames, r, file);
  }

  lemma FusedRoundTrip(
      names: seq<string>, ranks: seq<Nodes>, u: Nodes, uNames: seq<string>, r: nat, file: Nodes, name: string)
    requires Group(names, ranks) && IsUnified(names, ranks, true, ExpertNum(names), u)
    requires ExpertNum(uNames) == |ranks| * ExpertNum(names)
    requires r < |ranks| && IsExpanded(uNames, u, r, |ranks|, file) && name in names && IsFusedMoeOp(name)
    ensures name in file && (forall k :: 0 <= k < |ranks| ==> name in ranks[k]) && OwnShare(ranks, r, name, file[name])
  {
    hide IsMoeExperts, IsFusedMoeOp, ExpertNum, Parsed, Lists, NewName, MergedNode, HoldsExperts, OwnShare;
    KindsExclude(name);
    var k :| 0 <= k < |names| && names[k] == name;
    assert name in u;
    FusedIsMerged(names, ranks, u, name);
    hide Group, IsUnified;
    ColumnRoundTrip(Column(ranks, name), ExpertNum(names), r);
    assert ExpandedAs(u, ExpertNum(uNames), r, |ranks|, name, true, file[name]);
    hide Aligned, Unified, ExpandedNode, IsExpanded;
    ShareIs(ranks, r, name, file[name], ExpertNum(names));
  }

  lemma ShareIs(ranks: seq<Nodes>, r: nat, name: string, node: Node, experts: nat)
    requires r < |ranks| && forall k :: 0 <= k < |ranks| ==> name in ranks[k]
    requires FusedWith(Column(ranks, name), experts)
    requires node.outputs.Some? && |node.outputs.value| > 0
    requires node.outputs.value[1..] == Column(ranks, name)[r].outputs.value[1..]
    requires forall k :: 0 <= k < |ranks| ==> Column(ranks, name)[k].outputs.value[0].amax <= node.outputs.value[0].amax
    requires exists k :: 0 <= k < |ranks| && Column(ranks, name)[k].outputs.value[0].amax == node.outputs.value[0].amax
    ensures OwnShare(ranks, r, name, node)
  {
  }

  lemma ExpertsCarried(names: seq<string>, ranks: seq<Nodes>, u: Nodes, uNames: seq<string>, r: nat, file: Nodes)
    requires Complete(names, ranks) && Parsed(names) && HoldsExperts(names, ranks, ExpertNum(names), u)
    requires r < |ranks| && IsExpanded(uNames, u, r, |ranks|, file)
    ensures HoldsExperts(names, ranks, ExpertNum(names), file)
  {
    var experts := ExpertNum(names);
    hide IsMoeExperts, IsFusedMoeOp, ExpertNum, NewName, GetExpertId, ExpandedNode;
    forall i, idx | 0 <= i < |names| && IsMoeExperts(names[i]) && 0 <= idx < |ranks|
      ensures HeldAs(file, NewName(names[i], idx, experts), ranks[idx][names[i]])
    {
      var e := NewName(names[i], idx, experts);
      assert HeldAs(u, e, ranks[idx][names[i]]);
      assert names[i] in names;
      RenamedIsExpert(names[i], idx, experts);
      KindsExclude(e);
      assert ExpandedAs(u, ExpertNum(uNames), r, |ranks|, e, true, file[e]);
    }
  }
}
