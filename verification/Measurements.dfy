/** Whole measurement files: maps from node names to nodes, one per rank. */
module Measurements {
  import opened Common
  import opened NodeNames
  import opened Calibration

  function IdOf(name: string): nat {
    var id := GetExpertId(name);
    if id.Some? then id.value else 0
  }

  /** Every expert name ends in a number. */
  predicate Parsed(names: seq<string>) {
    forall name | name in names && IsMoeExperts(name) :: GetExpertId(name).Some?
  }

  /** One more than the greatest expert number, or zero without experts. */
  predicate IsLocalExpertNum(names: seq<string>, n: nat) {
    && (forall name | name in names && IsMoeExperts(name) :: IdOf(name) < n)
    && (n > 0 ==> exists name | name in names :: IsMoeExperts(name) && IdOf(name) == n - 1)
  }

  function ExpertNum(names: seq<string>): nat {
    if names == [] then 0
    else
      var before, last := ExpertNum(names[..|names| - 1]), names[|names| - 1];
      if IsMoeExperts(last) && IdOf(last) >= before then IdOf(last) + 1 else before
  }

  lemma {:induction false} ExpertNumIs(names: seq<string>)
    ensures IsLocalExpertNum(names, ExpertNum(names))
  {
    hide IsMoeExperts, IdOf;
    if names != [] {
      var init, last := names[..|names| - 1], names[|names| - 1];
      ExpertNumIs(init);
      assert names == init + [last];
    }
  }

  lemma ExpertNumUnique(names: seq<string>, n: nat)
    requires IsLocalExpertNum(names, n)
    ensures n == ExpertNum(names)
  {
    ExpertNumIs(names);
    hide IsMoeExperts, IdOf, ExpertNum;
  }

  /** None stands for the failed assertion on a name without a number. */
  method GetLocalExpertNum(names: seq<string>) returns (r: Option<nat>)
    ensures r.Some? <==> Parsed(names)
    ensures r.Some? ==> IsLocalExpertNum(names, r.value)
  {
    hide IsMoeExperts, GetExpertId;
    var expertId: int := -1;
    for k := 0 to |names|
      invariant -1 <= expertId
      invariant Parsed(names[..k]) && IsLocalExpertNum(names[..k], expertId + 1)
    {
      var name := names[k];
      assert names[..k + 1] == names[..k] + [name];
      if IsMoeExperts(name) {
        var idx := GetExpertId(name);
        if idx.None? {
          assert name in names;
          return None;
        }
        if idx.value > expertId {
          expertId := idx.value;
        }
      }
    }
    assert names[..|names|] == names;
    r := Some(expertId + 1);
  }

  // ----------------------------------------------------------------- Experts of a group

  /** The name of an expert after unification: rank 0 keeps its names. */
  function NewName(name: string, idx: nat, experts: nat): string {
    if idx == 0 then name else ExpertName(GetExpertPrefix(name), Numbered(experts, idx, IdOf(name)))
  }

  /** No two expert nodes share both prefix and number. */
  predicate ExpertsDistinct(names: seq<string>) {
    forall i, j :: 0 <= i < j < |names| && IsMoeExperts(names[i]) && IsMoeExperts(names[j]) ==>
      GetExpertPrefix(names[i]) != GetExpertPrefix(names[j]) || IdOf(names[i]) != IdOf(names[j])
  }

  lemma NewNameParts(name: string, idx: nat, experts: nat)
    requires idx > 0
    ensures GetExpertId(NewName(name, idx, experts)) == Some(Numbered(experts, idx, IdOf(name)))
    ensures GetExpertPrefix(NewName(name, idx, experts)) == GetExpertPrefix(name)
  {
    ExpertNameParts(GetExpertPrefix(name), Numbered(experts, idx, IdOf(name)));
  }

  lemma NumberedUnique(experts: nat, i: nat, l: nat, j: nat, m: nat)
    requires l < experts && m < experts && Numbered(experts, i, l) == Numbered(experts, j, m)
    ensures i == j && l == m
  {
    var n := Numbered(experts, i, l);
    NumberedBounds(experts, i + 1, i, l);
    var idx, local := RenumberingIsBijective(experts, i + 1, n);
  }

  /** Two new names coincide only for the same rank and experts that share prefix and
      number; a renumbered name never coincides with an original one. */
  lemma NewNamesCollide(a: string, i: nat, b: string, j: nat, experts: nat)
    requires IdOf(a) < experts && IdOf(b) < experts && (i == 0 ==> GetExpertId(a).Some?)
    requires NewName(a, i, experts) == NewName(b, j, experts) && j > 0
    ensures i == j && GetExpertPrefix(a) == GetExpertPrefix(b) && IdOf(a) == IdOf(b)
  {
    hide GetExpertId, GetExpertPrefix;
    NewNameParts(b, j, experts);
    NumberedBounds(experts, j + 1, j, IdOf(b));
    if i > 0 {
      NewNameParts(a, i, experts);
      hide NewName, Numbered;
      NumberedUnique(experts, i, IdOf(a), j, IdOf(b));
    }
  }

  /** The expert entries that the first k ranks contribute for one node. */
  function AddExpert(entries: Nodes, name: string, ranks: seq<Nodes>, experts: nat, k: nat): Nodes
    requires k <= |ranks| && forall r :: 0 <= r < |ranks| ==> name in ranks[r]
  {
    if k == 0 then entries
    else AddExpert(entries, name, ranks, experts, k - 1)[NewName(name, k - 1, experts) := ranks[k - 1][name]]
  }

  predicate Complete(names: seq<string>, ranks: seq<Nodes>) {
    forall r, k :: 0 <= r < |ranks| && 0 <= k < |names| ==> names[k] in ranks[r]
  }

  function AllExperts(names: seq<string>, ranks: seq<Nodes>, experts: nat): Nodes
    requires Complete(names, ranks)
  {
    if names == [] then map[]
    else
      var init, last := names[..|names| - 1], names[|names| - 1];
      assert Complete(init, ranks);
      var before := AllExperts(init, ranks, experts);
      if IsMoeExperts(last) then AddExpert(before, last, ranks, experts, |ranks|) else before
  }

  /** Key e comes from expert name i of names on some rank below k. */
  predicate Contributes(names: seq<string>, i: int, e: string, experts: nat, k: nat) {
    0 <= i < |names| && IsMoeExperts(names[i]) && exists idx :: 0 <= idx < k && e == NewName(names[i], idx, experts)
  }

  lemma {:induction false} AddExpertKeys(
      entries: Nodes, name: string, ranks: seq<Nodes>, experts: nat, k: nat, e: string)
    requires k <= |ranks| && forall r :: 0 <= r < |ranks| ==> name in ranks[r]
    ensures e in AddExpert(entries, name, ranks, experts, k) <==>
      e in entries || exists idx :: 0 <= idx < k && e == NewName(name, idx, experts)
  {
    hide NewName;
    if k > 0 { AddExpertKeys(entries, name, ranks, experts, k - 1, e); }
  }

  lemma {:induction false} AllExpertsKeys(names: seq<string>, ranks: seq<Nodes>, experts: nat, e: string)
    requires Complete(names, ranks)
    ensures e in AllExperts(names, ranks, experts) <==> exists i :: Contributes(names, i, e, experts, |ranks|)
  {
    hide NewName, IsMoeExperts;
    if names != [] {
      var init, last := names[..|names| - 1], names[|names| - 1];
      assert Complete(init, ranks);
      AllExpertsKeys(init, ranks, experts, e);
      if exists i :: Contributes(init, i, e, experts, |ranks|) {
        var i :| Contributes(init, i, e, experts, |ranks|);
        assert Contributes(names, i, e, experts, |ranks|);
      }
      if exists i :: Contributes(names, i, e, experts, |ranks|) {
        var i :| Contributes(names, i, e, experts, |ranks|);
        assert i < |init| ==> Contributes(init, i, e, experts, |ranks|);
      }
      if IsMoeExperts(last) {
        AddExpertKeys(AllExperts(init, ranks, experts), last, ranks, experts, |ranks|, e);
        assert Contributes(names, |init|, e, experts, |ranks|) <==>
          exists idx :: 0 <= idx < |ranks| && e == NewName(last, idx, experts);
      }
    }
  }

  lemma {:induction false} AddExpertValues(
      entries: Nodes, name: string, ranks: seq<Nodes>, experts: nat, k: nat, idx: nat)
    requires idx < k <= |ranks| && forall r :: 0 <= r < |ranks| ==> name in ranks[r]
    requires forall a, b :: 0 <= a < b < k ==> NewName(name, a, experts) != NewName(name, b, experts)
    ensures NewName(name, idx, experts) in AddExpert(entries, name, ranks, experts, k)
    ensures AddExpert(entries, name, ranks, experts, k)[NewName(name, idx, experts)] == ranks[idx][name]
  {
    hide NewName;
    if idx < k - 1 { AddExpertValues(entries, name, ranks, experts, k - 1, idx); }
  }

  lemma {:induction false} AddExpertKeeps(
      entries: Nodes, name: string, ranks: seq<Nodes>, experts: nat, k: nat, e: string)
    requires k <= |ranks| && forall r :: 0 <= r < |ranks| ==> name in ranks[r]
    requires e in entries && forall idx :: 0 <= idx < k ==> NewName(name, idx, experts) != e
    ensures e in AddExpert(entries, name, ranks, experts, k)
    ensures AddExpert(entries, name, ranks, experts, k)[e] == entries[e]
  {
    hide NewName;
    if k > 0 { AddExpertKeeps(entries, name, ranks, experts, k - 1, e); }
  }

  /** Original names, and renamed ones, of different experts of a group never meet. */
  predicate NamesApart(names: seq<string>, ranks: nat, experts: nat) {
    forall i, a, j, b ::
      && 0 <= i < |names| && IsMoeExperts(names[i]) && 0 <= a < ranks
      && 0 <= j < |names| && IsMoeExperts(names[j]) && 0 <= b < ranks
      && NewName(names[i], a, experts) == NewName(names[j], b, experts)
      ==> i == j && a == b
  }

  predicate GoodNames(names: seq<string>, experts: nat) {
    Distinct(names) && Parsed(names) && IsLocalExpertNum(names, experts)
  }

  lemma ApartAt(names: seq<string>, experts: nat, i: nat, a: nat, j: nat, b: nat)
    requires GoodNames(names, experts) && (ExpertsDistinct(names) || (a == 0 && b == 0))
    requires i < |names| && IsMoeExperts(names[i]) && j < |names| && IsMoeExperts(names[j])
    requires NewName(names[i], a, experts) == NewName(names[j], b, experts)
    ensures i == j && a == b
  {
    hide IsMoeExperts, GetExpertId, GetExpertPrefix;
    assert names[i] in names && names[j] in names;
    if b > 0 {
      NewNamesCollide(names[i], a, names[j], b, experts);
    } else if a > 0 {
      NewNamesCollide(names[j], b, names[i], a, experts);
    }
    hide NewName, IdOf;
  }

  lemma DistinctExpertsApart(names: seq<string>, ranks: nat, experts: nat)
    requires GoodNames(names, experts) && (ExpertsDistinct(names) || ranks == 1)
    ensures NamesApart(names, ranks, experts)
  {
    hide GoodNames, ExpertsDistinct, NewName, IsMoeExperts;
    forall i, a, j, b |
      0 <= i < |names| && IsMoeExperts(names[i]) && 0 <= a < ranks &&
      0 <= j < |names| && IsMoeExperts(names[j]) && 0 <= b < ranks &&
      NewName(names[i], a, experts) == NewName(names[j], b, experts)
      ensures i == j && a == b
    {
      ApartAt(names, experts, i, a, j, b);
    }
  }

  /** Every rank's measurement of every expert is kept under its new name. */
  lemma {:induction false} AllExpertsValues(names: seq<string>, ranks: seq<Nodes>, experts: nat, i: nat, idx: nat)
    requires Complete(names, ranks) && NamesApart(names, |ranks|, experts)
    requires i < |names| && IsMoeExperts(names[i]) && idx < |ranks|
    ensures NewName(names[i], idx, experts) in AllExperts(names, ranks, experts)
    ensures AllExperts(names, ranks, experts)[NewName(names[i], idx, experts)] == ranks[idx][names[i]]
  {
    hide NewName, IsMoeExperts;
    var init, last := names[..|names| - 1], names[|names| - 1];
    var before := AllExperts(init, ranks, experts);
    if i == |init| {
      AddExpertValues(before, last, ranks, experts, |ranks|, idx);
    } else {
      AllExpertsValues(init, ranks, experts, i, idx);
      if IsMoeExperts(last) {
        AddExpertKeeps(before, last, ranks, experts, |ranks|, NewName(names[i], idx, experts));
      }
    }
  }

  // ------------------------------------------------------------------------ Unifying

  predicate CollidesAt(entries: Nodes, name: string, ranks: seq<Nodes>, experts: nat)
    requires forall r :: 0 <= r < |ranks| ==> name in ranks[r]
  {
    exists idx :: 1 <= idx < |ranks| && NewName(name, idx, experts) in AddExpert(entries, name, ranks, experts, idx)
  }

  lemma AddExpertStep(entries: Nodes, name: string, ranks: seq<Nodes>, experts: nat, k: nat)
    requires k < |ranks| && forall r :: 0 <= r < |ranks| ==> name in ranks[r]
    ensures AddExpert(entries, name, ranks, experts, k + 1)
         == AddExpert(entries, name, ranks, experts, k)[NewName(name, k, experts) := ranks[k][name]]
    ensures NewName(name, 0, experts) == name
  {
    hide GetExpertId, GetExpertPrefix;
  }

  lemma AddNone(entries: Nodes, name: string, ranks: seq<Nodes>, experts: nat)
    requires forall r :: 0 <= r < |ranks| ==> name in ranks[r]
    ensures AddExpert(entries, name, ranks, experts, 0) == entries
  {
  }

  /** The inner loop for an expert node: the first rank's entry under its own name, the
      others' under new names; false stands for the failed assertion. */
  method AddExpertEntries(entries: Nodes, name: string, ranks: seq<Nodes>, experts: nat)
    returns (ok: bool, r: Nodes)
    requires name !in entries && forall r :: 0 <= r < |ranks| ==> name in ranks[r]
    requires GetExpertId(name).Some?
    ensures ok <==> !CollidesAt(entries, name, ranks, experts)
    ensures ok ==> r == AddExpert(entries, name, ranks, experts, |ranks|)
  {
    hide GetExpertId, GetExpertPrefix, AddExpert, ExpertName;
    r := entries;
    AddNone(entries, name, ranks, experts);
    for idx := 0 to |ranks|
      invariant r == AddExpert(entries, name, ranks, experts, idx)
      invariant forall k :: 1 <= k < idx ==> NewName(name, k, experts) !in AddExpert(entries, name, ranks, experts, k)
      invariant name in r <==> idx > 0
    {
      AddExpertStep(entries, name, ranks, experts, idx);
      if name !in r {
        r := r[name := ranks[0][name]];
      } else {
        var newName := ExpertName(GetExpertPrefix(name), experts * idx + GetExpertId(name).value);
        assert newName == NewName(name, idx, experts);
        hide NewName;
        if newName in r {
          return false, r;
        }
        r := r[newName := ranks[idx][name]];
      }
    }
    ok := true;
  }

  lemma NameIsNew(names: seq<string>, ranks: seq<Nodes>, experts: nat, m: nat)
    requires GoodNames(names, experts) && m < |names| && IsMoeExperts(names[m]) && Complete(names[..m], ranks)
    ensures names[m] !in AllExperts(names[..m], ranks, experts)
  {
    hide IsMoeExperts, GetExpertId, NewName;
    AllExpertsKeys(names[..m], ranks, experts, names[m]);
    if i :| Contributes(names[..m], i, names[m], experts, |ranks|) {
      var a :| 0 <= a < |ranks| && names[m] == NewName(names[i], a, experts);
      OriginalName(names, experts, i, a, m);
    }
  }

  lemma OriginalName(names: seq<string>, experts: nat, i: nat, a: nat, m: nat)
    requires GoodNames(names, experts) && i < m < |names| && IsMoeExperts(names[i]) && IsMoeExperts(names[m])
    ensures NewName(names[i], a, experts) != names[m]
  {
    hide IsMoeExperts, GetExpertId, GetExpertPrefix, Numbered;
    assert names[i] in names && names[m] in names;
    if a > 0 && NewName(names[i], a, experts) == names[m] {
      NewNamesCollide(names[m], 0, names[i], a, experts);
    }
  }

  lemma ContributesElsewhere(names: seq<string>, ranks: nat, experts: nat, m: nat, i: int, idx: nat)
    requires NamesApart(names, ranks, experts) && m < |names| && IsMoeExperts(names[m]) && idx < ranks
    ensures !Contributes(names[..m], i, NewName(names[m], idx, experts), experts, ranks)
  {
    hide IsMoeExperts, NewName;
    if 0 <= i < m {
      assert names[..m][i] == names[i];
    }
  }

  /** Distinct experts never trip the assertion. */
  lemma DistinctNeverCollide(names: seq<string>, ranks: seq<Nodes>, experts: nat, m: nat)
    requires GoodNames(names, experts) && m < |names| && IsMoeExperts(names[m]) && Complete(names, ranks)
    requires ExpertsDistinct(names)
    ensures !CollidesAt(AllExperts(names[..m], ranks, experts), names[m], ranks, experts)
  {
    hide IsMoeExperts, NewName, GoodNames, ExpertsDistinct, Contributes;
    DistinctExpertsApart(names, |ranks|, experts);
    var before := AllExperts(names[..m], ranks, experts);
    forall idx | 1 <= idx < |ranks|
      ensures NewName(names[m], idx, experts) !in AddExpert(before, names[m], ranks, experts, idx)
    {
      var e := NewName(names[m], idx, experts);
      AddExpertKeys(before, names[m], ranks, experts, idx, e);
      AllExpertsKeys(names[..m], ranks, experts, e);
      hide AddExpert, AllExperts;
      forall i ensures !Contributes(names[..m], i, e, experts, |ranks|) {
        ContributesElsewhere(names, |ranks|, experts, m, i, idx);
      }
    }
  }

  /** Passing the assertion for one more node keeps the experts distinct. */
  lemma PassedMeansDistinct(names: seq<string>, ranks: seq<Nodes>, experts: nat, m: nat)
    requires m < |names| && IsMoeExperts(names[m]) && Complete(names, ranks) && |ranks| >= 2
    requires ExpertsDistinct(names[..m])
    requires !CollidesAt(AllExperts(names[..m], ranks, experts), names[m], ranks, experts)
    ensures ExpertsDistinct(names[..m + 1])
  {
    hide IsMoeExperts, GetExpertPrefix, IdOf;
    var before := AllExperts(names[..m], ranks, experts);
    forall i | 0 <= i < m && IsMoeExperts(names[i])
      ensures GetExpertPrefix(names[i]) != GetExpertPrefix(names[m]) || IdOf(names[i]) != IdOf(names[m])
    {
      var e := NewName(names[i], 1, experts);
      assert names[..m][i] == names[i];
      assert Contributes(names[..m], i, e, experts, |ranks|);
      AllExpertsKeys(names[..m], ranks, experts, e);
      AddExpertKeys(before, names[m], ranks, experts, 1, e);
      assert NewName(names[m], 1, experts) !in AddExpert(before, names[m], ranks, experts, 1);
    }
  }

  // --------------------------------------------------------------- The unified file

  /** One node as measured by every rank. */
  function Column(ranks: seq<Nodes>, name: string): (ns: seq<Node>)
    requires forall r :: 0 <= r < |ranks| ==> name in ranks[r]
    ensures |ns| == |ranks| && forall r :: 0 <= r < |ranks| ==> ns[r] == ranks[r][name]
  {
    seq(|ranks|, r requires 0 <= r < |ranks| => ranks[r][name])
  }

  /** Nodes other than experts have compatible shapes on all ranks. */
  predicate Alignable(names: seq<string>, ranks: seq<Nodes>, useEp: bool)
    requires Complete(names, ranks)
  {
    ranks != [] && forall k :: 0 <= k < |names| && !(useEp && IsMoeExperts(names[k])) ==>
      Aligned(Column(ranks, names[k]), useEp && IsFusedMoeOp(names[k]))
  }

  /** The k-th node of the first rank's file, merged with the other ranks' unless it is
      an expert. */
  function MergedNode(names: seq<string>, ranks: seq<Nodes>, useEp: bool, k: nat): Node
    requires k < |names| && Complete(names, ranks) && Alignable(names, ranks, useEp)
  {
    if useEp && IsMoeExperts(names[k]) then ranks[0][names[k]]
    else Unified(Column(ranks, names[k]), useEp && IsFusedMoeOp(names[k]), |ranks|)
  }

  predicate MergedUpTo(names: seq<string>, ranks: seq<Nodes>, useEp: bool, merged: Nodes, m: nat)
    requires Complete(names, ranks) && Alignable(names, ranks, useEp)
  {
    && (forall k :: 0 <= k < |names| ==>
          HeldAs(merged, names[k], if k < m then MergedNode(names, ranks, useEp, k) else ranks[0][names[k]]))
    && (forall e | e in merged :: e in names)
  }

  /** The file u keeps every expert of every rank under its new name, holds the merged
      measurement of every other node, and nothing else. */
  ghost predicate IsUnified(names: seq<string>, ranks: seq<Nodes>, useEp: bool, experts: nat, u: Nodes)
    requires Complete(names, ranks) && Alignable(names, ranks, useEp)
  {
    && (forall k :: 0 <= k < |names| && !(useEp && IsMoeExperts(names[k])) ==>
          names[k] in u && u[names[k]] == MergedNode(names, ranks, useEp, k))
    && (useEp ==> HoldsExperts(names, ranks, experts, u))
    && (forall e | e in u ::
          || (e in names && !(useEp && IsMoeExperts(e)))
          || (useEp && exists i :: Contributes(names, i, e, experts, |ranks|)))
  }

  lemma RenamedIsExpert(name: string, idx: nat, experts: nat)
    requires GetExpertId(name).Some?
    ensures IsMoeExperts(NewName(name, idx, experts)) <==> IsMoeExperts(name)
  {
    hide IsMoeExperts, GetExpertId, GetExpertPrefix, ExpertName;
    KindIgnoresNumber(name, Numbered(experts, idx, IdOf(name)));
  }

  lemma ContributedIsExpert(names: seq<string>, i: int, e: string, experts: nat, k: nat)
    requires Parsed(names) && Contributes(names, i, e, experts, k)
    ensures IsMoeExperts(e)
  {
    hide IsMoeExperts, GetExpertId, NewName;
    assert names[i] in names;
    var idx :| 0 <= idx < k && e == NewName(names[i], idx, experts);
    RenamedIsExpert(names[i], idx, experts);
  }

  lemma ExpertKeys(names: seq<string>, ranks: seq<Nodes>, experts: nat)
    requires Complete(names, ranks) && Parsed(names)
    ensures forall e | e in AllExperts(names, ranks, experts) ::
              IsMoeExperts(e) && exists i :: Contributes(names, i, e, experts, |ranks|)
  {
    hide IsMoeExperts, Parsed, Contributes;
    forall e | e in AllExperts(names, ranks, experts)
      ensures IsMoeExperts(e) && exists i :: Contributes(names, i, e, experts, |ranks|)
    {
      AllExpertsKeys(names, ranks, experts, e);
      var i :| Contributes(names, i, e, experts, |ranks|);
      ContributedIsExpert(names, i, e, experts, |ranks|);
    }
  }

  lemma FirstKeepsName(name: string, experts: nat)
    ensures NewName(name, 0, experts) == name
  {
  }

  ghost predicate HoldsExperts(names: seq<string>, ranks: seq<Nodes>, experts: nat, u: Nodes)
    requires Complete(names, ranks)
  {
    forall i, idx | 0 <= i < |names| && IsMoeExperts(names[i]) && 0 <= idx < |ranks| ::
      HeldAs(u, NewName(names[i], idx, experts), ranks[idx][names[i]])
  }

  predicate HeldAs(u: Nodes, name: string, node: Node) {
    name in u && u[name] == node
  }

  lemma AllExpertsHolds(names: seq<string>, ranks: seq<Nodes>, experts: nat)
    requires Complete(names, ranks) && NamesApart(names, |ranks|, experts)
    ensures HoldsExperts(names, ranks, experts, AllExperts(names, ranks, experts))
  {
    hide IsMoeExperts, NewName, NamesApart, AllExperts;
    var entries := AllExperts(names, ranks, experts);
    forall i, idx | 0 <= i < |names| && IsMoeExperts(names[i]) && 0 <= idx < |ranks|
      ensures HeldAs(entries, NewName(names[i], idx, experts), ranks[idx][names[i]])
    {
      AllExpertsValues(names, ranks, experts, i, idx);
    }
  }

  /** The first rank's experts are kept under their own names. */
  lemma OwnNamesHeld(names: seq<string>, ranks: seq<Nodes>, experts: nat, u: Nodes)
    requires Complete(names, ranks) && HoldsExperts(names, ranks, experts, u) && ranks != []
    ensures forall k :: 0 <= k < |names| && IsMoeExperts(names[k]) ==> names[k] in u
  {
    hide IsMoeExperts, NewName;
    forall k | 0 <= k < |names| && IsMoeExperts(names[k]) ensures names[k] in u {
      FirstKeepsName(names[k], experts);
      assert 0 < |ranks|;
      assert HeldAs(u, NewName(names[k], 0, experts), ranks[0][names[k]]);
    }
  }

  lemma UpdateUnifies(names: seq<string>, ranks: seq<Nodes>, experts: nat, merged: Nodes)
    requires Complete(names, ranks) && Alignable(names, ranks, true)
    requires MergedUpTo(names, ranks, true, merged, |names|)
    requires Parsed(names) && NamesApart(names, |ranks|, experts)
    ensures IsUnified(names, ranks, true, experts, merged + AllExperts(names, ranks, experts))
  {
    hide IsMoeExperts, NewName, MergedNode, Contributes, NamesApart, Parsed;
    var entries := AllExperts(names, ranks, experts);
    AllExpertsHolds(names, ranks, experts);
    ExpertKeys(names, ranks, experts);
    OwnNamesHeld(names, ranks, experts, entries);
    hide AllExperts, Alignable, Complete;
  }

  /** The names list the nodes of a file, each once. */
  ghost predicate Lists(names: seq<string>, nodes: Nodes) {
    Distinct(names) && forall e :: e in names <==> e in nodes
  }

  /** What keeps the assertions on expert names quiet. */
  predicate NamesPass(names: seq<string>, ranks: nat) {
    Parsed(names) && (ranks == 1 || ExpertsDistinct(names))
  }

  lemma NextMerged(names: seq<string>, ranks: seq<Nodes>, useEp: bool, merged: Nodes, m: nat)
    requires Complete(names, ranks) && Alignable(names, ranks, useEp) && Distinct(names)
    requires m < |names| && MergedUpTo(names, ranks, useEp, merged, m)
    ensures MergedUpTo(names, ranks, useEp, merged[names[m] := MergedNode(names, ranks, useEp, m)], m + 1)
    ensures useEp && IsMoeExperts(names[m]) ==> MergedUpTo(names, ranks, useEp, merged, m + 1)
  {
    hide IsMoeExperts;
    assert ranks != [] && names[m] in ranks[0];
    assert useEp && IsMoeExperts(names[m]) ==> MergedNode(names, ranks, useEp, m) == ranks[0][names[m]];
    hide MergedNode, Complete, Alignable;
  }

  predicate PassedUpTo(names: seq<string>, ranks: seq<Nodes>, experts: nat, entries: Nodes, m: nat)
    requires m <= |names| && Complete(names, ranks)
  {
    entries == AllExperts(names[..m], ranks, experts) && (|ranks| > 1 ==> ExpertsDistinct(names[..m]))
  }

  lemma NonePassed(names: seq<string>, ranks: seq<Nodes>, experts: nat)
    requires Complete(names, ranks)
    ensures PassedUpTo(names, ranks, experts, map[], 0)
  {
  }

  lemma CollisionMeansNotDistinct(names: seq<string>, ranks: seq<Nodes>, experts: nat, m: nat)
    requires GoodNames(names, experts) && m < |names| && IsMoeExperts(names[m]) && Complete(names, ranks)
    requires CollidesAt(AllExperts(names[..m], ranks, experts), names[m], ranks, experts)
    ensures !NamesPass(names, |ranks|)
  {
    hide IsMoeExperts, GoodNames, ExpertsDistinct, AllExperts, AddExpert, NewName;
    if ExpertsDistinct(names) { DistinctNeverCollide(names, ranks, experts, m); }
  }

  /** What the next expert does to the entries collected so far. */
  lemma NextExpert(names: seq<string>, ranks: seq<Nodes>, experts: nat, entries: Nodes, m: nat)
    requires GoodNames(names, experts) && m < |names| && IsMoeExperts(names[m]) && Complete(names, ranks)
    requires PassedUpTo(names, ranks, experts, entries, m)
    ensures names[m] !in entries && GetExpertId(names[m]).Some?
    ensures CollidesAt(entries, names[m], ranks, experts) ==> !NamesPass(names, |ranks|)
    ensures !CollidesAt(entries, names[m], ranks, experts) ==>
        PassedUpTo(names, ranks, experts, AddExpert(entries, names[m], ranks, experts, |ranks|), m + 1)
  {
    hide IsMoeExperts, GetExpertId, ExpertsDistinct, CollidesAt, AddExpert, NamesPass;
    assert names[m] in names;
    hide GoodNames;
    NameIsNew(names, ranks, experts, m);
    var next := names[..m + 1];
    assert next[..m] == names[..m] && next[m] == names[m];
    if CollidesAt(entries, names[m], ranks, experts) {
      CollisionMeansNotDistinct(names, ranks, experts, m);
    } else if |ranks| > 1 {
      PassedMeansDistinct(names, ranks, experts, m);
    }
  }

  lemma NextOther(names: seq<string>, ranks: seq<Nodes>, experts: nat, entries: Nodes, m: nat)
    requires m < |names| && !IsMoeExperts(names[m]) && Complete(names, ranks)
    requires PassedUpTo(names, ranks, experts, entries, m)
    ensures PassedUpTo(names, ranks, experts, entries, m + 1)
  {
    hide IsMoeExperts, GetExpertPrefix, IdOf, AddExpert;
    var next := names[..m + 1];
    assert next[..m] == names[..m] && next[m] == names[m];
  }

  /** The two maps after the loop make the unified file. */
  lemma LoopUnifies(names: seq<string>, ranks: seq<Nodes>, useEp: bool, experts: nat, merged: Nodes, entries: Nodes)
    requires Complete(names, ranks) && Alignable(names, ranks, useEp)
    requires MergedUpTo(names, ranks, useEp, merged, |names|)
    requires useEp ==> GoodNames(names, experts) && PassedUpTo(names, ranks, experts, entries, |names|)
    ensures useEp ==> NamesPass(names, |ranks|)
    ensures IsUnified(names, ranks, useEp, ExpertNum(names), if useEp then merged + entries else merged)
  {
    hide IsMoeExperts, ExpertsDistinct, AllExperts, NamesApart, MergedNode, ExpertNum;
    if useEp {
      assert names[..|names|] == names;
      ExpertNumUnique(names, experts);
      DistinctExpertsApart(names, |ranks|, experts);
      hide MergedUpTo, IsUnified, IsLocalExpertNum, Distinct, Parsed;
      UpdateUnifies(names, ranks, experts, merged);
    }
  }

  method UnifyMeasurements(names: seq<string>, ranks: seq<Nodes>, useEp: bool) returns (r: Option<Nodes>)
    requires ranks != [] && Lists(names, ranks[0])
    requires Complete(names, ranks) && Alignable(names, ranks, useEp)
    ensures r.Some? <==> (useEp ==> NamesPass(names, |ranks|))
    ensures r.Some? ==> IsUnified(names, ranks, useEp, ExpertNum(names), r.value)
  {
    hide IsMoeExperts, IsFusedMoeOp, GetExpertId, NewName, ExpertsDistinct, AddExpert, CollidesAt, ExpertNum;
    hide IsUnified, IsLocalExpertNum;
    var experts := 0;
    if useEp {
      var num := GetLocalExpertNum(names);
      if num.None? {
        return None;
      }
      experts := num.value;
    }
    hide NamesPass;
    var merged, entries := ranks[0], map[];
    NonePassed(names, ranks, experts);
    for m := 0 to |names|
      invariant MergedUpTo(names, ranks, useEp, merged, m)
      invariant useEp ==> PassedUpTo(names, ranks, experts, entries, m)
    {
      hide MergedUpTo, PassedUpTo, GoodNames, AllExperts;
      var name := names[m];
      NextMerged(names, ranks, useEp, merged, m);
      if useEp && IsMoeExperts(name) {
        NextExpert(names, ranks, experts, entries, m);
        var ok;
        ok, entries := AddExpertEntries(entries, name, ranks, experts);
        if !ok {
          return None;
        }
      } else {
        if useEp { NextOther(names, ranks, experts, entries, m); }
        var node := UnifyNode(Column(ranks, name), useEp && IsFusedMoeOp(name));
        merged := merged[name := node];
      }
    }
    LoopUnifies(names, ranks, useEp, experts, merged, entries);
    r := Some(if useEp then merged + entries else merged);
  }

  /** In a unified file every node that is not kept for each rank holds the maximum over the
      ranks in every merged channel. */
  lemma UnifiedFileIsMaximal(names: seq<string>, ranks: seq<Nodes>, useEp: bool, experts: nat, u: Nodes, k: nat)
    requires Complete(names, ranks) && Alignable(names, ranks, useEp) && IsUnified(names, ranks, useEp, experts, u)
    requires k < |names| && !(useEp && IsMoeExperts(names[k]))
    ensures names[k] in u
    ensures Maximal(Column(ranks, names[k]), useEp && IsFusedMoeOp(names[k]), u[names[k]])
  {
    UnifiedIsMaximal(Column(ranks, names[k]), useEp && IsFusedMoeOp(names[k]));
    hide Maximal, HoldsExperts, Contributes;
  }

  lemma SamePartsCollide(x: string, y: string)
    requires x != y && IsMoeExperts(x) && IsMoeExperts(y) && GetExpertId(x).Some?
    requires GetExpertId(x) == GetExpertId(y) && GetExpertPrefix(x) == GetExpertPrefix(y)
    ensures Distinct([x, y]) && Parsed([x, y]) && !ExpertsDistinct([x, y]) && !NamesPass([x, y], 2)
  {
    hide GetExpertId, GetExpertPrefix, IsMoeExperts;
    assert [x, y][0] == x && [x, y][1] == y;
  }

  lemma NumeralUnder(prefix: string, digits: string)
    requires IsMoeExperts(prefix) && digits != "" && AllDigits(digits)
    ensures var name := prefix + "." + digits;
            && IsMoeExperts(name) && GetExpertId(name) == Some(ParseNat(digits)) && GetExpertPrefix(name) == prefix
  {
    hide IsMoeExperts, GetExpertId, GetExpertPrefix, ParseNat, NumberTail, AllDigits;
    NameParts(prefix, digits);
    DigitsAreTail(digits);
    KindIgnoresTail(prefix, "." + digits);
    assert prefix + "." + digits == prefix + ("." + digits);
  }

  lemma DigitsAreTail(digits: string)
    requires AllDigits(digits)
    ensures NumberTail("." + digits)
  {
  }

  /** Two different expert names can share prefix and number, if one number is padded, and
      then two ranks cannot be unified. */
  lemma PaddedNumberCollides()
    ensures var names := ["moe.w2_list.1", "moe.w2_list.01"];
            && Distinct(names) && Parsed(names) && IsMoeExperts(names[0]) && IsMoeExperts(names[1])
            && !ExpertsDistinct(names) && !NamesPass(names, 2)
  {
    hide ExpertsDistinct, NamesPass, Distinct, Parsed;
    var prefix := "moe.w2_list";
    ListIsExpert();
    DigitsOfOne();
    hide IsMoeExperts, ParseNat, GetExpertId, GetExpertPrefix, AllDigits;
    NumeralUnder(prefix, "1");
    NumeralUnder(prefix, "01");
    assert prefix + "." + "1" == "moe.w2_list.1" && prefix + "." + "01" == "moe.w2_list.01";
    SamePartsCollide("moe.w2_list.1", "moe.w2_list.01");
  }

  lemma ListIsExpert()
    ensures IsMoeExperts("moe.w2_list")
  {
    var prefix := "moe.w2_list";
    assert Lower(prefix)[0..3] == "moe" && prefix[3..11] == ".w2_list";
    assert OccursAt(Lower(prefix), "moe", 0) && OccursAt(prefix, ".w2_list", 3);
  }

  lemma DigitsOfOne()
    ensures AllDigits("1") && AllDigits("01") && ParseNat("1") == 1 && ParseNat("01") == 1
  {
    assert "1"[..0] == "" && "01"[..1] == "0" && "0"[..0] == "";
    assert ParseNat("0") == 0;
  }
}
