/** The hidden states that speculative decoding keeps for the sequences in progress: rows
    of tensors, matched with sequence ids by position. */
module HiddenStates {
  import opened Common

  // ------------------------------------------------------------ Sequence ids and rows

  /** The ids of the sequences of all groups, in order. */
  function GetAllSeqIds(groups: seq<seq<nat>>): seq<nat> {
    if groups == [] then [] else GetAllSeqIds(groups[..|groups| - 1]) + groups[|groups| - 1]
  }

  /** Rows can be selected by negative positions, counted from the end. */
  predicate Indexable(count: nat, index: seq<int>) {
    forall k :: 0 <= k < |index| ==> 0 <= index[k] + count && index[k] < count
  }

  function Gather<Row>(rows: seq<Row>, index: seq<int>): (r: seq<Row>)
    requires Indexable(|rows|, index)
    ensures |r| == |index|
    ensures forall k :: 0 <= k < |index| ==> r[k] == rows[if index[k] < 0 then index[k] + |rows| else index[k]]
  {
    seq(|index|, k requires 0 <= k < |index| => rows[if index[k] < 0 then index[k] + |rows| else index[k]])
  }

  // ---------------------------------------------------------- The state and its changes

  datatype State<Row> = State(rows: seq<Row>, ids: seq<nat>, second: Option<seq<Row>>)

  function Truncated<Row>(rows: seq<Row>, groups: nat): seq<Row> {
    if groups < |rows| then rows[..groups] else rows
  }

  function Updated<Row>(
      s: State<Row>, rows: seq<Row>, groups: seq<seq<nat>>, second: Option<seq<Row>>, zero: Row): State<Row> {
    var kept := Truncated(rows, |groups|);
    State(s.rows + kept,
          s.ids + GetAllSeqIds(groups),
          if s.second.None? then None
          else Some(s.second.value + if second.Some? then second.value else seq(|kept|, _ => zero)))
  }

  function Known(requested: seq<nat>, ids: seq<nat>): (r: seq<nat>)
    ensures |r| <= |requested| && forall id :: id in r <==> id in requested && id in ids
  {
    if requested == [] then []
    else
      var init, last := requested[..|requested| - 1], requested[|requested| - 1];
      assert requested == init + [last];
      var known := Known(init, ids);
      if last in ids then known + [last] else known
  }

  function Positions(ids: seq<nat>, known: seq<nat>): (r: seq<int>)
    requires forall id | id in known :: id in ids
    ensures |r| == |known| && forall k :: 0 <= k < |known| ==> r[k] == IndexOf(ids, known[k])
  {
    seq(|known|, k requires 0 <= k < |known| => IndexOf(ids, known[k]))
  }

  /** Positions of the known ids, padded with the last row for the unknown ones. */
  function PruneIndex(ids: seq<nat>, requested: seq<nat>): seq<int> {
    var known := Known(requested, ids);
    Positions(ids, known) + seq(|requested| - |known|, _ => -1)
  }

  /** None stands for the error of indexing past the rows. */
  function Pruned<Row>(s: State<Row>, requested: seq<nat>): Option<State<Row>> {
    var known := Known(requested, s.ids);
    var index := PruneIndex(s.ids, requested);
    if known == s.ids && |requested| <= |s.ids| then Some(s)
    else if !Indexable(|s.rows|, index) || (s.second.Some? && !Indexable(|s.second.value|, index)) then None
    else
      Some(State(Gather(s.rows, index), known,
                 if s.second.Some? then Some(Gather(s.second.value, index)) else None))
  }

  /** What a failed pruning leaves. */
  function HalfPruned<Row>(s: State<Row>, requested: seq<nat>): State<Row> {
    var index := PruneIndex(s.ids, requested);
    if Indexable(|s.rows|, index) then s.(rows := Gather(s.rows, index)) else s
  }

  /** One more entry, preceded by an extra one if there is a bonus token. */
  function Extended<T>(entries: seq<T>, bonus: bool, extra: T, entry: T): seq<T> {
    if bonus then entries + [extra, entry] else entries + [entry]
  }

  /** Positions of the first k ids' rows, each preceded by that of its second-last row if
      it has a bonus token. */
  function BonusIndex(ids: seq<nat>, bonus: set<nat>, k: nat): (r: seq<int>)
    requires k <= |ids|
    ensures Indexable(2 * |ids|, r)
  {
    if k == 0 then []
    else
      var i := IndexOf(ids, ids[k - 1]);
      Extended(BonusIndex(ids, bonus, k - 1), ids[k - 1] in bonus, i + |ids|, i)
  }

  function Expanded<Row>(s: State<Row>, bonus: set<nat>): Option<State<Row>> {
    if s.second.None? || bonus == {} then Some(s)
    else
      var both := s.rows + s.second.value;
      var index := BonusIndex(s.ids, bonus, |s.ids|);
      if Indexable(|both|, index) then Some(s.(rows := Gather(both, index))) else None
  }

  class HiddenStates<Row> {
    var hiddenStates: seq<Row>
    var seqIds: seq<nat>
    var secondLastTokenHiddenStates: Option<seq<Row>>

    ghost function View(): State<Row>
      reads this
    {
      State(hiddenStates, seqIds, secondLastTokenHiddenStates)
    }

    constructor (rows: seq<Row>, groups: Option<seq<seq<nat>>>, second: Option<seq<Row>>)
      requires groups.Some? ==> |groups.value| == |rows|
      ensures View() == State(rows, if groups.Some? then GetAllSeqIds(groups.value) else [], second)
    {
      hiddenStates := rows;
      seqIds := if groups.Some? then GetAllSeqIds(groups.value) else [];
      secondLastTokenHiddenStates := second;
    }

    /** Appends the rows of a decode step; a missing second-last row becomes zeros. */
    method Update(rows: seq<Row>, groups: seq<seq<nat>>, second: Option<seq<Row>>, zero: Row)
      modifies this
      ensures View() == Updated(old(View()), rows, groups, second, zero)
    {
      var kept := rows;
      if |groups| < |kept| {
        kept := kept[..|groups|];
      }
      seqIds := seqIds + GetAllSeqIds(groups);
      hiddenStates := hiddenStates + kept;
      if secondLastTokenHiddenStates.Some? {
        secondLastTokenHiddenStates := Some(secondLastTokenHiddenStates.value +
          if second.Some? then second.value else seq(|kept|, _ => zero));
      }
    }

    /** Keeps the sequences of the given groups, in their order.  If the second-last rows are
        too few, the rows have already been selected. */
    method Prune(groups: seq<seq<nat>>) returns (ok: bool)
      modifies this
      ensures ok <==> Pruned(old(View()), GetAllSeqIds(groups)).Some?
      ensures ok ==> View() == Pruned(old(View()), GetAllSeqIds(groups)).value
      ensures !ok ==> View() == HalfPruned(old(View()), GetAllSeqIds(groups))
      ensures !ok ==> seqIds == old(seqIds) && secondLastTokenHiddenStates == old(secondLastTokenHiddenStates)
      ensures !ok ==>
        var index := PruneIndex(seqIds, GetAllSeqIds(groups));
        if Indexable(|old(hiddenStates)|, index)
        then hiddenStates == Gather(old(hiddenStates), index) else hiddenStates == old(hiddenStates)
    {
      hide Positions, Gather, Indexable, GetAllSeqIds, Known;
      var requested := GetAllSeqIds(groups);
      var known := Known(requested, seqIds);
      if known == seqIds && |requested| <= |seqIds| {
        return true;
      }
      var index := Positions(seqIds, known) + seq(|requested| - |known|, _ => -1);
      if !Indexable(|hiddenStates|, index) {
        return false;
      }
      hiddenStates := Gather(hiddenStates, index);
      if secondLastTokenHiddenStates.Some? {
        if !Indexable(|secondLastTokenHiddenStates.value|, index) {
          return false;
        }
        secondLastTokenHiddenStates := Some(Gather(secondLastTokenHiddenStates.value, index));
      }
      seqIds := known;
      ok := true;
    }

    /** Adds the second-last rows of the sequences with bonus tokens. */
    method ExpandWithBonusTokens(bonus: set<nat>) returns (ok: bool)
      modifies this
      ensures ok <==> Expanded(old(View()), bonus).Some?
      ensures View() == if ok then Expanded(old(View()), bonus).value else old(View())
    {
      if secondLastTokenHiddenStates.None? || bonus == {} {
        return true;
      }
      var index := [];
      for k := 0 to |seqIds|
        invariant index == BonusIndex(seqIds, bonus, k)
      {
        var i := IndexOf(seqIds, seqIds[k]);
        if seqIds[k] in bonus {
          index := index + [i + |seqIds|];
        }
        index := index + [i];
      }
      var both := hiddenStates + secondLastTokenHiddenStates.value;
      if !Indexable(|both|, index) {
        return false;
      }
      hiddenStates := Gather(both, index);
      ok := true;
    }
  }

  // -------------------------------------------------------------- Rows found by their id

  /** Ids are distinct and there is one row, and one second-last row, for each. */
  predicate Ready<Row>(s: State<Row>) {
    Distinct(s.ids) && |s.rows| == |s.ids| && (s.second.Some? ==> |s.second.value| == |s.ids|)
  }

  function RowMap<Row>(ids: seq<nat>, rows: seq<Row>): (m: map<nat, Row>)
    requires |rows| == |ids|
    ensures forall id :: id in m <==> id in ids
    ensures forall id | id in ids :: m[id] == rows[IndexOf(ids, id)]
  {
    map id | id in ids :: rows[IndexOf(ids, id)]
  }

  lemma IndexOfDistinct(ids: seq<nat>, i: nat)
    requires Distinct(ids) && i < |ids|
    ensures IndexOf(ids, ids[i]) == i
  {
  }

  lemma RowMapAt<Row>(ids: seq<nat>, rows: seq<Row>)
    requires |rows| == |ids| && Distinct(ids)
    ensures forall i :: 0 <= i < |ids| ==> RowMap(ids, rows)[ids[i]] == rows[i]
  {
    forall i | 0 <= i < |ids| ensures RowMap(ids, rows)[ids[i]] == rows[i] { IndexOfDistinct(ids, i); }
  }

  /** A map is the row map as soon as it has the ids for keys and agrees row by row. */
  lemma RowMapIs<Row>(ids: seq<nat>, rows: seq<Row>, m: map<nat, Row>)
    requires |rows| == |ids| && Distinct(ids)
    requires forall id :: id in m <==> id in ids
    requires forall i :: 0 <= i < |ids| ==> m[ids[i]] == rows[i]
    ensures m == RowMap(ids, rows)
  {
    hide IndexOf;
    RowMapAt(ids, rows);
    hide Distinct;
    forall id | id in m ensures m[id] == RowMap(ids, rows)[id] {
      var i :| 0 <= i < |ids| && ids[i] == id;
    }
  }

  lemma RowMapAppend<Row>(a: seq<nat>, ra: seq<Row>, b: seq<nat>, rb: seq<Row>)
    requires |ra| == |a| && |rb| == |b| && Distinct(a + b)
    ensures RowMap(a + b, ra + rb) == RowMap(a, ra) + RowMap(b, rb)
  {
    hide IndexOf, RowMap;
    assert forall i :: 0 <= i < |a| ==> a[i] == (a + b)[i];
    assert forall i :: 0 <= i < |b| ==> b[i] == (a + b)[|a| + i];
    RowMapAt(a, ra);
    RowMapAt(b, rb);
    var both := RowMap(a, ra) + RowMap(b, rb);
    forall i | 0 <= i < |a + b| ensures both[(a + b)[i]] == (ra + rb)[i] {
      if i < |a| {
        assert a[i] !in b;
      } else {
        assert (a + b)[i] == b[i - |a|];
      }
    }
    RowMapIs(a + b, ra + rb, both);
  }

  /** What a decode step must deliver: a row for each new sequence. */
  predicate Delivers<Row>(s: State<Row>, rows: seq<Row>, groups: seq<seq<nat>>, second: Option<seq<Row>>) {
    var added := GetAllSeqIds(groups);
    && Distinct(s.ids + added) && |Truncated(rows, |groups|)| == |added|
    && (s.second.Some? && second.Some? ==> |second.value| == |added|)
  }

  /** An update adds rows for the new sequences and changes no other. */
  lemma UpdateRefines<Row>(s: State<Row>, rows: seq<Row>, groups: seq<seq<nat>>, second: Option<seq<Row>>, zero: Row)
    requires Ready(s) && Delivers(s, rows, groups, second)
    ensures var t, added := Updated(s, rows, groups, second, zero), GetAllSeqIds(groups);
            && Ready(t) && t.ids == s.ids + added
            && RowMap(t.ids, t.rows) == RowMap(s.ids, s.rows) + RowMap(added, Truncated(rows, |groups|))
            && t.second.Some? == s.second.Some?
            && (s.second.Some? ==>
                  RowMap(t.ids, t.second.value) ==
                  RowMap(s.ids, s.second.value)
                  + RowMap(added, if second.Some? then second.value else seq(|added|, _ => zero)))
  {
    hide RowMap;
    var added := GetAllSeqIds(groups);
    RowMapAppend(s.ids, s.rows, added, Truncated(rows, |groups|));
    if s.second.Some? {
      RowMapAppend(s.ids, s.second.value, added, if second.Some? then second.value else seq(|added|, _ => zero));
    }
  }

  /** An update keeps rows and ids matched exactly when it delivers a row for each new
      sequence; the second-last rows are not cut to the groups as the rows are. */
  lemma UpdateReadyIff<Row>(
      s: State<Row>, rows: seq<Row>, groups: seq<seq<nat>>, second: Option<seq<Row>>, zero: Row)
    requires Ready(s)
    ensures Ready(Updated(s, rows, groups, second, zero)) <==> Delivers(s, rows, groups, second)
  {
    hide Distinct;
  }

  /** One group whose rows come padded to two: the rows are cut, the second-last are not. */
  lemma PaddedUpdate<Row>(row: Row, padding: Row, zero: Row)
    ensures var s: State<Row> := State([], [], Some([]));
            Ready(s) && !Ready(Updated(s, [row, padding], [[7]], Some([row, padding]), zero))
    ensures var s: State<Row> := State([], [], None);
            Ready(s) && Ready(Updated(s, [row, padding], [[7]], Some([row, padding]), zero))
  {
    assert [[7]][..0] == [];
    assert GetAllSeqIds([[7]]) == [7];
  }

  /** How many ids the first g groups have. */
  function IdsBefore(groups: seq<seq<nat>>, g: nat): nat
    requires g <= |groups|
  {
    if g == 0 then 0 else IdsBefore(groups, g - 1) + |groups[g - 1]|
  }

  lemma {:induction false} IdsBeforePrefix(groups: seq<seq<nat>>, n: nat, g: nat)
    requires g <= n <= |groups|
    ensures IdsBefore(groups[..n], g) == IdsBefore(groups, g)
  {
    if g > 0 { IdsBeforePrefix(groups, n, g - 1); }
  }

  lemma {:induction false} IdsCount(groups: seq<seq<nat>>)
    ensures |GetAllSeqIds(groups)| == IdsBefore(groups, |groups|)
  {
    if groups != [] {
      var n := |groups| - 1;
      IdsCount(groups[..n]);
      IdsBeforePrefix(groups, n, n);
    }
  }

  /** The ids are listed group after group: id k of group g comes after the ids of the
      groups before g and the k ids before it. */
  lemma {:induction false} SeqIdAt(groups: seq<seq<nat>>, g: nat, k: nat)
    requires g < |groups| && k < |groups[g]|
    ensures IdsBefore(groups, g) + k < |GetAllSeqIds(groups)|
    ensures GetAllSeqIds(groups)[IdsBefore(groups, g) + k] == groups[g][k]
  {
    var n := |groups| - 1;
    IdsCount(groups[..n]);
    IdsBeforePrefix(groups, n, n);
    if g < n {
      SeqIdAt(groups[..n], g, k);
      IdsBeforePrefix(groups, n, g);
    }
  }

  lemma {:induction false} SingletonsBefore(groups: seq<seq<nat>>, g: nat)
    requires g <= |groups| && forall h :: 0 <= h < |groups| ==> |groups[h]| == 1
    ensures IdsBefore(groups, g) == g
  {
    if g > 0 { SingletonsBefore(groups, g - 1); }
  }

  lemma SingletonIds(groups: seq<seq<nat>>)
    requires forall h :: 0 <= h < |groups| ==> |groups[h]| == 1
    ensures |GetAllSeqIds(groups)| == |groups|
    ensures forall g :: 0 <= g < |groups| ==> GetAllSeqIds(groups)[g] == groups[g][0]
  {
    IdsCount(groups);
    SingletonsBefore(groups, |groups|);
    forall g | 0 <= g < |groups| ensures GetAllSeqIds(groups)[g] == groups[g][0] {
      SeqIdAt(groups, g, 0);
      SingletonsBefore(groups, g);
    }
  }

  /** With one sequence in each group, an update gives the sequence of group g row g and
      keeps the rows of the sequences that were there; rows beyond the groups are dropped. */
  lemma UpdateByGroup<Row>(
      s: State<Row>, rows: seq<Row>, groups: seq<seq<nat>>, second: Option<seq<Row>>, zero: Row, id: nat)
    requires |s.rows| == |s.ids| && |rows| >= |groups| && Distinct(s.ids + GetAllSeqIds(groups))
    requires forall h :: 0 <= h < |groups| ==> |groups[h]| == 1
    ensures var t := Updated(s, rows, groups, second, zero);
            && |t.rows| == |t.ids|
            && (id in s.ids ==> id in t.ids && RowMap(t.ids, t.rows)[id] == RowMap(s.ids, s.rows)[id])
            && (forall g :: 0 <= g < |groups| ==>
                  groups[g][0] in t.ids && RowMap(t.ids, t.rows)[groups[g][0]] == rows[g])
  {
    hide RowMap, Distinct, GetAllSeqIds;
    SingletonIds(groups);
    NewRows(s.ids, s.rows, GetAllSeqIds(groups), Truncated(rows, |groups|));
    if id in s.ids { OldRow(s.ids, s.rows, GetAllSeqIds(groups), Truncated(rows, |groups|), id); }
  }

  /** The same for the second-last rows, which become zeros if none are given. */
  lemma UpdateSecondByGroup<Row>(
      s: State<Row>, rows: seq<Row>, groups: seq<seq<nat>>, second: Option<seq<Row>>, zero: Row, id: nat)
    requires s.second.Some? && |s.second.value| == |s.ids| && |rows| >= |groups|
    requires (second.Some? ==> |second.value| == |groups|) && Distinct(s.ids + GetAllSeqIds(groups))
    requires forall h :: 0 <= h < |groups| ==> |groups[h]| == 1
    ensures var t := Updated(s, rows, groups, second, zero);
            && t.second.Some? && |t.second.value| == |t.ids|
            && (id in s.ids ==>
                  id in t.ids && RowMap(t.ids, t.second.value)[id] == RowMap(s.ids, s.second.value)[id])
            && (forall g :: 0 <= g < |groups| ==>
                  && groups[g][0] in t.ids
                  && RowMap(t.ids, t.second.value)[groups[g][0]] == if second.Some? then second.value[g] else zero)
  {
    hide RowMap, Distinct, GetAllSeqIds;
    SingletonIds(groups);
    var more := if second.Some? then second.value else seq(|Truncated(rows, |groups|)|, _ => zero);
    NewRows(s.ids, s.second.value, GetAllSeqIds(groups), more);
    if id in s.ids { OldRow(s.ids, s.second.value, GetAllSeqIds(groups), more, id); }
  }

  lemma NewRows<Row>(ids: seq<nat>, rows: seq<Row>, added: seq<nat>, more: seq<Row>)
    requires |rows| == |ids| && |more| == |added| && Distinct(ids + added)
    ensures forall g :: 0 <= g < |added| ==>
      added[g] in ids + added && RowMap(ids + added, rows + more)[added[g]] == more[g]
  {
    var all, values := ids + added, rows + more;
    RowMapAt(all, values);
    hide RowMap, Distinct, IndexOf;
    forall g | 0 <= g < |added| ensures added[g] in all && RowMap(all, values)[added[g]] == more[g] {
      assert all[|ids| + g] == added[g];
    }
  }

  lemma OldRow<Row>(ids: seq<nat>, rows: seq<Row>, added: seq<nat>, more: seq<Row>, id: nat)
    requires |rows| == |ids| && |more| == |added| && Distinct(ids + added) && id in ids
    ensures id in ids + added && RowMap(ids + added, rows + more)[id] == RowMap(ids, rows)[id]
  {
    var i, all := IndexOf(ids, id), ids + added;
    assert all[i] == id;
    IndexOfDistinct(all, i);
  }

  /** The ids that pruning keeps are the known ones among the requested, in their order. */
  lemma {:induction false} KnownInOrder(requested: seq<nat>, ids: seq<nat>, a: nat, b: nat)
    requires Distinct(requested) && a < b < |Known(requested, ids)|
    ensures var known := Known(requested, ids);
            && known[a] in requested && known[b] in requested
            && IndexOf(requested, known[a]) < IndexOf(requested, known[b])
  {
    var n := |requested| - 1;
    var init, known := requested[..n], Known(requested, ids);
    assert known[a] in known && known[b] in known;
    if b < |Known(init, ids)| {
      KnownInOrder(init, ids, a, b);
      SamePosition(requested, n, known[a]);
      SamePosition(requested, n, known[b]);
    } else {
      assert known[a] in Known(init, ids) && known[a] in init;
      SamePosition(requested, n, known[a]);
      IndexOfDistinct(requested, n);
    }
  }

  lemma SamePosition(s: seq<nat>, n: nat, x: nat)
    requires Distinct(s) && n <= |s| && x in s[..n]
    ensures x in s && IndexOf(s, x) == IndexOf(s[..n], x)
  {
    var i := IndexOf(s[..n], x);
    assert s[i] == x;
    IndexOfDistinct(s, i);
  }

  /** When pruning changes anything, the rows of the known sequences come first, in their
      order, and every further row is a copy of the last one. */
  lemma PrunedRows<Row>(s: State<Row>, requested: seq<nat>)
    requires Ready(s) && Pruned(s, requested).Some? && (Known(requested, s.ids) != s.ids || |requested| > |s.ids|)
    ensures var t, known := Pruned(s, requested).value, Known(requested, s.ids);
            && t.ids == known && |t.rows| == |requested| >= |known|
            && (forall k :: 0 <= k < |known| ==> t.rows[k] == RowMap(s.ids, s.rows)[known[k]])
            && (forall k :: |known| <= k < |requested| ==> s.rows != [] && t.rows[k] == s.rows[|s.rows| - 1])
  {
    hide Distinct;
  }

  lemma {:induction false} AllKnown(requested: seq<nat>, ids: seq<nat>)
    requires forall id | id in requested :: id in ids
    ensures Known(requested, ids) == requested
  {
    if requested != [] {
      AllKnown(requested[..|requested| - 1], ids);
    }
  }

  lemma {:induction false} SomeUnknown(requested: seq<nat>, ids: seq<nat>, id: nat)
    requires id in requested && id !in ids
    ensures |Known(requested, ids)| < |requested|
  {
    var init, last := requested[..|requested| - 1], requested[|requested| - 1];
    assert requested == init + [last];
    if id != last { SomeUnknown(init, ids, id); }
  }

  function Restricted<Row>(m: map<nat, Row>, ids: seq<nat>): map<nat, Row> {
    map id | id in m && id in ids :: m[id]
  }

  lemma GatherIsRestriction<Row>(ids: seq<nat>, rows: seq<Row>, requested: seq<nat>)
    requires Distinct(ids) && |rows| == |ids| && Distinct(requested) && forall id | id in requested :: id in ids
    ensures Indexable(|rows|, Positions(ids, requested))
    ensures RowMap(requested, Gather(rows, Positions(ids, requested))) == Restricted(RowMap(ids, rows), requested)
  {
    var index := Positions(ids, requested);
    RowMapIs(requested, Gather(rows, index), Restricted(RowMap(ids, rows), requested));
  }

  /** Pruning to known sequences keeps exactly their rows, now in the requested order. */
  lemma PruneRefines<Row>(s: State<Row>, requested: seq<nat>)
    requires Ready(s) && Distinct(requested) && forall id | id in requested :: id in s.ids
    ensures var t := Pruned(s, requested);
            && t.Some? && Ready(t.value) && t.value.ids == requested
            && RowMap(t.value.ids, t.value.rows) == Restricted(RowMap(s.ids, s.rows), requested)
            && t.value.second.Some? == s.second.Some?
            && (s.second.Some? ==>
                  RowMap(t.value.ids, t.value.second.value) == Restricted(RowMap(s.ids, s.second.value), requested))
  {
    hide Distinct, IndexOf;
    AllKnown(requested, s.ids);
    hide Known;
    assert PruneIndex(s.ids, requested) == Positions(s.ids, requested);
    GatherIsRestriction(s.ids, s.rows, requested);
    if s.second.Some? { GatherIsRestriction(s.ids, s.second.value, requested); }
    hide Positions, Gather, PruneIndex, RowMap;
    if requested == s.ids {
      RestrictedToAll(s.ids, RowMap(s.ids, s.rows));
      if s.second.Some? { RestrictedToAll(s.ids, RowMap(s.ids, s.second.value)); }
    }
  }

  lemma RestrictedToAll<Row>(ids: seq<nat>, m: map<nat, Row>)
    requires forall id | id in m :: id in ids
    ensures Restricted(m, ids) == m
  {
  }

  /** Pruning keeps rows and ids matched exactly when every requested sequence is known;
      otherwise padding rows without an id are left behind, or there is no row to pad
      with. */
  lemma PruneReadyIff<Row>(s: State<Row>, requested: seq<nat>)
    requires Ready(s) && Distinct(requested)
    ensures Pruned(s, requested).None? <==> s.ids == [] && requested != []
    ensures Pruned(s, requested).Some? && Ready(Pruned(s, requested).value) <==>
      forall id | id in requested :: id in s.ids
  {
    hide RowMap, Gather, IndexOf, Distinct;
    if forall id | id in requested :: id in s.ids {
      PruneRefines(s, requested);
    } else {
      var id :| id in requested && id !in s.ids;
      SomeUnknown(requested, s.ids, id);
      PruneIndexable(s.ids, requested);
    }
  }

  lemma PruneIndexable(ids: seq<nat>, requested: seq<nat>)
    ensures Indexable(|ids|, PruneIndex(ids, requested)) <==> ids != [] || requested == []
    ensures |PruneIndex(ids, requested)| == |requested|
  {
    hide IndexOf;
    if ids == [] && requested != [] {
      var known := Known(requested, ids);
      assert known != [] ==> known[0] in known;
      assert PruneIndex(ids, requested)[0] == -1;
    }
  }

  predicate Mapped<Row>(ids: seq<nat>, m: map<nat, Row>) {
    forall i :: 0 <= i < |ids| ==> ids[i] in m
  }

  /** The rows of the first k ids in order, each preceded by its second-last row if it has
      a bonus token. */
  function Interleaved<Row>(
      ids: seq<nat>, rows: map<nat, Row>, second: map<nat, Row>, bonus: set<nat>, k: nat): seq<Row>
    requires Mapped(ids, rows) && Mapped(ids, second) && k <= |ids|
  {
    if k == 0 then []
    else
      var id := ids[k - 1];
      Extended(Interleaved(ids, rows, second, bonus, k - 1), id in bonus, second[id], rows[id])
  }

  lemma GatherOne<Row>(rows: seq<Row>, index: seq<int>, i: nat)
    requires Indexable(|rows|, index) && i < |rows|
    ensures Indexable(|rows|, index + [i])
    ensures Gather(rows, index + [i]) == Gather(rows, index) + [rows[i]]
  {
  }

  lemma GatherStep<Row>(rows: seq<Row>, index: seq<int>, bonus: bool, b: nat, i: nat)
    requires Indexable(|rows|, index) && i < |rows| && b < |rows|
    ensures Indexable(|rows|, Extended(index, bonus, b, i))
    ensures Gather(rows, Extended(index, bonus, b, i)) == Extended(Gather(rows, index), bonus, rows[b], rows[i])
  {
    hide Indexable, Gather;
    if bonus {
      GatherOne(rows, index, b);
      GatherOne(rows, index + [b], i);
      assert index + [b, i] == index + [b] + [i];
      assert Gather(rows, index) + [rows[b], rows[i]] == Gather(rows, index) + [rows[b]] + [rows[i]];
    } else {
      GatherOne(rows, index, i);
    }
  }

  /** The maps hold the rows, and the second-last rows after them, by id. */
  ghost predicate HoldBoth<Row>(ids: seq<nat>, both: seq<Row>, rows: map<nat, Row>, second: map<nat, Row>)
    requires Mapped(ids, rows) && Mapped(ids, second) && |both| == 2 * |ids|
  {
    forall i :: 0 <= i < |ids| ==> rows[ids[i]] == both[i] && second[ids[i]] == both[i + |ids|]
  }

  lemma {:induction false} ExpandedPrefix<Row>(
    ids: seq<nat>, both: seq<Row>, rows: map<nat, Row>, second: map<nat, Row>, bonus: set<nat>, k: nat)
    requires Distinct(ids) && |both| == 2 * |ids| && k <= |ids|
    requires Mapped(ids, rows) && Mapped(ids, second) && HoldBoth(ids, both, rows, second)
    ensures Gather(both, BonusIndex(ids, bonus, k)) == Interleaved(ids, rows, second, bonus, k)
  {
    hide IndexOf, Extended, HoldBoth, Distinct, Mapped;
    if k > 0 {
      hide Gather, Indexable;
      ExpandedPrefix(ids, both, rows, second, bonus, k - 1);
      BonusAt(ids, both, rows, second, k - 1);
      GatherStep(both, BonusIndex(ids, bonus, k - 1), ids[k - 1] in bonus, k - 1 + |ids|, k - 1);
    }
  }

  lemma BonusAt<Row>(ids: seq<nat>, both: seq<Row>, rows: map<nat, Row>, second: map<nat, Row>, k: nat)
    requires Distinct(ids) && |both| == 2 * |ids| && k < |ids|
    requires Mapped(ids, rows) && Mapped(ids, second) && HoldBoth(ids, both, rows, second)
    ensures ids[k] in rows && ids[k] in second
    ensures rows[ids[k]] == both[k] && second[ids[k]] == both[k + |ids|] && IndexOf(ids, ids[k]) == k
  {
    IndexOfDistinct(ids, k);
  }

  lemma ExpandedRows<Row>(s: State<Row>, bonus: set<nat>)
    requires Ready(s) && s.second.Some?
    ensures Gather(s.rows + s.second.value, BonusIndex(s.ids, bonus, |s.ids|))
         == Interleaved(s.ids, RowMap(s.ids, s.rows), RowMap(s.ids, s.second.value), bonus, |s.ids|)
  {
    RowMapAt(s.ids, s.rows);
    RowMapAt(s.ids, s.second.value);
    hide IndexOf, RowMap, Gather, Interleaved, BonusIndex, Distinct, Indexable;
    ExpandedPrefix(s.ids, s.rows + s.second.value, RowMap(s.ids, s.rows), RowMap(s.ids, s.second.value), bonus,
        |s.ids|);
  }

  lemma WithoutBonus<Row>(s: State<Row>)
    requires Ready(s) && s.second.Some?
    ensures Interleaved(s.ids, RowMap(s.ids, s.rows), RowMap(s.ids, s.second.value), {}, |s.ids|) == s.rows
  {
    RowMapAt(s.ids, s.rows);
    hide IndexOf, RowMap, Interleaved, Distinct;
    NoBonus(s.ids, s.rows, RowMap(s.ids, s.rows), RowMap(s.ids, s.second.value), |s.ids|);
  }

  /** Expansion yields, in the order of the ids, every row, preceded by the second-last row
      exactly for the sequences with a bonus token. */
  lemma ExpandedMeaning<Row>(s: State<Row>, bonus: set<nat>)
    requires Ready(s) && s.second.Some?
    ensures var t := Expanded(s, bonus);
            && t.Some? && t.value.ids == s.ids && t.value.second == s.second
            && t.value.rows == Interleaved(s.ids, RowMap(s.ids, s.rows), RowMap(s.ids, s.second.value), bonus, |s.ids|)
  {
    hide IndexOf, RowMap, Gather, Interleaved, BonusIndex, Distinct, Indexable;
    ExpandedRows(s, bonus);
    WithoutBonus(s);
  }

  lemma {:induction false} NoBonus<Row>(
      ids: seq<nat>, values: seq<Row>, rows: map<nat, Row>, second: map<nat, Row>, k: nat)
    requires Mapped(ids, rows) && Mapped(ids, second) && k <= |ids| == |values|
    requires forall i :: 0 <= i < |ids| ==> rows[ids[i]] == values[i]
    ensures Interleaved(ids, rows, second, {}, k) == values[..k]
  {
    if k > 0 { NoBonus(ids, values, rows, second, k - 1); }
  }

  // ------------------------------------------------------------------------------- Runs

  datatype Op<Row> =
    | UpdateOp(rows: seq<Row>, groups: seq<seq<nat>>, second: Option<seq<Row>>)
    | PruneOp(requested: seq<nat>)

  /** What callers keep to: new sequences come with their rows, and only known sequences
      are kept. */
  predicate Allowed<Row>(s: State<Row>, op: Op<Row>) {
    match op
    case UpdateOp(rows, groups, second) => Delivers(s, rows, groups, second)
    case PruneOp(requested) => Distinct(requested) && forall id | id in requested :: id in s.ids
  }

  function Apply<Row>(s: State<Row>, op: Op<Row>, zero: Row): State<Row> {
    match op
    case UpdateOp(rows, groups, second) => Updated(s, rows, groups, second, zero)
    case PruneOp(requested) =>
      var t := Pruned(s, requested);
      if t.Some? then t.value else s
  }

  predicate IsRun<Row>(s: State<Row>, ops: seq<Op<Row>>, zero: Row)
    decreases |ops|
  {
    ops != [] ==> Allowed(s, ops[0]) && IsRun(Apply(s, ops[0], zero), ops[1..], zero)
  }

  function AfterRun<Row>(s: State<Row>, ops: seq<Op<Row>>, zero: Row): State<Row>
    decreases |ops|
  {
    if ops == [] then s else AfterRun(Apply(s, ops[0], zero), ops[1..], zero)
  }

  /** The rows an update delivers for its new sequences, or the second-last rows. */
  function Delivered<Row>(op: Op<Row>, second: bool, zero: Row): (r: seq<Row>)
    requires op.UpdateOp?
    ensures |r| == |GetAllSeqIds(op.groups)|
  {
    var added := GetAllSeqIds(op.groups);
    var rows :=
      if !second then Truncated(op.rows, |op.groups|)
      else if op.second.Some? then op.second.value
      else [];
    if |rows| == |added| then rows else seq(|added|, _ => zero)
  }

  /** The same run on a plain map: add the delivered rows, forget what is not requested. */
  function MapRun<Row>(m: map<nat, Row>, ops: seq<Op<Row>>, second: bool, zero: Row): map<nat, Row>
    decreases |ops|
  {
    if ops == [] then m
    else MapRun(MapStep(m, ops[0], second, zero), ops[1..], second, zero)
  }

  function MapStep<Row>(m: map<nat, Row>, op: Op<Row>, second: bool, zero: Row): map<nat, Row> {
    match op
    case UpdateOp(_, groups, _) => m + RowMap(GetAllSeqIds(groups), Delivered(op, second, zero))
    case PruneOp(requested) => Restricted(m, requested)
  }

  lemma StepRefinesMap<Row>(s: State<Row>, op: Op<Row>, zero: Row)
    requires Ready(s) && Allowed(s, op)
    ensures var t := Apply(s, op, zero);
            && Ready(t) && t.second.Some? == s.second.Some?
            && RowMap(t.ids, t.rows) == MapStep(RowMap(s.ids, s.rows), op, false, zero)
            && (s.second.Some? ==>
                  RowMap(t.ids, t.second.value) == MapStep(RowMap(s.ids, s.second.value), op, true, zero))
  {
    hide RowMap, Restricted, Updated, Pruned, Distinct;
    match op {
      case UpdateOp(rows, groups, second) =>
        UpdateRefines(s, rows, groups, second, zero);
        assert second.None? ==> Delivered(op, true, zero) == seq(|GetAllSeqIds(groups)|, _ => zero);
      case PruneOp(requested) =>
        PruneRefines(s, requested);
    }
  }

  /** Over any run, finding a sequence's row by position is looking it up in the map, for
      the rows and for the second-last rows. */
  lemma {:induction false} RunRefinesMap<Row>(s: State<Row>, ops: seq<Op<Row>>, zero: Row)
    requires Ready(s) && IsRun(s, ops, zero)
    ensures var t := AfterRun(s, ops, zero);
            && Ready(t) && t.second.Some? == s.second.Some?
            && RowMap(t.ids, t.rows) == MapRun(RowMap(s.ids, s.rows), ops, false, zero)
            && (s.second.Some? ==>
                  RowMap(t.ids, t.second.value) == MapRun(RowMap(s.ids, s.second.value), ops, true, zero))
    decreases |ops|
  {
    hide RowMap, Apply, MapStep, Ready, Allowed;
    if ops != [] {
      StepRefinesMap(s, ops[0], zero);
      RunRefinesMap(Apply(s, ops[0], zero), ops[1..], zero);
    }
  }
}
