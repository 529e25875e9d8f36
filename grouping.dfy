/** Grouping into an insertion-ordered JavaScript `Map`, as the bar and pie charts do: each item
    adds its amount to the entry for its key, creating the entry at the end when the key is new.
    GroupAll is the specification the chart loops are proved against, and the lemmas below tie it
    to independent definitions: which keys occur, what each group sums, and in which order the
    groups come. */
module Grouping {

  /** One map entry: its key, the sum of the amounts and the number of items added to it. */
  datatype Group = Group(key: string, total: int, count: nat)

  /** An item to group: its key and its amount. */
  type Item = (string, int)

  /** `map.set(k, (map.get(k) ?? zero) + a)`: updates an existing entry in place, or appends. */
  function Add(gs: seq<Group>, k: string, a: int): seq<Group> {
    if gs == [] then [Group(k, a, 1)]
    else if gs[0].key == k then [Group(k, gs[0].total + a, gs[0].count + 1)] + gs[1..]
    else [gs[0]] + Add(gs[1..], k, a)
  }

  /** The map after adding every item, in order. */
  function GroupAll(items: seq<Item>): seq<Group> {
    if items == [] then []
    else
      var last := items[|items| - 1];
      Add(GroupAll(items[..|items| - 1]), last.0, last.1)
  }

  predicate DistinctKeys(gs: seq<Group>) {
    forall i, j :: 0 <= i < j < |gs| ==> gs[i].key != gs[j].key
  }

  predicate HasKey(gs: seq<Group>, k: string) {
    exists j :: 0 <= j < |gs| && gs[j].key == k
  }

  predicate ItemsHaveKey(items: seq<Item>, k: string) {
    exists i :: 0 <= i < |items| && items[i].0 == k
  }

  /** The sum of the amounts of the items with key k. */
  function SumOfKey(items: seq<Item>, k: string): int {
    if items == [] then 0
    else
      var last := items[|items| - 1];
      SumOfKey(items[..|items| - 1], k) + (if last.0 == k then last.1 else 0)
  }

  /** The number of items with key k. */
  function CountOfKey(items: seq<Item>, k: string): nat {
    if items == [] then 0
    else CountOfKey(items[..|items| - 1], k) + (if items[|items| - 1].0 == k then 1 else 0)
  }

  function SumAll(items: seq<Item>): int {
    if items == [] then 0 else SumAll(items[..|items| - 1]) + items[|items| - 1].1
  }

  function Totals(gs: seq<Group>): int {
    if gs == [] then 0 else gs[0].total + Totals(gs[1..])
  }

  function Counts(gs: seq<Group>): int {
    if gs == [] then 0 else gs[0].count + Counts(gs[1..])
  }

  /** The position of the first item with key k, or |items| when there is none. */
  function FirstIndex(items: seq<Item>, k: string): (r: nat)
    ensures r <= |items|
    ensures r < |items| ==> items[r].0 == k
    ensures forall i :: 0 <= i < r ==> items[i].0 != k
  {
    if items == [] then 0
    else
      var n := |items| - 1;
      var p := FirstIndex(items[..n], k);
      if p < n then p else if items[n].0 == k then n else n + 1
  }

  // ---------------------------------------------------------------------------------------
  // One step

  lemma {:induction false} AddExisting(gs: seq<Group>, k: string, a: int, j: int)
    requires DistinctKeys(gs) && 0 <= j < |gs| && gs[j].key == k
    ensures Add(gs, k, a) == gs[j := Group(k, gs[j].total + a, gs[j].count + 1)]
  {
    if j > 0 {
      AddExisting(gs[1..], k, a, j - 1);
      assert gs[1..][j - 1 := Group(k, gs[j].total + a, gs[j].count + 1)]
          == gs[j := Group(k, gs[j].total + a, gs[j].count + 1)][1..];
    }
  }

  lemma {:induction false} AddNew(gs: seq<Group>, k: string, a: int)
    requires !HasKey(gs, k)
    ensures Add(gs, k, a) == gs + [Group(k, a, 1)]
  {
    if gs != [] {
      assert gs[0].key != k;
      assert !HasKey(gs[1..], k);
      AddNew(gs[1..], k, a);
      assert [gs[0]] + (gs[1..] + [Group(k, a, 1)]) == gs + [Group(k, a, 1)];
    }
  }

  lemma {:induction false} AddSums(gs: seq<Group>, k: string, a: int)
    ensures Totals(Add(gs, k, a)) == Totals(gs) + a
    ensures Counts(Add(gs, k, a)) == Counts(gs) + 1
  {
    if gs != [] && gs[0].key != k {
      AddSums(gs[1..], k, a);
      assert Add(gs, k, a)[1..] == Add(gs[1..], k, a);
    } else if gs != [] {
      assert Add(gs, k, a)[1..] == gs[1..];
    }
  }

  lemma PrefixOfExtended(items: seq<Item>, x: Item)
    ensures (items + [x])[..|items|] == items
  {
  }

  lemma {:induction false} AbsentKey(items: seq<Item>, k: string)
    requires !ItemsHaveKey(items, k)
    ensures SumOfKey(items, k) == 0 && CountOfKey(items, k) == 0
  {
    if items != [] {
      var n := |items| - 1;
      assert items[n].0 != k;
      assert !ItemsHaveKey(items[..n], k);
      AbsentKey(items[..n], k);
    }
  }

  // ---------------------------------------------------------------------------------------
  // The whole grouping

  lemma ItemsHaveKeyExtend(items: seq<Item>, k: string)
    requires items != []
    ensures ItemsHaveKey(items, k)
        <==> ItemsHaveKey(items[..|items| - 1], k) || items[|items| - 1].0 == k
  {
    var n := |items| - 1;
    if ItemsHaveKey(items, k) && items[n].0 != k {
      var i :| 0 <= i < |items| && items[i].0 == k;
      assert items[..n][i].0 == k;
    }
    if ItemsHaveKey(items[..n], k) {
      var i :| 0 <= i < n && items[..n][i].0 == k;
      assert items[i].0 == k;
    }
  }

  lemma HasKeyUpdate(g: seq<Group>, j: int, grp: Group, k: string)
    requires 0 <= j < |g| && grp.key == g[j].key
    ensures HasKey(g[j := grp], k) <==> HasKey(g, k)
  {
    var g' := g[j := grp];
    if HasKey(g, k) {
      var i :| 0 <= i < |g| && g[i].key == k;
      assert g'[i].key == k;
    }
    if HasKey(g', k) {
      var i :| 0 <= i < |g'| && g'[i].key == k;
      assert g[i].key == k;
    }
  }

  lemma HasKeyAppend(g: seq<Group>, grp: Group, k: string)
    ensures HasKey(g + [grp], k) <==> HasKey(g, k) || grp.key == k
  {
    var g' := g + [grp];
    assert g'[|g|] == grp;
    if HasKey(g', k) && grp.key != k {
      var i :| 0 <= i < |g'| && g'[i].key == k;
      assert g[i].key == k;
    }
    if HasKey(g, k) {
      var i :| 0 <= i < |g| && g[i].key == k;
      assert g'[i].key == k;
    }
  }

  /** Keys are distinct, and a key has a group exactly when some item has that key. */
  lemma {:induction false} GroupAllKeys(items: seq<Item>)
    ensures DistinctKeys(GroupAll(items))
    ensures forall k :: HasKey(GroupAll(items), k) <==> ItemsHaveKey(items, k)
  {
    if items != [] {
      var n := |items| - 1;
      var prefix := items[..n];
      var (k, a) := items[n];
      var g := GroupAll(prefix);
      GroupAllKeys(prefix);
      forall k' {
        ItemsHaveKeyExtend(items, k');
      }
      if HasKey(g, k) {
        var j :| 0 <= j < |g| && g[j].key == k;
        AddExisting(g, k, a, j);
        var grp := Group(k, g[j].total + a, g[j].count + 1);
        forall k' {
          HasKeyUpdate(g, j, grp, k');
        }
      } else {
        AddNew(g, k, a);
        var grp := Group(k, a, 1);
        forall k' {
          HasKeyAppend(g, grp, k');
        }
        assert (g + [grp])[|g|].key == k;
      }
    }
  }

  /** Every group holds the sum and the number of the items with its key. */
  lemma {:induction false} GroupAllTotals(items: seq<Item>)
    ensures forall j :: 0 <= j < |GroupAll(items)| ==>
      GroupAll(items)[j].total == SumOfKey(items, GroupAll(items)[j].key)
      && GroupAll(items)[j].count == CountOfKey(items, GroupAll(items)[j].key)
  {
    if items != [] {
      var n := |items| - 1;
      var prefix := items[..n];
      var (k, a) := items[n];
      var g := GroupAll(prefix);
      GroupAllTotals(prefix);
      GroupAllKeys(prefix);
      if HasKey(g, k) {
        var j :| 0 <= j < |g| && g[j].key == k;
        AddExisting(g, k, a, j);
      } else {
        AddNew(g, k, a);
        assert !ItemsHaveKey(prefix, k);
        AbsentKey(prefix, k);
      }
    }
  }

  /** The groups' keys appear among the items, in the order of their first appearance. */
  predicate InFirstAppearanceOrder(items: seq<Item>, gs: seq<Group>) {
    (forall j :: 0 <= j < |gs| ==> FirstIndex(items, gs[j].key) < |items|)
    && (forall j1, j2 :: 0 <= j1 < j2 < |gs| ==>
          FirstIndex(items, gs[j1].key) < FirstIndex(items, gs[j2].key))
  }

  /** The groups come in the order in which their keys first appear among the items. */
  lemma {:induction false} GroupAllOrder(items: seq<Item>)
    ensures InFirstAppearanceOrder(items, GroupAll(items))
  {
    if items != [] {
      var n := |items| - 1;
      var prefix := items[..n];
      var (k, a) := items[n];
      var g := GroupAll(prefix);
      GroupAllOrder(prefix);
      GroupAllKeys(prefix);
      if HasKey(g, k) {
        var j :| 0 <= j < |g| && g[j].key == k;
        AddExisting(g, k, a, j);
        OrderAfterUpdate(items, g, j, Group(k, g[j].total + a, g[j].count + 1));
      } else {
        AddNew(g, k, a);
        OrderAfterAppend(items, g, Group(k, a, 1));
      }
    }
  }

  lemma OrderAfterUpdate(items: seq<Item>, g: seq<Group>, j: int, grp: Group)
    requires items != [] && 0 <= j < |g| && grp.key == g[j].key
    requires InFirstAppearanceOrder(items[..|items| - 1], g)
    ensures InFirstAppearanceOrder(items, g[j := grp])
  {
    var g' := g[j := grp];
    forall i | 0 <= i < |g'|
      ensures g'[i].key == g[i].key
      ensures FirstIndex(items, g'[i].key) == FirstIndex(items[..|items| - 1], g[i].key)
    {
      FirstIndexExtend(items, g[i].key);
    }
  }

  lemma OrderAfterAppend(items: seq<Item>, g: seq<Group>, grp: Group)
    requires items != [] && items[|items| - 1].0 == grp.key
    requires !ItemsHaveKey(items[..|items| - 1], grp.key)
    requires InFirstAppearanceOrder(items[..|items| - 1], g)
    ensures InFirstAppearanceOrder(items, g + [grp])
  {
    var n := |items| - 1;
    var g' := g + [grp];
    forall i | 0 <= i < |g|
      ensures g'[i].key == g[i].key
      ensures FirstIndex(items, g'[i].key) == FirstIndex(items[..n], g[i].key)
    {
      FirstIndexExtend(items, g[i].key);
    }
    assert FirstIndex(items[..n], grp.key) == n;
    assert FirstIndex(items, g'[|g|].key) == n;
  }

  lemma FirstIndexExtend(items: seq<Item>, k: string)
    requires items != [] && FirstIndex(items[..|items| - 1], k) < |items| - 1
    ensures FirstIndex(items, k) == FirstIndex(items[..|items| - 1], k)
  {
  }

  /** The groups together hold every item's amount, counted once. */
  lemma {:induction false} GroupAllSums(items: seq<Item>)
    ensures Totals(GroupAll(items)) == SumAll(items)
    ensures Counts(GroupAll(items)) == |items|
  {
    if items != [] {
      var n := |items| - 1;
      GroupAllSums(items[..n]);
      AddSums(GroupAll(items[..n]), items[n].0, items[n].1);
    }
  }
}
