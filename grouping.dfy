/**
 * The per-status and per-type breakdown shared by the CSV and PDF reports: one pass over
 * the assets that keeps, for every key in the order it is first met, how many assets have
 * it and their summed value, plus a running inventory total. The JavaScript `Map` is a
 * sequence of entries in insertion order.
 */
module Grouping {
  import opened Numbers
  import opened Seqs
  import opened AssetModel

  /** What the report groups by. */
  datatype GroupField = ByStatus | ByType

  function KeyOf(field: GroupField, a: Asset): string {
    match field
    case ByStatus => a.status
    case ByType => a.assetType
  }

  /** `a => key(a) === k`. */
  function HasKey(field: GroupField, k: string): Asset -> bool {
    (a: Asset) => KeyOf(field, a) == k
  }

  /** One map entry: the key with its `{ count, value }`. */
  datatype Group = Group(key: string, count: nat, value: real)

  function GroupCount(g: Group): real { g.count as real }

  function GroupValue(g: Group): real { g.value }

  predicate DistinctKeys(groups: seq<Group>) {
    forall i, j :: 0 <= i < j < |groups| ==> groups[i].key != groups[j].key
  }

  /** Where `map.has(k)` finds its entry, or -1. */
  function IndexOfKey(groups: seq<Group>, k: string): (i: int)
    ensures -1 <= i < |groups|
    ensures i >= 0 ==> groups[i].key == k
    ensures i == -1 <==> forall j :: 0 <= j < |groups| ==> groups[j].key != k
  {
    if groups == [] then -1
    else if groups[0].key == k then 0
    else
      var r := IndexOfKey(groups[1..], k);
      assert forall j :: 1 <= j < |groups| ==> groups[j] == groups[1..][j - 1];
      if r == -1 then -1 else r + 1
  }

  /** Counting one asset of key `k` and value `v`: bump an existing entry, or add a new one at the end. */
  function Tally(groups: seq<Group>, k: string, v: real): (r: seq<Group>)
    ensures var i := IndexOfKey(groups, k);
      i >= 0 ==>
        |r| == |groups| && r[i] == Group(k, groups[i].count + 1, groups[i].value + v)
        && forall j :: 0 <= j < |groups| && j != i ==> r[j] == groups[j]
    ensures IndexOfKey(groups, k) == -1 ==> r == groups + [Group(k, 1, v)]
  {
    var i := IndexOfKey(groups, k);
    if i >= 0 then groups[i := Group(k, groups[i].count + 1, groups[i].value + v)]
    else groups + [Group(k, 1, v)]
  }

  /** The entries after the whole pass. */
  function Grouped(assets: seq<Asset>, field: GroupField): seq<Group>
  {
    if assets == [] then []
    else
      var last := assets[|assets| - 1];
      Tally(Grouped(assets[..|assets| - 1], field), KeyOf(field, last), OriginalValue(last))
  }

  /** Counts grow by one and values by `v`. */
  lemma TallySums(groups: seq<Group>, k: string, v: real)
    ensures SumBy(Tally(groups, k, v), GroupCount) == SumBy(groups, GroupCount) + 1.0
    ensures SumBy(Tally(groups, k, v), GroupValue) == SumBy(groups, GroupValue) + v
  {
    var i := IndexOfKey(groups, k);
    if i >= 0 {
      var g := Group(k, groups[i].count + 1, groups[i].value + v);
      SumByUpdate(groups, i, g, GroupCount);
      SumByUpdate(groups, i, g, GroupValue);
    } else {
      SumByAppend(groups, Group(k, 1, v), GroupCount);
      SumByAppend(groups, Group(k, 1, v), GroupValue);
    }
  }

  /** The per-group counts add up to the number of assets and the per-group values to the inventory value. */
  lemma {:induction false} GroupedSums(assets: seq<Asset>, field: GroupField)
    ensures SumBy(Grouped(assets, field), GroupCount) == |assets| as real
    ensures SumBy(Grouped(assets, field), GroupValue) == TotalValue(assets)
  {
    if assets != [] {
      var n := |assets| - 1;
      GroupedSums(assets[..n], field);
      TallySums(Grouped(assets[..n], field), KeyOf(field, assets[n]), OriginalValue(assets[n]));
    }
  }

  /** How many assets have key `k`: the count column computed independently. */
  function CountOf(assets: seq<Asset>, field: GroupField, k: string): nat {
    |Filter(assets, HasKey(field, k))|
  }

  /** The total value of the assets with key `k`. */
  function ValueOf(assets: seq<Asset>, field: GroupField, k: string): real {
    TotalValue(Filter(assets, HasKey(field, k)))
  }

  /** An entry that holds the count and value of its key's assets. */
  predicate Exact(assets: seq<Asset>, field: GroupField, g: Group) {
    g.count == CountOf(assets, field, g.key) && g.value == ValueOf(assets, field, g.key)
  }

  /** Tallying keeps keys distinct and in place, and leaves `k` present. */
  lemma TallyKeys(groups: seq<Group>, k: string, v: real)
    requires DistinctKeys(groups)
    ensures DistinctKeys(Tally(groups, k, v))
    ensures IndexOfKey(Tally(groups, k, v), k) >= 0
    ensures forall j :: 0 <= j < |groups| ==> Tally(groups, k, v)[j].key == groups[j].key
  {
    var r := Tally(groups, k, v);
    var i := IndexOfKey(groups, k);
    if i >= 0 {
      assert r[i].key == k;
    } else {
      assert r[|groups|].key == k;
    }
  }

  /** Adding one asset of another key changes neither the count nor the value of `k`. */
  lemma AppendOtherKey(prefix: seq<Asset>, last: Asset, field: GroupField, k: string)
    requires KeyOf(field, last) != k
    ensures CountOf(prefix + [last], field, k) == CountOf(prefix, field, k)
    ensures ValueOf(prefix + [last], field, k) == ValueOf(prefix, field, k)
  {
    FilterAppend(prefix, last, HasKey(field, k));
    assert Filter(prefix + [last], HasKey(field, k)) == Filter(prefix, HasKey(field, k));
  }

  /** Adding one asset of key `k` adds one to its count and its value to the key's value. */
  lemma AppendSameKey(prefix: seq<Asset>, last: Asset, field: GroupField, k: string)
    requires KeyOf(field, last) == k
    ensures CountOf(prefix + [last], field, k) == CountOf(prefix, field, k) + 1
    ensures ValueOf(prefix + [last], field, k) == ValueOf(prefix, field, k) + OriginalValue(last)
  {
    FilterAppend(prefix, last, HasKey(field, k));
    SumByAppend(Filter(prefix, HasKey(field, k)), last, OriginalValue);
  }

  /** A key no asset has counts zero and is worth zero. */
  lemma AbsentKey(assets: seq<Asset>, field: GroupField, k: string)
    requires forall a | a in assets :: KeyOf(field, a) != k
    ensures CountOf(assets, field, k) == 0 && ValueOf(assets, field, k) == 0.0
  {
    FilterNone(assets, HasKey(field, k));
  }

  /** Keys are distinct and every asset's key has an entry. */
  lemma {:induction false} GroupedKeys(assets: seq<Asset>, field: GroupField)
    ensures DistinctKeys(Grouped(assets, field))
    ensures forall a | a in assets :: IndexOfKey(Grouped(assets, field), KeyOf(field, a)) >= 0
  {
    if assets != [] {
      var n := |assets| - 1;
      var prefix, last := assets[..n], assets[n];
      GroupedKeys(prefix, field);
      var before := Grouped(prefix, field);
      TallyKeys(before, KeyOf(field, last), OriginalValue(last));
      forall a | a in assets
        ensures IndexOfKey(Grouped(assets, field), KeyOf(field, a)) >= 0
      {
        if a != last {
          assert a in prefix by {
            assert assets == prefix + [last];
          }
          var i := IndexOfKey(before, KeyOf(field, a));
          assert Grouped(assets, field)[i].key == KeyOf(field, a);
        }
      }
    }
  }

  /** Where the pass first meets an asset of key `k`, or -1. */
  function FirstWithKey(assets: seq<Asset>, field: GroupField, k: string): (i: int)
    ensures -1 <= i < |assets|
    ensures i == -1 <==> forall j :: 0 <= j < |assets| ==> KeyOf(field, assets[j]) != k
    ensures i >= 0 ==> KeyOf(field, assets[i]) == k && forall j :: 0 <= j < i ==> KeyOf(field, assets[j]) != k
  {
    if assets == [] then -1
    else
      var n := |assets| - 1;
      var r := FirstWithKey(assets[..n], field, k);
      assert forall j :: 0 <= j < n ==> assets[..n][j] == assets[j];
      if r >= 0 then r else if KeyOf(field, assets[n]) == k then n else -1
  }

  /** Meeting one more asset leaves the first position of a key already met unchanged. */
  lemma FirstWithKeyAppend(prefix: seq<Asset>, last: Asset, field: GroupField, k: string)
    ensures FirstWithKey(prefix + [last], field, k) ==
      if FirstWithKey(prefix, field, k) >= 0 then FirstWithKey(prefix, field, k)
      else if KeyOf(field, last) == k then |prefix| else -1
  {
    assert (prefix + [last])[..|prefix|] == prefix;
  }

  /** Each entry's key is met somewhere in the assets, and later than the previous entry's key. */
  predicate FirstSeenOrder(assets: seq<Asset>, field: GroupField, groups: seq<Group>) {
    (forall i :: 0 <= i < |groups| ==> FirstWithKey(assets, field, groups[i].key) >= 0)
    && forall i :: 0 < i < |groups| ==>
      FirstWithKey(assets, field, groups[i - 1].key) < FirstWithKey(assets, field, groups[i].key)
  }

  /** Bumping an existing entry keeps the keys, so their first-met order carries over. */
  lemma FirstSeenSameKeys(prefix: seq<Asset>, last: Asset, field: GroupField, before: seq<Group>, after: seq<Group>)
    requires FirstSeenOrder(prefix, field, before)
    requires |after| == |before| && forall i :: 0 <= i < |before| ==> after[i].key == before[i].key
    ensures FirstSeenOrder(prefix + [last], field, after)
  {
    forall i | 0 <= i < |before|
      ensures FirstWithKey(prefix + [last], field, after[i].key) == FirstWithKey(prefix, field, before[i].key)
    {
      FirstWithKeyAppend(prefix, last, field, before[i].key);
    }
  }

  /** A key met for the first time by the last asset goes after every entry already there. */
  lemma FirstSeenNewKey(prefix: seq<Asset>, last: Asset, field: GroupField, before: seq<Group>)
    requires FirstSeenOrder(prefix, field, before)
    requires FirstWithKey(prefix, field, KeyOf(field, last)) == -1
    ensures FirstSeenOrder(prefix + [last], field, before + [Group(KeyOf(field, last), 1, OriginalValue(last))])
  {
    var s, k := prefix + [last], KeyOf(field, last);
    var after := before + [Group(k, 1, OriginalValue(last))];
    FirstWithKeyAppend(prefix, last, field, k);
    assert after[|before|].key == k;
    forall i | 0 <= i < |before|
      ensures after[i].key == before[i].key
      ensures 0 <= FirstWithKey(s, field, after[i].key) == FirstWithKey(prefix, field, before[i].key) < |prefix|
    {
      FirstWithKeyAppend(prefix, last, field, before[i].key);
    }
    forall i | 0 < i < |after|
      ensures FirstWithKey(s, field, after[i - 1].key) < FirstWithKey(s, field, after[i].key)
    {
      if i < |before| {
        assert FirstWithKey(prefix, field, before[i - 1].key) < FirstWithKey(prefix, field, before[i].key);
      }
    }
  }

  /** The entries are in the order their keys are first met in the assets. */
  lemma {:induction false} GroupedFirstSeen(assets: seq<Asset>, field: GroupField)
    ensures FirstSeenOrder(assets, field, Grouped(assets, field))
  {
    if assets != [] {
      var n := |assets| - 1;
      var prefix, last := assets[..n], assets[n];
      var k := KeyOf(field, last);
      assert assets == prefix + [last];
      GroupedFirstSeen(prefix, field);
      GroupedKeys(prefix, field);
      var before := Grouped(prefix, field);
      TallyKeys(before, k, OriginalValue(last));
      if IndexOfKey(before, k) >= 0 {
        FirstSeenSameKeys(prefix, last, field, before, Tally(before, k, OriginalValue(last)));
      } else {
        assert forall j :: 0 <= j < |prefix| ==> KeyOf(field, prefix[j]) != k by {
          assert forall j :: 0 <= j < |prefix| ==> prefix[j] in prefix;
        }
        FirstSeenNewKey(prefix, last, field, before);
      }
    }
  }

  /** Every key of an entry is the key of some asset. */
  lemma {:induction false} GroupedKeysFromAssets(assets: seq<Asset>, field: GroupField)
    ensures forall g | g in Grouped(assets, field) :: exists a | a in assets :: KeyOf(field, a) == g.key
  {
    if assets != [] {
      var n := |assets| - 1;
      var prefix, last := assets[..n], assets[n];
      GroupedKeysFromAssets(prefix, field);
      assert assets == prefix + [last];
      var before := Grouped(prefix, field);
      var k := KeyOf(field, last);
      forall g | g in Grouped(assets, field)
        ensures exists a | a in assets :: KeyOf(field, a) == g.key
      {
        if g.key != k {
          var j :| 0 <= j < |Grouped(assets, field)| && Grouped(assets, field)[j] == g;
          assert before[j] in before;
          var a :| a in prefix && KeyOf(field, a) == g.key;
          assert a in assets;
        } else {
          assert last in assets;
        }
      }
    }
  }

  /** Tallying one more asset keeps every entry exact. */
  lemma TallyExact(prefix: seq<Asset>, last: Asset, field: GroupField)
    requires forall g | g in Grouped(prefix, field) :: Exact(prefix, field, g)
    requires forall a | a in prefix :: IndexOfKey(Grouped(prefix, field), KeyOf(field, a)) >= 0
    requires DistinctKeys(Grouped(prefix, field))
    ensures forall g | g in Tally(Grouped(prefix, field), KeyOf(field, last), OriginalValue(last)) ::
      Exact(prefix + [last], field, g)
  {
    var before := Grouped(prefix, field);
    var k := KeyOf(field, last);
    var r := Tally(before, k, OriginalValue(last));
    var i := IndexOfKey(before, k);
    forall j | 0 <= j < |r|
      ensures Exact(prefix + [last], field, r[j])
    {
      if r[j].key != k {
        AppendOtherKey(prefix, last, field, r[j].key);
        assert r[j] == before[j];
        assert before[j] in before;
      } else {
        AppendSameKey(prefix, last, field, k);
        if i == -1 {
          AbsentKey(prefix, field, k);
        } else {
          assert j == i;
          assert before[i] in before;
        }
      }
    }
  }

  /** Each entry holds the number and the total value of the assets with its key. */
  lemma {:induction false} GroupedExact(assets: seq<Asset>, field: GroupField)
    ensures forall g | g in Grouped(assets, field) :: Exact(assets, field, g)
  {
    if assets != [] {
      var n := |assets| - 1;
      GroupedExact(assets[..n], field);
      GroupedKeys(assets[..n], field);
      TallyExact(assets[..n], assets[n], field);
      assert assets == assets[..n] + [assets[n]];
    }
  }

  /** One more asset: the entries are tallied with it and the total grows by its value. */
  lemma GroupStep(assets: seq<Asset>, i: nat, field: GroupField)
    requires i < |assets|
    ensures Grouped(assets[..i + 1], field)
      == Tally(Grouped(assets[..i], field), KeyOf(field, assets[i]), OriginalValue(assets[i]))
    ensures TotalValue(assets[..i + 1]) == TotalValue(assets[..i]) + OriginalValue(assets[i])
  {
    assert assets[..i + 1][..i] == assets[..i];
    assert assets[..i + 1] == assets[..i] + [assets[i]];
    SumByAppend(assets[..i], assets[i], OriginalValue);
  }

  /** Everything the report relies on about the finished pass. */
  lemma GroupedFacts(assets: seq<Asset>, field: GroupField)
    ensures SumBy(Grouped(assets, field), GroupCount) == |assets| as real
    ensures SumBy(Grouped(assets, field), GroupValue) == TotalValue(assets)
    ensures DistinctKeys(Grouped(assets, field))
    ensures forall g | g in Grouped(assets, field) :: Exact(assets, field, g)
  {
    GroupedSums(assets, field);
    GroupedKeys(assets, field);
    GroupedExact(assets, field);
  }

  /** The two ways the loop body updates the map are what `Tally` does. */
  lemma TallyAt(groups: seq<Group>, k: string, v: real, j: int)
    requires j == IndexOfKey(groups, k)
    ensures j >= 0 ==> Tally(groups, k, v) == groups[j := Group(k, groups[j].count + 1, groups[j].value + v)]
    ensures j < 0 ==> Tally(groups, k, v) == groups + [Group(k, 1, v)]
  {
  }

  /**
   * The loop of the report services: walk the assets once, tallying each under its key and
   * adding its value to the running total.
   */
  method GroupAssets(assets: seq<Asset>, field: GroupField) returns (groups: seq<Group>, totalValue: real)
    ensures groups == Grouped(assets, field)
    ensures totalValue == TotalValue(assets)
    ensures SumBy(groups, GroupCount) == |assets| as real
    ensures SumBy(groups, GroupValue) == totalValue
    ensures DistinctKeys(groups)
    ensures forall g | g in groups :: Exact(assets, field, g)
  {
    groups := [];
    totalValue := 0.0;
    var i := 0;
    while i < |assets|
      invariant 0 <= i <= |assets|
      invariant groups == Grouped(assets[..i], field)
      invariant totalValue == TotalValue(assets[..i])
    {
      var asset := assets[i];
      var value := OriginalValue(asset);
      var key := KeyOf(field, asset);
      GroupStep(assets, i, field);
      totalValue := totalValue + value;
      var j := IndexOfKey(groups, key);
      TallyAt(groups, key, value, j);
      if j >= 0 {
        groups := groups[j := Group(key, groups[j].count + 1, groups[j].value + value)];
      } else {
        groups := groups + [Group(key, 1, value)];
      }
      i := i + 1;
    }
    assert assets[..i] == assets;
    GroupedFacts(assets, field);
  }

  /** `(value / totalValue) * 100` of one entry. */
  function Share(totalValue: real): Group -> real
    requires totalValue != 0.0
  {
    (g: Group) => g.value / totalValue * 100.0
  }

  lemma ScaleQuotient(a: real, t: real)
    requires t != 0.0
    ensures a / t * 100.0 == a * (100.0 / t)
    ensures t / t * 100.0 == 100.0
  {
  }

  /** Shares of entries whose values add up to a non-zero total add up to 100. */
  lemma SharesOfTotal(groups: seq<Group>, t: real)
    requires t != 0.0 && SumBy(groups, GroupValue) == t
    ensures SumBy(groups, Share(t)) == 100.0
  {
    forall g | g in groups
      ensures Share(t)(g) == GroupValue(g) * (100.0 / t)
    {
      ScaleQuotient(g.value, t);
    }
    SumByScale(groups, GroupValue, Share(t), 100.0 / t);
    ScaleQuotient(t, t);
  }

  /** When the inventory value is not zero, the percentage column adds up to 100. */
  lemma SharesSumTo100(assets: seq<Asset>, field: GroupField)
    requires TotalValue(assets) != 0.0
    ensures SumBy(Grouped(assets, field), Share(TotalValue(assets))) == 100.0
  {
    GroupedSums(assets, field);
    SharesOfTotal(Grouped(assets, field), TotalValue(assets));
  }
}
