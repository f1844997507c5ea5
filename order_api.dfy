/** The v6 order endpoint: one flat join query, regrouped in memory into one
    `OrderQueryDto` per distinct summary key, wrapped in a `Result` envelope.

    The regroup is `groupingBy(KeyOf, mapping(ItemOf, toList()))` followed by a
    stream over the resulting `HashMap`'s entries. The collector is modelled as a
    fold over the rows in encounter order (`Accumulate`); the order in which the
    `HashMap` yields its entries is not specified, so it is a parameter `ks` that
    is only required to enumerate the map's keys (`EntryOrder`), and every property
    below holds for every such order. */
module OrderApi {
  import opened Domain
  import opened OrderQueryDtos
  import opened ApiResult

  type Groups = map<OrderKey, seq<OrderItemQueryDto>>

  // ---------------------------------------------------------------------------
  // Reference definitions over the input rows
  // ---------------------------------------------------------------------------

  /** The keys of the rows. */
  function RowKeys(rows: seq<OrderFlatDto>): set<OrderKey>
  {
    if rows == [] then {} else {KeyOf(rows[0])} + RowKeys(rows[1..])
  }

  /** A key is a row key exactly when some row carries it. */
  lemma {:induction false} RowKeysMembership(rows: seq<OrderFlatDto>, k: OrderKey)
    ensures k in RowKeys(rows) <==> exists i :: 0 <= i < |rows| && KeyOf(rows[i]) == k
  {
    if rows != [] {
      RowKeysMembership(rows[1..], k);
      if exists i :: 0 <= i < |rows| && KeyOf(rows[i]) == k {
        var i :| 0 <= i < |rows| && KeyOf(rows[i]) == k;
        if i > 0 {
          assert KeyOf(rows[1..][i - 1]) == k;
        }
      }
      if k in RowKeys(rows[1..]) {
        var i :| 0 <= i < |rows[1..]| && KeyOf(rows[1..][i]) == k;
        assert KeyOf(rows[i + 1]) == k;
      }
    }
  }

  /** The items of the rows whose key is `k`, in input order. */
  function ItemsFor(rows: seq<OrderFlatDto>, k: OrderKey): (r: seq<OrderItemQueryDto>)
    ensures |r| <= |rows|
    ensures r == [] <==> k !in RowKeys(rows)
    ensures forall j :: 0 <= j < |r| ==> r[j].orderId == k.orderId
  {
    if rows == [] then []
    else (if KeyOf(rows[0]) == k then [ItemOf(rows[0])] else []) + ItemsFor(rows[1..], k)
  }

  /** The items of the rows whose key is in `keys`, in input order. */
  function ItemsIn(rows: seq<OrderFlatDto>, keys: set<OrderKey>): seq<OrderItemQueryDto>
  {
    if rows == [] then []
    else (if KeyOf(rows[0]) in keys then [ItemOf(rows[0])] else []) + ItemsIn(rows[1..], keys)
  }

  /** The item of every row, in input order. */
  function AllItems(rows: seq<OrderFlatDto>): (r: seq<OrderItemQueryDto>)
    ensures |r| == |rows|
    ensures forall i :: 0 <= i < |rows| ==> r[i] == ItemOf(rows[i])
  {
    if rows == [] then [] else [ItemOf(rows[0])] + AllItems(rows[1..])
  }

  /** The item lists of the summaries, one after the other. */
  function Flatten(ds: seq<OrderQueryDto>): seq<OrderItemQueryDto>
  {
    if ds == [] then [] else ds[0].orderItems + Flatten(ds[1..])
  }

  predicate Distinct(ks: seq<OrderKey>)
  {
    forall i, j :: 0 <= i < j < |ks| ==> ks[i] != ks[j]
  }

  // ---------------------------------------------------------------------------
  // The collector: groupingBy(KeyOf, mapping(ItemOf, toList()))
  // ---------------------------------------------------------------------------

  /** The list held under `k`, or the empty list a new key starts with. */
  function Lookup(m: Groups, k: OrderKey): seq<OrderItemQueryDto>
  {
    if k in m then m[k] else []
  }

  /** One accumulation step: the row's item goes to the end of its key's list,
      which is created on first use; every other list is left alone. */
  function AddRow(m: Groups, o: OrderFlatDto): (r: Groups)
    ensures r.Keys == m.Keys + {KeyOf(o)}
    ensures Lookup(r, KeyOf(o)) == Lookup(m, KeyOf(o)) + [ItemOf(o)]
    ensures forall k :: k != KeyOf(o) ==> Lookup(r, k) == Lookup(m, k)
  {
    m[KeyOf(o) := Lookup(m, KeyOf(o)) + [ItemOf(o)]]
  }

  /** The rows fed to the collector one at a time, in encounter order: the map
      gains exactly the rows' keys. */
  function Accumulate(m: Groups, rows: seq<OrderFlatDto>): (r: Groups)
    ensures r.Keys == m.Keys + RowKeys(rows)
    decreases |rows|
  {
    if rows == [] then m else Accumulate(AddRow(m, rows[0]), rows[1..])
  }

  /** The map the collector returns for the flat rows: one entry per distinct key. */
  function GroupingBy(flats: seq<OrderFlatDto>): (m: Groups)
    ensures m.Keys == RowKeys(flats)
  {
    Accumulate(map[], flats)
  }

  /** Folding rows into a map appends to the list of `k` exactly the items of the
      rows with key `k`, in input order. */
  lemma {:induction false} AccumulateList(m: Groups, rows: seq<OrderFlatDto>, k: OrderKey)
    ensures Lookup(Accumulate(m, rows), k) == Lookup(m, k) + ItemsFor(rows, k)
    decreases |rows|
  {
    if rows != [] {
      var m' := AddRow(m, rows[0]);
      var rest := rows[1..];
      AccumulateList(m', rest, k);
      assert Accumulate(m, rows) == Accumulate(m', rest);
      if KeyOf(rows[0]) == k {
        assert Lookup(m', k) == Lookup(m, k) + [ItemOf(rows[0])];
        assert ItemsFor(rows, k) == [ItemOf(rows[0])] + ItemsFor(rest, k);
      } else {
        assert Lookup(m', k) == Lookup(m, k);
        assert ItemsFor(rows, k) == ItemsFor(rest, k);
      }
    }
  }

  /** The grouping has one entry per distinct key of the rows, and that entry's list
      holds the items of exactly the rows with that key, in input order. */
  lemma GroupingBySpec(flats: seq<OrderFlatDto>)
    ensures GroupingBy(flats).Keys == RowKeys(flats)
    ensures forall k :: k in GroupingBy(flats) ==> GroupingBy(flats)[k] == ItemsFor(flats, k)
  {
    forall k | k in GroupingBy(flats) ensures GroupingBy(flats)[k] == ItemsFor(flats, k) {
      AccumulateList(map[], flats, k);
      assert Lookup(GroupingBy(flats), k) == Lookup(map[], k) + ItemsFor(flats, k);
    }
  }

  // ---------------------------------------------------------------------------
  // entrySet().stream().map(...).collect(toList())
  // ---------------------------------------------------------------------------

  /** `ks` is an order in which the map can yield its entries: every key once. */
  ghost predicate EntryOrder(m: Groups, ks: seq<OrderKey>)
  {
    Distinct(ks) && forall k :: k in m <==> k in ks
  }

  /** One summary per listed entry, in the listed order. */
  function CollectSummaries(m: Groups, ks: seq<OrderKey>): (r: seq<OrderQueryDto>)
    requires forall k :: k in ks ==> k in m
    ensures |r| == |ks|
    ensures forall i :: 0 <= i < |ks| ==> SummaryKey(r[i]) == ks[i] && r[i].orderItems == m[ks[i]]
  {
    if ks == [] then [] else [Summary(ks[0], m[ks[0]])] + CollectSummaries(m, ks[1..])
  }

  /** The list `ordersV6` wraps: the flat rows regrouped, entries in the order `ks`.
      Summary i carries key `ks[i]` and the items of exactly that key's rows, in input order. */
  function Regroup(flats: seq<OrderFlatDto>, ks: seq<OrderKey>): (r: seq<OrderQueryDto>)
    requires EntryOrder(GroupingBy(flats), ks)
    ensures |r| == |ks|
    ensures forall i :: 0 <= i < |r| ==> SummaryKey(r[i]) == ks[i] && r[i].orderItems == ItemsFor(flats, ks[i])
  {
    GroupingBySpec(flats);
    CollectSummaries(GroupingBy(flats), ks)
  }

  /** The keys, each once, in the order of their last row: one of the orders the map may use. */
  function KeysByLastRow(rows: seq<OrderFlatDto>): (ks: seq<OrderKey>)
    ensures Distinct(ks)
    ensures forall k :: k in ks <==> k in RowKeys(rows)
    decreases |rows|
  {
    if rows == [] then []
    else
      var rest := KeysByLastRow(rows[1..]);
      if KeyOf(rows[0]) in rest then rest
      else [KeyOf(rows[0])] + rest
  }

  /** Whatever the rows, an order in which the map yields its entries exists,
      so `Regroup` is defined for every input. */
  lemma EntryOrderExists(flats: seq<OrderFlatDto>)
    ensures EntryOrder(GroupingBy(flats), KeysByLastRow(flats))
  {
    GroupingBySpec(flats);
  }

  // ---------------------------------------------------------------------------
  // Properties of the regroup, for every entry order
  // ---------------------------------------------------------------------------

  /** Each summary carries the key of its entry, and its items are the items of exactly
      the rows with that key, in input order, copied unchanged; none is empty. */
  lemma RegroupGroups(flats: seq<OrderFlatDto>, ks: seq<OrderKey>)
    requires EntryOrder(GroupingBy(flats), ks)
    ensures forall i :: 0 <= i < |Regroup(flats, ks)| ==>
      var d := Regroup(flats, ks)[i];
      SummaryKey(d) == ks[i] && d.orderItems == ItemsFor(flats, ks[i]) && d.orderItems != []
  {
    GroupingBySpec(flats);
  }

  /** Every item of a summary has the summary's order id. */
  lemma RegroupItemOrderIds(flats: seq<OrderFlatDto>, ks: seq<OrderKey>)
    requires EntryOrder(GroupingBy(flats), ks)
    ensures forall i, j :: 0 <= i < |Regroup(flats, ks)| && 0 <= j < |Regroup(flats, ks)[i].orderItems| ==>
      Regroup(flats, ks)[i].orderItems[j].orderId == Regroup(flats, ks)[i].orderId
  {
    RegroupGroups(flats, ks);
  }

  /** No two summaries share a key. */
  lemma RegroupKeysDistinct(flats: seq<OrderFlatDto>, ks: seq<OrderKey>)
    requires EntryOrder(GroupingBy(flats), ks)
    ensures forall i, j :: 0 <= i < j < |Regroup(flats, ks)| ==>
      SummaryKey(Regroup(flats, ks)[i]) != SummaryKey(Regroup(flats, ks)[j])
  {
  }

  lemma {:induction false} DistinctCardinality(ks: seq<OrderKey>)
    requires Distinct(ks)
    ensures |set k | k in ks| == |ks|
  {
    if ks != [] {
      DistinctCardinality(ks[1..]);
      assert (set k | k in ks) == (set k | k in ks[1..]) + {ks[0]};
      assert ks[0] !in (set k | k in ks[1..]);
    }
  }

  lemma CollectedKeys(m: Groups, ks: seq<OrderKey>)
    requires forall k :: k in ks ==> k in m
    ensures (set d | d in CollectSummaries(m, ks) :: SummaryKey(d)) == set k | k in ks
  {
    var out := CollectSummaries(m, ks);
    forall k | k in ks ensures k in (set d | d in out :: SummaryKey(d)) {
      var i :| 0 <= i < |ks| && ks[i] == k;
      assert SummaryKey(out[i]) == k;
    }
  }

  /** The summaries' keys are exactly the rows' keys: no group is invented or lost,
      and there are as many summaries as distinct keys. */
  lemma RegroupKeySet(flats: seq<OrderFlatDto>, ks: seq<OrderKey>)
    requires EntryOrder(GroupingBy(flats), ks)
    ensures (set d | d in Regroup(flats, ks) :: SummaryKey(d)) == RowKeys(flats)
    ensures |Regroup(flats, ks)| == |RowKeys(flats)|
  {
    GroupingBySpec(flats);
    CollectedKeys(GroupingBy(flats), ks);
    assert (set k | k in ks) == RowKeys(flats);
    DistinctCardinality(ks);
  }

  /** No rows, no summaries. */
  lemma RegroupEmpty(ks: seq<OrderKey>)
    requires EntryOrder(GroupingBy([]), ks)
    ensures Regroup([], ks) == []
  {
    GroupingBySpec([]);
  }

  lemma {:induction false} ItemsInSplit(rows: seq<OrderFlatDto>, k: OrderKey, keys: set<OrderKey>)
    requires k !in keys
    ensures multiset(ItemsIn(rows, keys + {k})) == multiset(ItemsFor(rows, k)) + multiset(ItemsIn(rows, keys))
  {
    if rows != [] {
      var rest := rows[1..];
      ItemsInSplit(rest, k, keys);
      var here := [ItemOf(rows[0])];
      if KeyOf(rows[0]) == k {
        assert ItemsIn(rows, keys + {k}) == here + ItemsIn(rest, keys + {k});
        assert ItemsFor(rows, k) == here + ItemsFor(rest, k);
        assert ItemsIn(rows, keys) == ItemsIn(rest, keys);
      } else if KeyOf(rows[0]) in keys {
        assert ItemsIn(rows, keys + {k}) == here + ItemsIn(rest, keys + {k});
        assert ItemsFor(rows, k) == ItemsFor(rest, k);
        assert ItemsIn(rows, keys) == here + ItemsIn(rest, keys);
      } else {
        assert ItemsIn(rows, keys + {k}) == ItemsIn(rest, keys + {k});
        assert ItemsFor(rows, k) == ItemsFor(rest, k);
        assert ItemsIn(rows, keys) == ItemsIn(rest, keys);
      }
    }
  }

  lemma {:induction false} ItemsInCovering(rows: seq<OrderFlatDto>, keys: set<OrderKey>)
    requires RowKeys(rows) <= keys
    ensures ItemsIn(rows, keys) == AllItems(rows)
  {
    if rows != [] {
      ItemsInCovering(rows[1..], keys);
    }
  }

  lemma {:induction false} FlattenCollected(flats: seq<OrderFlatDto>, m: Groups, ks: seq<OrderKey>)
    requires Distinct(ks)
    requires forall k :: k in ks ==> k in m && m[k] == ItemsFor(flats, k)
    ensures multiset(Flatten(CollectSummaries(m, ks))) == multiset(ItemsIn(flats, set k | k in ks))
  {
    if ks == [] {
      assert (set k | k in ks) == {};
      EmptyItemsIn(flats);
    } else {
      var rest := ks[1..];
      var keys := set k | k in rest;
      assert Distinct(rest);
      FlattenCollected(flats, m, rest);
      var c := CollectSummaries(m, ks);
      assert c[1..] == CollectSummaries(m, rest);
      assert c[0].orderItems == ItemsFor(flats, ks[0]);
      assert Flatten(c) == c[0].orderItems + Flatten(c[1..]);
      assert ks[0] !in keys;
      assert (set k | k in ks) == keys + {ks[0]};
      ItemsInSplit(flats, ks[0], keys);
    }
  }

  lemma {:induction false} EmptyItemsIn(rows: seq<OrderFlatDto>)
    ensures ItemsIn(rows, {}) == []
  {
    if rows != [] {
      EmptyItemsIn(rows[1..]);
    }
  }

  /** Lossless: the summaries' items, taken together, are the items of the rows,
      one per row (as a multiset: the entry order is not specified). */
  lemma RegroupLossless(flats: seq<OrderFlatDto>, ks: seq<OrderKey>)
    requires EntryOrder(GroupingBy(flats), ks)
    ensures multiset(Flatten(Regroup(flats, ks))) == multiset(AllItems(flats))
    ensures |Flatten(Regroup(flats, ks))| == |flats|
  {
    GroupingBySpec(flats);
    FlattenCollected(flats, GroupingBy(flats), ks);
    assert (set k | k in ks) == RowKeys(flats);
    ItemsInCovering(flats, RowKeys(flats));
    assert |multiset(Flatten(Regroup(flats, ks)))| == |multiset(AllItems(flats))|;
  }

  // ---------------------------------------------------------------------------
  // Keying on the whole summary versus keying on the order id
  // ---------------------------------------------------------------------------

  /** Rows with equal order ids agree on every summary field. */
  ghost predicate Consistent(rows: seq<OrderFlatDto>)
  {
    forall i, j :: 0 <= i < |rows| && 0 <= j < |rows| && rows[i].orderId == rows[j].orderId ==>
      KeyOf(rows[i]) == KeyOf(rows[j])
  }

  /** The order ids of the rows. */
  function RowIds(rows: seq<OrderFlatDto>): set<int>
  {
    if rows == [] then {} else {rows[0].orderId} + RowIds(rows[1..])
  }

  /** An id is a row id exactly when some row carries it. */
  lemma {:induction false} RowIdsMembership(rows: seq<OrderFlatDto>, id: int)
    ensures id in RowIds(rows) <==> exists i :: 0 <= i < |rows| && rows[i].orderId == id
  {
    if rows != [] {
      RowIdsMembership(rows[1..], id);
      if exists i :: 0 <= i < |rows| && rows[i].orderId == id {
        var i :| 0 <= i < |rows| && rows[i].orderId == id;
        if i > 0 {
          assert rows[1..][i - 1].orderId == id;
        }
      }
      if id in RowIds(rows[1..]) {
        var i :| 0 <= i < |rows[1..]| && rows[1..][i].orderId == id;
        assert rows[i + 1].orderId == id;
      }
    }
  }

  /** The items of the rows with order id `id`, in input order. */
  function ItemsWithId(rows: seq<OrderFlatDto>, id: int): (r: seq<OrderItemQueryDto>)
    ensures r == [] <==> id !in RowIds(rows)
  {
    if rows == [] then []
    else (if rows[0].orderId == id then [ItemOf(rows[0])] else []) + ItemsWithId(rows[1..], id)
  }

  /** When rows are consistent, the group of a key is the group of its order id alone. */
  lemma {:induction false} KeyingByIdAgrees(rows: seq<OrderFlatDto>, k: OrderKey)
    requires Consistent(rows)
    requires k in RowKeys(rows)
    ensures ItemsFor(rows, k) == ItemsWithId(rows, k.orderId)
  {
    var rest := rows[1..];
    assert Consistent(rest) by {
      forall i, j | 0 <= i < |rest| && 0 <= j < |rest| && rest[i].orderId == rest[j].orderId
        ensures KeyOf(rest[i]) == KeyOf(rest[j])
      {
        assert rest[i] == rows[i + 1] && rest[j] == rows[j + 1];
      }
    }
    if k in RowKeys(rest) {
      KeyingByIdAgrees(rest, k);
      RowKeysMembership(rest, k);
      var i :| 0 <= i < |rest| && KeyOf(rest[i]) == k;
      assert rest[i] == rows[i + 1];
      assert rows[0].orderId == k.orderId ==> KeyOf(rows[0]) == k;
    } else {
      assert KeyOf(rows[0]) == k;
      if k.orderId in RowIds(rest) {
        RowIdsMembership(rest, k.orderId);
        var i :| 0 <= i < |rest| && rest[i].orderId == k.orderId;
        assert rest[i] == rows[i + 1];
        assert KeyOf(rest[i]) == k;
        RowKeysMembership(rest, k);
        assert false;
      }
    }
  }

  /** When rows are consistent, there are as many distinct keys as distinct order ids. */
  lemma {:induction false} KeyCountIsIdCount(rows: seq<OrderFlatDto>)
    requires Consistent(rows)
    ensures |RowKeys(rows)| == |RowIds(rows)|
  {
    if rows != [] {
      var rest := rows[1..];
      assert Consistent(rest) by {
        forall i, j | 0 <= i < |rest| && 0 <= j < |rest| && rest[i].orderId == rest[j].orderId
          ensures KeyOf(rest[i]) == KeyOf(rest[j])
        {
          assert rest[i] == rows[i + 1] && rest[j] == rows[j + 1];
        }
      }
      KeyCountIsIdCount(rest);
      if rows[0].orderId in RowIds(rest) {
        RowIdsMembership(rest, rows[0].orderId);
        var i :| 0 <= i < |rest| && rest[i].orderId == rows[0].orderId;
        assert rest[i] == rows[i + 1];
        RowKeysMembership(rest, KeyOf(rows[0]));
        assert RowKeys(rows) == RowKeys(rest);
        assert RowIds(rows) == RowIds(rest);
      } else if KeyOf(rows[0]) in RowKeys(rest) {
        RowKeysMembership(rest, KeyOf(rows[0]));
        RowIdsMembership(rest, rows[0].orderId);
        assert false;
      }
    }
  }

  /** Without consistency the two keyings differ: two rows of one order that disagree
      on the member name form two groups under the whole-summary key. */
  lemma InconsistentRowsSplitOneOrder(rows: seq<OrderFlatDto>)
    requires |rows| == 2
    requires rows[0].orderId == rows[1].orderId && rows[0].name != rows[1].name
    ensures |RowIds(rows)| == 1
    ensures |GroupingBy(rows).Keys| == 2
  {
    GroupingBySpec(rows);
    var tail := rows[1..];
    assert tail[1..] == [];
    assert RowKeys(rows) == {KeyOf(rows[0])} + RowKeys(tail);
    assert RowIds(rows) == {rows[0].orderId} + RowIds(tail);
    assert KeyOf(rows[0]) != KeyOf(rows[1]);
  }

  // ---------------------------------------------------------------------------
  // The endpoint
  // ---------------------------------------------------------------------------

  /** The envelope of `ordersV6` counts the distinct keys of the rows. */
  lemma RegroupEnvelopeCount(flats: seq<OrderFlatDto>, ks: seq<OrderKey>)
    requires EntryOrder(GroupingBy(flats), ks)
    ensures |RowKeys(flats)| <= INT_MAX ==> CountOf(JList(Regroup(flats, ks))) as int == |RowKeys(flats)|
  {
    RegroupKeySet(flats, ks);
  }

  /** `ordersV6`: `flats` is what the flat join query returned, `ks` the order in which
      the grouping's map yields its entries, `now` the clock reading. */
  method OrdersV6(flats: seq<OrderFlatDto>, ks: seq<OrderKey>, now: LocalDateTime)
    returns (res: Result<OrderQueryDto>)
    requires EntryOrder(GroupingBy(flats), ks)
    ensures fresh(res)
    ensures res.data == JList(Regroup(flats, ks))
    ensures |RowKeys(flats)| <= INT_MAX ==> res.count as int == |RowKeys(flats)|
    ensures res.date == now
  {
    var collect := CollectSummaries(GroupingBy(flats), ks);
    RegroupEnvelopeCount(flats, ks);
    res := new Result(JList(collect), now);
  }
}
