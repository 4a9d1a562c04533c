/**
  The synchroniser's local side: finding the newest stored order date for an
  incremental fetch, merging freshly fetched orders into the stored list by
  id (new data wins, the list is re-sorted newest first), and choosing the
  outcome the sync reports.
 */
module OrderStore {
  import opened Text
  import opened Dates
  import opened Orders

  // ---------------------------------------------------------------------------
  // Ids and the id -> order dictionary

  function IdSet(s: seq<Order>): set<int>
  {
    set o | o in s :: o.id
  }

  predicate HasDistinctIds(s: seq<Order>)
  {
    forall i, j :: 0 <= i < j < |s| ==> s[i].id != s[j].id
  }

  predicate IsDistinct(ks: seq<int>)
  {
    forall i, j :: 0 <= i < j < |ks| ==> ks[i] != ks[j]
  }

  /** Every entry of the dictionary is filed under its own order's id. */
  predicate IsFiledById(d: map<int, Order>)
  {
    forall k :: k in d ==> d[k].id == k
  }

  /** The dictionary after `d[o['id']] = o` for each `o` of `s` in turn. */
  function Overwrite(d: map<int, Order>, s: seq<Order>): (r: map<int, Order>)
    ensures r.Keys == d.Keys + IdSet(s)
    ensures IsFiledById(d) ==> IsFiledById(r)
  {
    if s == [] then d
    else
      var init, o := s[..|s| - 1], s[|s| - 1];
      assert s == init + [o];
      Overwrite(d, init)[o.id := o]
  }

  /** The last order of `s` that carries `id`. */
  function LastWithId(s: seq<Order>, id: int): (r: Option<Order>)
    ensures r.Some? <==> id in IdSet(s)
    ensures r.Some? ==> r.value in s && r.value.id == id
  {
    if s == [] then None
    else
      var init, o := s[..|s| - 1], s[|s| - 1];
      assert s == init + [o];
      if o.id == id then Some(o) else LastWithId(init, id)
  }

  /** After the assignments an id holds the last order of `s` with that id, or its old entry if `s` has none. */
  lemma {:induction false} OverwriteAt(d: map<int, Order>, s: seq<Order>, id: int)
    requires id in d.Keys + IdSet(s)
    ensures Overwrite(d, s)[id] == match LastWithId(s, id) case Some(o) => o case None => d[id]
  {
    if s != [] {
      var init, o := s[..|s| - 1], s[|s| - 1];
      assert s == init + [o];
      if o.id != id {
        OverwriteAt(d, init, id);
      }
    }
  }

  /** Writing the same orders a second time changes nothing. */
  lemma {:induction false} OverwriteTwice(d: map<int, Order>, s: seq<Order>)
    ensures Overwrite(Overwrite(d, s), s) == Overwrite(d, s)
  {
    var once := Overwrite(d, s);
    var twice := Overwrite(once, s);
    forall id | id in twice.Keys
      ensures twice[id] == once[id]
    {
      OverwriteAt(once, s, id);
      OverwriteAt(d, s, id);
    }
  }

  /** The dictionary's key order: a key keeps the place where it was first inserted. */
  function KeyOrder(keys: seq<int>, s: seq<Order>): (r: seq<int>)
    ensures (set k | k in r) == (set k | k in keys) + IdSet(s)
    ensures IsDistinct(keys) ==> IsDistinct(r)
  {
    if s == [] then keys
    else
      var init, o := s[..|s| - 1], s[|s| - 1];
      assert s == init + [o];
      assert IdSet(s) == IdSet(init) + {o.id};
      var ks := KeyOrder(keys, init);
      if o.id in ks then
        assert (set k | k in ks) == (set k | k in ks) + {o.id};
        ks
      else
        assert (set k | k in ks + [o.id]) == (set k | k in ks) + {o.id};
        ks + [o.id]
  }

  /** Orders already present under their ids add no key. */
  lemma {:induction false} KeyOrderOfPresent(keys: seq<int>, s: seq<Order>)
    requires IdSet(s) <= set k | k in keys
    ensures KeyOrder(keys, s) == keys
  {
    if s != [] {
      var init, o := s[..|s| - 1], s[|s| - 1];
      assert s == init + [o];
      assert IdSet(s) == IdSet(init) + {o.id};
      KeyOrderOfPresent(keys, init);
    }
  }

  /** With distinct ids, the key order is the order of the orders themselves. */
  lemma {:induction false} KeyOrderOfDistinct(s: seq<Order>)
    requires HasDistinctIds(s)
    ensures KeyOrder([], s) == seq(|s|, i requires 0 <= i < |s| => s[i].id)
  {
    if s != [] {
      var init, o := s[..|s| - 1], s[|s| - 1];
      assert s == init + [o];
      KeyOrderOfDistinct(init);
      assert o.id !in set k | k in KeyOrder([], init);
    }
  }

  // ---------------------------------------------------------------------------
  // Sorting newest first

  /** Python's `list.sort(key=lambda x: x.get('date_created', ''), reverse=True)` keeps this order. */
  predicate IsNewestFirst(s: seq<Order>)
  {
    forall i, j :: 0 <= i < j < |s| ==> !LexLess(s[i].dateCreated, s[j].dateCreated)
  }

  /** `x` goes in front of the first order whose date string is not greater than its own. */
  function InsertNewestFirst(x: Order, t: seq<Order>): (r: seq<Order>)
    ensures multiset(r) == multiset([x] + t)
  {
    if t == [] || !LexLess(x.dateCreated, t[0].dateCreated) then [x] + t
    else
      assert t == [t[0]] + t[1..];
      [t[0]] + InsertNewestFirst(x, t[1..])
  }

  /** The stable sort by descending date string: equal dates keep their input order. */
  function SortNewestFirst(s: seq<Order>): (r: seq<Order>)
    ensures multiset(r) == multiset(s)
  {
    if s == [] then []
    else
      assert s == [s[0]] + s[1..];
      InsertNewestFirst(s[0], SortNewestFirst(s[1..]))
  }

  /** An order no newer than any of `t` may go in front of it. */
  lemma ConsNewestFirst(a: Order, t: seq<Order>)
    requires IsNewestFirst(t)
    requires forall y :: y in t ==> !LexLess(a.dateCreated, y.dateCreated)
    ensures IsNewestFirst([a] + t)
  {
    forall i, j | 0 <= i < j < |[a] + t|
      ensures !LexLess(([a] + t)[i].dateCreated, ([a] + t)[j].dateCreated)
    {
      assert ([a] + t)[j] == t[j - 1];
      if i > 0 {
        assert ([a] + t)[i] == t[i - 1];
      }
    }
  }

  /** The head of a newest-first list is at least as new as everything after it. */
  lemma HeadNewest(t: seq<Order>)
    requires t != [] && IsNewestFirst(t)
    ensures forall y :: y in t[1..] ==> !LexLess(t[0].dateCreated, y.dateCreated)
  {
    forall y | y in t[1..]
      ensures !LexLess(t[0].dateCreated, y.dateCreated)
    {
      var k :| 0 <= k < |t[1..]| && t[1..][k] == y;
      assert t[k + 1] == y;
    }
  }

  /** `x` is at least as new as everything in `t` when it is at least as new as the head. */
  lemma NewerThanHead(x: Order, t: seq<Order>)
    requires t != [] && IsNewestFirst(t)
    requires !LexLess(x.dateCreated, t[0].dateCreated)
    ensures forall y :: y in t ==> !LexLess(x.dateCreated, y.dateCreated)
  {
    forall y | y in t
      ensures !LexLess(x.dateCreated, y.dateCreated)
    {
      var j :| 0 <= j < |t| && t[j] == y;
      if j > 0 && LexLess(x.dateCreated, y.dateCreated) {
        if t[0].dateCreated != y.dateCreated {
          LexLessTotal(t[0].dateCreated, y.dateCreated);
          LexLessTransitive(x.dateCreated, y.dateCreated, t[0].dateCreated);
        }
      }
    }
  }

  lemma InsertMembers(x: Order, t: seq<Order>, y: Order)
    requires y in InsertNewestFirst(x, t)
    ensures y == x || y in t
  {
    assert y in multiset(InsertNewestFirst(x, t));
    assert y in multiset([x] + t);
  }

  lemma {:induction false} InsertKeepsNewestFirst(x: Order, t: seq<Order>)
    requires IsNewestFirst(t)
    ensures IsNewestFirst(InsertNewestFirst(x, t))
  {
    if t == [] {
      assert InsertNewestFirst(x, t) == [x];
    } else if LexLess(x.dateCreated, t[0].dateCreated) {
      var rest := InsertNewestFirst(x, t[1..]);
      assert IsNewestFirst(t[1..]) by {
        forall i, j | 0 <= i < j < |t[1..]|
          ensures !LexLess(t[1..][i].dateCreated, t[1..][j].dateCreated)
        {
          assert t[1..][i] == t[i + 1] && t[1..][j] == t[j + 1];
        }
      }
      InsertKeepsNewestFirst(x, t[1..]);
      HeadNewest(t);
      forall y | y in rest
        ensures !LexLess(t[0].dateCreated, y.dateCreated)
      {
        InsertMembers(x, t[1..], y);
        if y == x && LexLess(t[0].dateCreated, x.dateCreated) {
          LexLessTransitive(x.dateCreated, t[0].dateCreated, x.dateCreated);
          LexLessIrreflexive(x.dateCreated);
        }
      }
      ConsNewestFirst(t[0], rest);
      assert InsertNewestFirst(x, t) == [t[0]] + rest;
    } else {
      NewerThanHead(x, t);
      ConsNewestFirst(x, t);
      assert InsertNewestFirst(x, t) == [x] + t;
    }
  }

  /** The sort's result is in newest-first order. */
  lemma {:induction false} SortIsNewestFirst(s: seq<Order>)
    ensures IsNewestFirst(SortNewestFirst(s))
  {
    if s != [] {
      SortIsNewestFirst(s[1..]);
      InsertKeepsNewestFirst(s[0], SortNewestFirst(s[1..]));
    }
  }

  /** Sorting a list that is already newest first gives it back unchanged (the sort is stable). */
  lemma {:induction false} SortOfNewestFirst(s: seq<Order>)
    requires IsNewestFirst(s)
    ensures SortNewestFirst(s) == s
  {
    if s != [] {
      SortOfNewestFirst(s[1..]);
      assert s == [s[0]] + s[1..];
    }
  }

  // ---------------------------------------------------------------------------
  // merge_orders

  /** The id -> order dictionary `merge_orders` builds: existing orders, then the new ones over them. */
  function MergedById(existing: seq<Order>, incoming: seq<Order>): map<int, Order>
  {
    Overwrite(Overwrite(map[], existing), incoming)
  }

  /** The values of `d` listed in the key order `ks`. */
  function ValuesAt(d: map<int, Order>, ks: seq<int>): (vs: seq<Order>)
    requires forall i :: 0 <= i < |ks| ==> ks[i] in d
    ensures |vs| == |ks|
  {
    seq(|ks|, i requires 0 <= i < |ks| => d[ks[i]])
  }

  /** The key order of the merged dictionary: existing ids first seen first, then ids new to it. */
  function MergedKeys(existing: seq<Order>, incoming: seq<Order>): seq<int>
  {
    KeyOrder(KeyOrder([], existing), incoming)
  }

  /** Every key in the merged key order is a key of the merged dictionary. */
  lemma MergedKeysFiled(existing: seq<Order>, incoming: seq<Order>)
    ensures forall i :: 0 <= i < |MergedKeys(existing, incoming)| ==>
      MergedKeys(existing, incoming)[i] in MergedById(existing, incoming)
  {
    var ks := MergedKeys(existing, incoming);
    var none: seq<int> := [];
    assert (set k | k in none) == {};
    var keys := IdSet(existing) + IdSet(incoming);
    assert (set k | k in KeyOrder([], existing)) == IdSet(existing);
    assert (set k | k in ks) == keys;
    assert MergedById(existing, incoming).Keys == keys;
    forall i | 0 <= i < |ks| ensures ks[i] in keys {
      assert ks[i] in set k | k in ks;
    }
  }

  /** The dictionary's values in its key order: `list(existing_dict.values())`. */
  function MergedValues(existing: seq<Order>, incoming: seq<Order>): seq<Order>
  {
    MergedKeysFiled(existing, incoming);
    ValuesAt(MergedById(existing, incoming), MergedKeys(existing, incoming))
  }

  /** What `merge_orders(existing, incoming)` returns. */
  function MergedOrders(existing: seq<Order>, incoming: seq<Order>): (merged: seq<Order>)
    ensures IsNewestFirst(merged) && multiset(merged) == multiset(MergedValues(existing, incoming))
  {
    SortIsNewestFirst(MergedValues(existing, incoming));
    SortNewestFirst(MergedValues(existing, incoming))
  }

  /** `for o in s: d[o['id']] = o` on a dictionary `d` whose keys, in insertion order, are `keys`. */
  method AssignById(d: map<int, Order>, keys: seq<int>, s: seq<Order>) returns (d': map<int, Order>, keys': seq<int>)
    ensures d' == Overwrite(d, s) && keys' == KeyOrder(keys, s)
  {
    d', keys' := d, keys;
    for i := 0 to |s|
      invariant d' == Overwrite(d, s[..i])
      invariant keys' == KeyOrder(keys, s[..i])
    {
      var o := s[i];
      ghost var done := s[..i];
      assert s[..i + 1] == done + [o];
      assert (done + [o])[..|done|] == done;
      if o.id !in keys' {
        keys' := keys' + [o.id];
      }
      d' := d'[o.id := o];
    }
    assert s[..|s|] == s;
  }

  /** `list(d.values())` for a dictionary whose keys, in insertion order, are `keys`. */
  method ValuesInKeyOrder(d: map<int, Order>, keys: seq<int>) returns (values: seq<Order>)
    requires forall i :: 0 <= i < |keys| ==> keys[i] in d
    ensures values == ValuesAt(d, keys)
  {
    values := [];
    for k := 0 to |keys|
      invariant |values| == k
      invariant forall m :: 0 <= m < k ==> values[m] == d[keys[m]]
    {
      values := values + [d[keys[k]]];
    }
  }

  /** `merge_orders`: index the existing orders by id, overwrite or insert each new one, sort newest first. */
  method MergeOrders(existing: seq<Order>, incoming: seq<Order>) returns (merged: seq<Order>)
    ensures merged == MergedOrders(existing, incoming)
  {
    var byId, keys := AssignById(map[], [], existing);
    byId, keys := AssignById(byId, keys, incoming);
    MergedKeysFiled(existing, incoming);
    var values := ValuesInKeyOrder(byId, keys);
    merged := SortNewestFirst(values);
  }

  /** Which order an id ends up with: the last new order with that id, else the last existing one. */
  lemma {:induction false} MergeWinner(existing: seq<Order>, incoming: seq<Order>, id: int)
    ensures id in MergedById(existing, incoming) <==> id in IdSet(existing) + IdSet(incoming)
    ensures id in IdSet(incoming) ==> MergedById(existing, incoming)[id] == LastWithId(incoming, id).value
    ensures id in IdSet(existing) - IdSet(incoming) ==>
      MergedById(existing, incoming)[id] == LastWithId(existing, id).value
  {
    if id in IdSet(existing) + IdSet(incoming) {
      OverwriteAt(Overwrite(map[], existing), incoming, id);
      if id !in IdSet(incoming) {
        OverwriteAt(map[], existing, id);
      }
    }
  }

  /** Listing a dictionary filed by id in a duplicate-free order of all its keys gives each entry exactly once. */
  lemma ValuesAtContents(d: map<int, Order>, ks: seq<int>)
    requires IsFiledById(d) && IsDistinct(ks)
    requires (set k | k in ks) == d.Keys
    ensures HasDistinctIds(ValuesAt(d, ks))
    ensures forall o :: o in ValuesAt(d, ks) <==> o.id in d && d[o.id] == o
  {
    var vs := ValuesAt(d, ks);
    forall i, j | 0 <= i < j < |vs|
      ensures vs[i].id != vs[j].id
    {
      assert vs[i].id == ks[i] && vs[j].id == ks[j];
    }
    forall o | o in vs
      ensures o.id in d && d[o.id] == o
    {
      var i :| 0 <= i < |vs| && vs[i] == o;
    }
    forall o: Order | o.id in d && d[o.id] == o
      ensures o in vs
    {
      assert o.id in set k | k in ks;
      var i :| 0 <= i < |ks| && ks[i] == o.id;
      assert vs[i] == o;
    }
  }

  lemma MergedValuesContents(existing: seq<Order>, incoming: seq<Order>)
    ensures HasDistinctIds(MergedValues(existing, incoming))
    ensures forall o :: o in MergedValues(existing, incoming) <==>
      o.id in MergedById(existing, incoming) && MergedById(existing, incoming)[o.id] == o
  {
    var d := MergedById(existing, incoming);
    var ks := MergedKeys(existing, incoming);
    assert IsFiledById(Overwrite(map[], existing));
    assert IsDistinct(KeyOrder([], existing));
    MergedKeysFiled(existing, incoming);
    ValuesAtContents(d, ks);
  }

  lemma {:induction false} DistinctIdsAtMostOnce(s: seq<Order>, x: Order)
    requires HasDistinctIds(s)
    ensures multiset(s)[x] <= 1
  {
    if s != [] {
      var init, o := s[..|s| - 1], s[|s| - 1];
      assert s == init + [o];
      DistinctIdsAtMostOnce(init, x);
      if o == x {
        assert x !in init by {
          forall k | 0 <= k < |init| ensures init[k] != x {
            assert s[k].id != s[|s| - 1].id;
          }
        }
      }
    }
  }

  /** Reordering a list neither loses nor adds an id, and keeps ids distinct. */
  lemma {:induction false} PermutationKeepsIds(a: seq<Order>, b: seq<Order>)
    requires multiset(a) == multiset(b)
    ensures IdSet(a) == IdSet(b)
    ensures HasDistinctIds(a) ==> HasDistinctIds(b)
  {
    assert forall o :: o in a <==> o in b by {
      forall o ensures o in a <==> o in b {
        assert o in a <==> o in multiset(a);
        assert o in b <==> o in multiset(b);
      }
    }
    if HasDistinctIds(a) {
      forall i, j | 0 <= i < j < |b|
        ensures b[i].id != b[j].id
      {
        if b[i] == b[j] {
          RepeatedTwice(b, i, j);
          DistinctIdsAtMostOnce(a, b[i]);
          assert false;
        } else {
          assert b[i] in b && b[j] in b;
          var p :| 0 <= p < |a| && a[p] == b[i];
          var q :| 0 <= q < |a| && a[q] == b[j];
          if p < q {
            assert a[p].id != a[q].id;
          } else {
            assert a[q].id != a[p].id;
          }
        }
      }
    }
  }

  lemma RepeatedTwice(b: seq<Order>, i: int, j: int)
    requires 0 <= i < j < |b| && b[i] == b[j]
    ensures multiset(b)[b[i]] >= 2
  {
    var x := b[i];
    assert b == b[..j] + [x] + b[j + 1..];
    assert x in b[..j];
  }

  /** Sorting the values of a dictionary filed by id keeps exactly those values, with distinct ids, newest first. */
  lemma SortedValuesFacts(d: map<int, Order>, vs: seq<Order>, merged: seq<Order>)
    requires IsFiledById(d) && HasDistinctIds(vs)
    requires forall o :: o in vs <==> o.id in d && d[o.id] == o
    requires merged == SortNewestFirst(vs)
    ensures HasDistinctIds(merged) && IdSet(merged) == d.Keys && IsNewestFirst(merged)
    ensures forall o :: o in merged <==> o.id in d && d[o.id] == o
  {
    SortIsNewestFirst(vs);
    PermutationKeepsIds(vs, merged);
    forall o ensures o in merged <==> o in vs {
      assert o in merged <==> o in multiset(merged);
      assert o in vs <==> o in multiset(vs);
    }
    forall id | id in d ensures id in IdSet(vs) {
      assert d[id] in vs;
    }
  }

  /** The merged list holds each id of either input exactly once, with the order the dictionary chose for it, newest first. */
  lemma MergeContents(existing: seq<Order>, incoming: seq<Order>)
    ensures var merged := MergedOrders(existing, incoming);
      && HasDistinctIds(merged)
      && IdSet(merged) == IdSet(existing) + IdSet(incoming)
      && (forall o :: o in merged <==> o.id in MergedById(existing, incoming) && MergedById(existing, incoming)[o.id] == o)
      && IsNewestFirst(merged)
  {
    var d := MergedById(existing, incoming);
    assert IsFiledById(Overwrite(map[], existing));
    MergedValuesContents(existing, incoming);
    SortedValuesFacts(d, MergedValues(existing, incoming), MergedOrders(existing, incoming));
  }

  /** A list of distinct ids, read back into a dictionary, files each order under its id. */
  lemma {:induction false} OverwriteOfDistinct(s: seq<Order>, id: int)
    requires HasDistinctIds(s)
    requires id in IdSet(s)
    ensures Overwrite(map[], s)[id] in s && Overwrite(map[], s)[id].id == id
  {
    OverwriteAt(map[], s, id);
  }

  lemma {:induction false} DistinctIdsCount(s: seq<Order>)
    requires HasDistinctIds(s)
    ensures |IdSet(s)| == |s|
  {
    if s != [] {
      var init, o := s[..|s| - 1], s[|s| - 1];
      assert s == init + [o];
      DistinctIdsCount(init);
      assert IdSet(s) == IdSet(init) + {o.id};
      assert o.id !in IdSet(init);
    }
  }

  /** Reading the merged list back and assigning the batch again gives the same dictionary. */
  lemma RemergedById(existing: seq<Order>, incoming: seq<Order>)
    ensures MergedById(MergedOrders(existing, incoming), incoming) == MergedById(existing, incoming)
  {
    var merged := MergedOrders(existing, incoming);
    var d := MergedById(existing, incoming);
    MergeContents(existing, incoming);
    var back := Overwrite(map[], merged);
    forall id | id in back
      ensures back[id] == d[id]
    {
      OverwriteOfDistinct(merged, id);
    }
    assert back == d;
    OverwriteTwice(Overwrite(map[], existing), incoming);
  }

  /** The ids of `s`, in order. */
  function Ids(s: seq<Order>): (ks: seq<int>)
    ensures |ks| == |s|
  {
    seq(|s|, i requires 0 <= i < |s| => s[i].id)
  }

  /** Listing a dictionary's values by the ids of orders it files under their ids gives back those orders. */
  lemma ValuesAtIds(d: map<int, Order>, s: seq<Order>)
    requires forall o :: o in s ==> o.id in d && d[o.id] == o
    ensures forall i :: 0 <= i < |Ids(s)| ==> Ids(s)[i] in d
    ensures ValuesAt(d, Ids(s)) == s
  {
    forall i | 0 <= i < |s| ensures Ids(s)[i] in d && d[Ids(s)[i]] == s[i] {
      assert s[i] in s;
    }
  }

  /** The second merge keeps the merged list's own key order. */
  lemma RemergedKeys(existing: seq<Order>, incoming: seq<Order>)
    ensures MergedKeys(MergedOrders(existing, incoming), incoming) == Ids(MergedOrders(existing, incoming))
  {
    var merged := MergedOrders(existing, incoming);
    MergeContents(existing, incoming);
    KeyOrderOfDistinct(merged);
    var ks0 := KeyOrder([], merged);
    assert (set k | k in ks0) == IdSet(merged);
    KeyOrderOfPresent(ks0, incoming);
  }

  /** The second merge lists the values in the merged list's own order. */
  lemma RemergedValues(existing: seq<Order>, incoming: seq<Order>)
    ensures MergedValues(MergedOrders(existing, incoming), incoming) == MergedOrders(existing, incoming)
  {
    var merged := MergedOrders(existing, incoming);
    var d := MergedById(existing, incoming);
    MergeContents(existing, incoming);
    RemergedById(existing, incoming);
    RemergedKeys(existing, incoming);
    ValuesAtIds(d, merged);
  }

  /** Merging the same batch a second time returns the list the first merge returned. */
  lemma MergeIdempotent(existing: seq<Order>, incoming: seq<Order>)
    ensures MergedOrders(MergedOrders(existing, incoming), incoming) == MergedOrders(existing, incoming)
  {
    var merged := MergedOrders(existing, incoming);
    MergeContents(existing, incoming);
    RemergedValues(existing, incoming);
    SortOfNewestFirst(merged);
  }

  // ---------------------------------------------------------------------------
  // get_latest_order_date

  /** `get_latest_order_date`: the newest parseable `date_created`, skipping missing and unparseable ones. */
  method GetLatestOrderDate(orders: seq<Order>) returns (latest: Option<DateTime>)
    ensures latest.None? <==> forall i :: 0 <= i < |orders| ==> ParseDate(orders[i].dateCreated).None?
    ensures latest.Some? ==> exists i :: 0 <= i < |orders| && ParseDate(orders[i].dateCreated) == latest
    ensures latest.Some? ==> forall i :: 0 <= i < |orders| && ParseDate(orders[i].dateCreated).Some? ==>
      !Before(latest.value, ParseDate(orders[i].dateCreated).value)
  {
    if |orders| == 0 {
      return None;
    }
    latest := None;
    for i := 0 to |orders|
      invariant latest.None? <==> forall k :: 0 <= k < i ==> ParseDate(orders[k].dateCreated).None?
      invariant latest.Some? ==> exists k :: 0 <= k < i && ParseDate(orders[k].dateCreated) == latest
      invariant latest.Some? ==> forall k :: 0 <= k < i && ParseDate(orders[k].dateCreated).Some? ==>
        !Before(latest.value, ParseDate(orders[k].dateCreated).value)
    {
      var dateStr := orders[i].dateCreated;
      if dateStr != "" {
        var parsed := ParseDate(dateStr);
        if parsed.Some? {
          if latest.None? || Before(latest.value, parsed.value) {
            ghost var previous := latest;
            latest := parsed;
            forall k | 0 <= k < i && ParseDate(orders[k].dateCreated).Some?
              ensures !Before(latest.value, ParseDate(orders[k].dateCreated).value)
            {
              BeforeIsStrictTotalOrder(ParseDate(orders[k].dateCreated).value, previous.value, parsed.value);
            }
          } else {
            BeforeIsStrictTotalOrder(latest.value, parsed.value, latest.value);
          }
        }
      } else {
        assert ParseDate(dateStr).None?;
      }
    }
  }

  // ---------------------------------------------------------------------------
  // The sync's local steps

  /** The `after` filter of an incremental fetch: the newest stored date, written with a `T` between date and time; none on a full fetch. */
  method AfterParameter(incremental: bool, stored: seq<Order>) returns (after: Option<string>)
    ensures after.Some? <==> incremental && exists i :: 0 <= i < |stored| && ParseDate(stored[i].dateCreated).Some?
    ensures after.Some? ==> exists i :: 0 <= i < |stored| && ParseDate(stored[i].dateCreated) == ParseDate(after.value)
    ensures after.Some? ==> forall i :: 0 <= i < |stored| && ParseDate(stored[i].dateCreated).Some? ==>
      ParseDate(after.value).Some? && !Before(ParseDate(after.value).value, ParseDate(stored[i].dateCreated).value)
    ensures after.Some? ==> ParseDate(after.value).Some? && after.value == FormatIso(ParseDate(after.value).value)
  {
    var existing := if incremental then stored else [];
    var latest := GetLatestOrderDate(existing);
    if incremental && latest.Some? {
      after := Some(FormatIso(latest.value));
      ParseDateFormatIso(latest.value);
    } else {
      after := None;
    }
  }

  /** The three success messages and the one failure of the sync's final step. */
  datatype SyncOutcome =
    | NoOrdersFound
    | UpdatedOrders(newCount: nat, stored: seq<Order>)
    | NoNewOrders(stored: seq<Order>)
    | FullResync(stored: seq<Order>)

  /** The sync's final step: choose what to persist and which message to report. */
  method FinishSync(incremental: bool, loaded: seq<Order>, fetched: seq<Order>) returns (r: SyncOutcome)
    ensures r.NoOrdersFound? <==> fetched == [] && (loaded == [] || !incremental)
    ensures incremental && loaded != [] ==> r.stored == MergedOrders(loaded, fetched)
    ensures !r.NoOrdersFound? && !(incremental && loaded != []) ==> r.stored == fetched
    ensures r.UpdatedOrders? <==> incremental && fetched != []
    ensures r.UpdatedOrders? ==> r.newCount == |fetched|
    ensures r.NoNewOrders? <==> incremental && fetched == [] && loaded != []
    ensures r.FullResync? <==> !incremental && fetched != []
    ensures r.NoNewOrders? && HasDistinctIds(loaded) ==> |r.stored| == |loaded|
  {
    var existing := if incremental then loaded else [];
    if fetched == [] && existing == [] {
      return NoOrdersFound;
    }
    var stored: seq<Order>;
    var newCount: nat;
    if incremental && existing != [] {
      stored := MergeOrders(existing, fetched);
      newCount := |fetched|;
    } else {
      stored := fetched;
      newCount := |stored|;
    }
    if incremental && newCount > 0 {
      r := UpdatedOrders(newCount, stored);
    } else if incremental {
      r := NoNewOrders(stored);
      MergeContents(loaded, fetched);
      if HasDistinctIds(loaded) {
        DistinctIdsCount(loaded);
        DistinctIdsCount(stored);
        assert IdSet(fetched) == {};
      }
    } else {
      r := FullResync(stored);
    }
  }
}
