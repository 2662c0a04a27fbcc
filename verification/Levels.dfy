// Price levels: sorted lists of (price, FIFO deque), and the flat queue they denote.
module Levels {
  import opened Api
  import opened PriceTime
  import opened Live

  datatype RestingOrder = RestingOrder(
    orderId: OrderId, remainingQuantity: Quantity, orderType: OrderType, accountId: AccountId)

  // std::map<Price, std::deque<RestingOrder>> in iteration order.
  datatype Level = Level(price: Price, orders: seq<RestingOrder>)

  function EntryAt(price: Price, r: RestingOrder): Entry {
    Entry(price, r.orderId, r.remainingQuantity, r.orderType, r.accountId)
  }

  function LevelEntries(price: Price, orders: seq<RestingOrder>): seq<Entry> {
    if orders == [] then [] else [EntryAt(price, orders[0])] + LevelEntries(price, orders[1..])
  }

  function Flatten(levels: seq<Level>): seq<Entry> {
    if levels == [] then []
    else LevelEntries(levels[0].price, levels[0].orders) + Flatten(levels[1..])
  }

  // Prices strictly worsen from level to level and no level is empty.
  ghost predicate LevelsInv(side: Side, levels: seq<Level>) {
    levels != [] ==>
      && levels[0].orders != []
      && (forall l :: l in levels[1..] ==> Better(side, levels[0].price, l.price))
      && LevelsInv(side, levels[1..])
  }

  // levels[price].push_back(r), creating the level if it is missing.
  function AddToLevel(side: Side, levels: seq<Level>, price: Price, r: RestingOrder): seq<Level> {
    if levels == [] || Better(side, price, levels[0].price) then [Level(price, [r])] + levels
    else if levels[0].price == price then [Level(price, levels[0].orders + [r])] + levels[1..]
    else [levels[0]] + AddToLevel(side, levels[1..], price, r)
  }

  // Index of the level at a price, or the number of levels.
  function LevelAt(levels: seq<Level>, price: Price): (at: nat)
    ensures at <= |levels|
    ensures at < |levels| ==> levels[at].price == price
    ensures forall k :: 0 <= k < at ==> levels[k].price != price
  {
    if levels == [] || levels[0].price == price then 0 else 1 + LevelAt(levels[1..], price)
  }

  function DropEmpty(levels: seq<Level>, price: Price): seq<Level> {
    var at := LevelAt(levels, price);
    if at < |levels| && levels[at].orders == [] then levels[..at] + levels[at + 1..] else levels
  }

  function RemoveOrder(orders: seq<RestingOrder>, id: OrderId): seq<RestingOrder> {
    if orders == [] then []
    else if orders[0].orderId == id then orders[1..]
    else [orders[0]] + RemoveOrder(orders[1..], id)
  }

  function RemoveFrom(levels: seq<Level>, price: Price, id: OrderId): seq<Level> {
    if levels == [] then []
    else if levels[0].price == price then
      var orders := RemoveOrder(levels[0].orders, id);
      if orders == [] then levels[1..] else [Level(price, orders)] + levels[1..]
    else [levels[0]] + RemoveFrom(levels[1..], price, id)
  }

  // ---- Lists ----

  lemma {:induction false} EntriesAppend(price: Price, a: seq<RestingOrder>, b: seq<RestingOrder>)
    ensures LevelEntries(price, a + b) == LevelEntries(price, a) + LevelEntries(price, b)
  {
    if a == [] {
      assert a + b == b;
    } else {
      assert (a + b)[1..] == a[1..] + b;
      EntriesAppend(price, a[1..], b);
    }
  }

  lemma {:induction false} FlattenAppend(a: seq<Level>, b: seq<Level>)
    ensures Flatten(a + b) == Flatten(a) + Flatten(b)
  {
    if a == [] {
      assert a + b == b;
    } else {
      assert (a + b)[1..] == a[1..] + b;
      FlattenAppend(a[1..], b);
    }
  }

  lemma FlattenCons(l: Level, tail: seq<Level>)
    ensures Flatten([l] + tail) == LevelEntries(l.price, l.orders) + Flatten(tail)
  {
    assert ([l] + tail)[1..] == tail;
  }

  lemma {:induction false} EntryPrices(price: Price, orders: seq<RestingOrder>)
    ensures forall e :: e in LevelEntries(price, orders) ==> e.price == price
  {
    if orders != [] {
      EntryPrices(price, orders[1..]);
    }
  }

  lemma {:induction false} FlattenPrices(levels: seq<Level>)
    ensures forall e :: e in Flatten(levels) ==> exists l :: l in levels && l.price == e.price
  {
    if levels != [] {
      EntryPrices(levels[0].price, levels[0].orders);
      FlattenPrices(levels[1..]);
      assert levels[0] in levels;
    }
  }

  // ---- The flat queue determines the levels ----

  lemma {:induction false} FrontPrice(price: Price, orders: seq<RestingOrder>, rest: seq<Entry>)
    requires rest != [] ==> rest[0].price != price
    ensures var queue := LevelEntries(price, orders) + rest;
      && (orders == [] ==> queue == rest)
      && (orders != [] <==> queue != [] && queue[0].price == price)
      && (orders != [] ==>
            queue[0] == EntryAt(price, orders[0]) && queue[1..] == LevelEntries(price, orders[1..]) + rest)
  {
    var queue := LevelEntries(price, orders) + rest;
    if orders == [] {
      assert queue == rest;
    } else {
      var behind := LevelEntries(price, orders[1..]);
      assert queue == [EntryAt(price, orders[0])] + (behind + rest);
    }
  }

  lemma {:induction false} SameFront(
    price: Price, a: seq<RestingOrder>, b: seq<RestingOrder>, x: seq<Entry>, y: seq<Entry>)
    requires LevelEntries(price, a) + x == LevelEntries(price, b) + y
    requires (x != [] ==> x[0].price != price) && (y != [] ==> y[0].price != price)
    ensures a == b && x == y
  {
    FrontPrice(price, a, x);
    FrontPrice(price, b, y);
    if a != [] {
      SameFront(price, a[1..], b[1..], x, y);
      assert a == [a[0]] + a[1..] && b == [b[0]] + b[1..];
    }
  }

  lemma NextPrice(side: Side, levels: seq<Level>)
    requires LevelsInv(side, levels) && levels != []
    ensures Flatten(levels)[..1] == [EntryAt(levels[0].price, levels[0].orders[0])]
    ensures Flatten(levels[1..]) != [] ==> Flatten(levels[1..])[0].price != levels[0].price
  {
    if levels[1..] != [] {
      assert levels[1..][0] in levels[1..];
    }
  }

  // Well-formed level lists with the same flat queue are the same.
  lemma {:induction false} FlattenInjective(side: Side, a: seq<Level>, b: seq<Level>)
    requires LevelsInv(side, a) && LevelsInv(side, b) && Flatten(a) == Flatten(b)
    ensures a == b
  {
    if a != [] {
      NextPrice(side, a);
    }
    if b != [] {
      NextPrice(side, b);
    }
    if a != [] && b != [] {
      assert Flatten(a)[0] == Flatten(a)[..1][0] && Flatten(b)[0] == Flatten(b)[..1][0];
      SameFront(a[0].price, a[0].orders, b[0].orders, Flatten(a[1..]), Flatten(b[1..]));
      FlattenInjective(side, a[1..], b[1..]);
      assert a == [a[0]] + a[1..] && b == [b[0]] + b[1..];
    }
  }

  // ---- push_back refines Insert ----

  lemma InsertPastHead(side: Side, head: Entry, rest: seq<Entry>, e: Entry)
    requires !Better(side, e.price, head.price)
    ensures Insert(side, [head] + rest, e) == [head] + Insert(side, rest, e)
  {
  }

  lemma {:induction false} InsertPastLevel(
    side: Side, price: Price, orders: seq<RestingOrder>, rest: seq<Entry>, e: Entry)
    requires !Better(side, e.price, price)
    ensures Insert(side, LevelEntries(price, orders) + rest, e)
         == LevelEntries(price, orders) + Insert(side, rest, e)
  {
    if orders == [] {
      assert LevelEntries(price, orders) + rest == rest;
    } else {
      var head, tail := EntryAt(price, orders[0]), LevelEntries(price, orders[1..]);
      assert LevelEntries(price, orders) + rest == [head] + (tail + rest);
      InsertPastHead(side, head, tail + rest, e);
      InsertPastLevel(side, price, orders[1..], rest, e);
      assert [head] + (tail + Insert(side, rest, e)) == LevelEntries(price, orders) + Insert(side, rest, e);
    }
  }

  lemma InsertBeforeLevels(side: Side, levels: seq<Level>, e: Entry)
    requires LevelsInv(side, levels)
    requires levels != [] ==> Better(side, e.price, levels[0].price)
    ensures Insert(side, Flatten(levels), e) == [e] + Flatten(levels)
  {
  }

  lemma {:induction false} AddToLevelKeepsInv(side: Side, levels: seq<Level>, price: Price, r: RestingOrder)
    requires LevelsInv(side, levels)
    ensures LevelsInv(side, AddToLevel(side, levels, price, r))
    ensures forall l :: l in AddToLevel(side, levels, price, r) ==>
              l.price == price || exists k :: k in levels && k.price == l.price
  {
    var after := AddToLevel(side, levels, price, r);
    if levels == [] || Better(side, price, levels[0].price) {
      assert after[1..] == levels;
    } else if levels[0].price == price {
      assert after[1..] == levels[1..];
    } else {
      AddToLevelKeepsInv(side, levels[1..], price, r);
      assert after[1..] == AddToLevel(side, levels[1..], price, r);
      assert levels[0] in levels;
    }
  }

  lemma {:induction false} AddToLevelInserts(side: Side, levels: seq<Level>, price: Price, r: RestingOrder)
    requires LevelsInv(side, levels)
    ensures Flatten(AddToLevel(side, levels, price, r)) == Insert(side, Flatten(levels), EntryAt(price, r))
  {
    var e := EntryAt(price, r);
    if levels == [] || Better(side, price, levels[0].price) {
      FlattenCons(Level(price, [r]), levels);
      assert LevelEntries(price, [r]) == [e];
      InsertBeforeLevels(side, levels, e);
    } else {
      var head, tail := levels[0], levels[1..];
      InsertPastLevel(side, head.price, head.orders, Flatten(tail), e);
      if head.price == price {
        FlattenCons(Level(price, head.orders + [r]), tail);
        EntriesAppend(price, head.orders, [r]);
        assert LevelEntries(price, [r]) == [e];
        assert tail != [] ==> tail[0] in tail;
        InsertBeforeLevels(side, tail, e);
      } else {
        AddToLevelInserts(side, tail, price, r);
        FlattenCons(head, AddToLevel(side, tail, price, r));
      }
    }
  }

  // ---- erase refines Remove ----

  lemma {:induction false} RemoveOrderRemoves(price: Price, orders: seq<RestingOrder>, rest: seq<Entry>, id: OrderId)
    requires id in Ids(LevelEntries(price, orders))
    ensures Remove(LevelEntries(price, orders) + rest, id) == LevelEntries(price, RemoveOrder(orders, id)) + rest
  {
    var queue := LevelEntries(price, orders) + rest;
    IdsCons(LevelEntries(price, orders));
    assert queue[1..] == LevelEntries(price, orders[1..]) + rest;
    if orders[0].orderId != id {
      RemoveOrderRemoves(price, orders[1..], rest, id);
      assert RemoveOrder(orders, id)[1..] == RemoveOrder(orders[1..], id);
    }
  }

  lemma {:induction false} RemovePast(a: seq<Entry>, b: seq<Entry>, id: OrderId)
    requires id !in Ids(a)
    ensures Remove(a + b, id) == a + Remove(b, id)
  {
    if a == [] {
      assert a + b == b;
    } else {
      IdsCons(a);
      assert (a + b)[1..] == a[1..] + b;
      RemovePast(a[1..], b, id);
    }
  }

  lemma {:induction false} RemoveFromKeepsInv(side: Side, levels: seq<Level>, price: Price, id: OrderId)
    requires LevelsInv(side, levels)
    ensures LevelsInv(side, RemoveFrom(levels, price, id))
    ensures forall l :: l in RemoveFrom(levels, price, id) ==> exists k :: k in levels && k.price == l.price
  {
    if levels != [] {
      var after := RemoveFrom(levels, price, id);
      assert levels[0] in levels;
      if levels[0].price == price {
        var orders := RemoveOrder(levels[0].orders, id);
        if orders != [] {
          assert after[1..] == levels[1..];
        }
      } else {
        RemoveFromKeepsInv(side, levels[1..], price, id);
        assert after[1..] == RemoveFrom(levels[1..], price, id);
      }
    }
  }

  lemma {:induction false} RemoveFromRemoves(levels: seq<Level>, price: Price, id: OrderId)
    requires forall e :: e in Flatten(levels) && e.orderId == id ==> e.price == price
    requires id in Ids(Flatten(levels))
    requires forall j, k :: 0 <= j < k < |levels| ==> levels[j].price != levels[k].price
    ensures Flatten(RemoveFrom(levels, price, id)) == Remove(Flatten(levels), id)
  {
    var head, tail := levels[0], levels[1..];
    var entries := LevelEntries(head.price, head.orders);
    EntryPrices(head.price, head.orders);
    if head.price == price {
      FlattenPrices(tail);
      var e :| e in Flatten(levels) && e.orderId == id;
      assert e in entries;
      RemoveOrderRemoves(price, head.orders, Flatten(tail), id);
      FlattenCons(Level(price, RemoveOrder(head.orders, id)), tail);
    } else {
      assert id !in Ids(entries);
      RemovePast(entries, Flatten(tail), id);
      RemoveFromRemoves(tail, price, id);
      FlattenCons(head, RemoveFrom(tail, price, id));
    }
  }

  lemma {:induction false} DistinctPrices(side: Side, levels: seq<Level>, j: nat, k: nat)
    requires LevelsInv(side, levels) && j < k < |levels|
    ensures levels[j].price != levels[k].price
  {
    if j == 0 {
      assert levels[k] == levels[1..][k - 1];
    } else {
      DistinctPrices(side, levels[1..], j - 1, k - 1);
    }
  }

  lemma DropEmptyBehind(head: Level, tail: seq<Level>, price: Price)
    requires head.price != price
    ensures DropEmpty([head] + tail, price) == [head] + DropEmpty(tail, price)
  {
    var at := LevelAt(tail, price);
    assert LevelAt([head] + tail, price) == 1 + at;
    if at < |tail| {
      assert ([head] + tail)[..1 + at] + ([head] + tail)[2 + at..] == [head] + (tail[..at] + tail[at + 1..]);
    }
  }

  // Erasing one order from its deque, and the level with it if it was the last.
  lemma {:induction false} EraseThenDrop(levels: seq<Level>, price: Price, id: OrderId, at: nat)
    requires at == LevelAt(levels, price) && at < |levels|
    ensures DropEmpty(levels[at := Level(price, RemoveOrder(levels[at].orders, id))], price)
         == RemoveFrom(levels, price, id)
    decreases at
  {
    var level := Level(price, RemoveOrder(levels[at].orders, id));
    var tail := levels[1..];
    if at == 0 {
      assert levels[0 := level] == [level] + tail;
      assert ([level] + tail)[..0] + ([level] + tail)[1..] == tail;
    } else {
      EraseThenDrop(tail, price, id, at - 1);
      assert levels[at := level] == [levels[0]] + tail[at - 1 := level];
      DropEmptyBehind(levels[0], tail[at - 1 := level], price);
    }
  }

  lemma {:induction false} RemoveFromMissing(levels: seq<Level>, price: Price, id: OrderId)
    requires LevelAt(levels, price) == |levels|
    ensures RemoveFrom(levels, price, id) == levels
  {
    if levels != [] {
      RemoveFromMissing(levels[1..], price, id);
    }
  }

  // Erasing the first match at index i.
  lemma {:induction false} EraseAt(orders: seq<RestingOrder>, id: OrderId, i: nat)
    requires i <= |orders|
    requires forall k :: 0 <= k < i ==> orders[k].orderId != id
    requires i < |orders| ==> orders[i].orderId == id
    ensures RemoveOrder(orders, id) == if i < |orders| then orders[..i] + orders[i + 1..] else orders
    decreases i
  {
    if i > 0 {
      EraseAt(orders[1..], id, i - 1);
      if i < |orders| {
        assert orders[..i] + orders[i + 1..] == [orders[0]] + (orders[1..][..i - 1] + orders[1..][i..]);
      }
    }
  }
}
