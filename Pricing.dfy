/** Pricing an order (pizzaria-api/index.js, the first loop of `POST /pedidos`):
    every requested item is priced at its pizza's current `preco`, and the
    order total accumulates `preco * quantidade` item by item. Quantities are
    taken as given: nothing checks that they are positive. */
module Pricing {
  import opened Schema

  /** One element of the request's `itens`. */
  datatype ItemRequest = ItemRequest(pizzaId: int, quantidade: int)

  /** One element of `itemsWithPrice`: the request item plus the price read for it. */
  datatype PricedItem = PricedItem(pizzaId: int, quantidade: int, precoUnitario: int)

  /** What the pricing loop leaves behind: the priced items and the total. */
  datatype Quote = Quote(items: seq<PricedItem>, total: int)

  function Subtotal(p: PricedItem): int {
    p.precoUnitario * p.quantidade
  }

  /** The sum of the subtotals, added up front to back as `total += subtotal` does. */
  function Total(items: seq<PricedItem>): int {
    if items == [] then 0 else Total(items[..|items| - 1]) + Subtotal(items[|items| - 1])
  }

  predicate AllPizzasKnown(pizzas: map<int, Pizza>, req: seq<ItemRequest>) {
    forall i :: 0 <= i < |req| ==> req[i].pizzaId in pizzas
  }

  /** `itemsWithPrice` for `req`, or None when some pizza id has no row (the
      lookup then yields no row and reading its price fails). */
  function Priced(pizzas: map<int, Pizza>, req: seq<ItemRequest>): (r: Option<seq<PricedItem>>)
    ensures r.Some? <==> AllPizzasKnown(pizzas, req)
    ensures r.Some? ==> |r.value| == |req|
    ensures r.Some? ==> forall i :: 0 <= i < |req| ==>
      r.value[i] == PricedItem(req[i].pizzaId, req[i].quantidade, pizzas[req[i].pizzaId].preco)
  {
    if req == [] then Some([])
    else
      var last := req[|req| - 1];
      var init := Priced(pizzas, req[..|req| - 1]);
      if init.None? then None
      else if last.pizzaId !in pizzas then None
      else Some(init.value + [PricedItem(last.pizzaId, last.quantidade, pizzas[last.pizzaId].preco)])
  }

  /** Reference total: each requested item's current price times its quantity,
      summed over the request. */
  function RequestTotal(pizzas: map<int, Pizza>, req: seq<ItemRequest>): int
    requires AllPizzasKnown(pizzas, req)
  {
    if req == [] then 0
    else pizzas[req[0].pizzaId].preco * req[0].quantidade + RequestTotal(pizzas, req[1..])
  }

  /** Adding up from the back or from the front gives the same total. */
  lemma {:induction false} TotalCons(x: PricedItem, rest: seq<PricedItem>)
    ensures Total([x] + rest) == Subtotal(x) + Total(rest)
    decreases |rest|
  {
    if rest != [] {
      var init := rest[..|rest| - 1];
      assert ([x] + rest)[..|rest|] == [x] + init;
      TotalCons(x, init);
    }
  }

  /** The order total is the sum, over the requested items, of each pizza's
      looked-up price times its quantity. */
  lemma {:induction false} TotalIsRequestTotal(pizzas: map<int, Pizza>, req: seq<ItemRequest>)
    requires AllPizzasKnown(pizzas, req)
    ensures Total(Priced(pizzas, req).value) == RequestTotal(pizzas, req)
  {
    if req != [] {
      var items := Priced(pizzas, req).value;
      var tail := Priced(pizzas, req[1..]).value;
      assert items == [items[0]] + tail;
      TotalCons(items[0], tail);
      TotalIsRequestTotal(pizzas, req[1..]);
    }
  }

  /** The pricing loop: reads each item's pizza price in request order, pushes
      the priced item and accumulates the total. Stops at the first pizza id
      without a row. */
  method PriceItems(pizzas: map<int, Pizza>, req: seq<ItemRequest>) returns (r: Result<Quote>)
    ensures r.Ok? <==> AllPizzasKnown(pizzas, req)
    ensures r.Err? ==> r.error == PizzaNotFound
    ensures r.Ok? ==> Priced(pizzas, req) == Some(r.value.items)
    ensures r.Ok? ==> r.value.total == Total(r.value.items) == RequestTotal(pizzas, req)
  {
    var total := 0;
    var items: seq<PricedItem> := [];
    for i := 0 to |req|
      invariant Priced(pizzas, req[..i]) == Some(items)
      invariant total == Total(items)
    {
      var item := req[i];
      if item.pizzaId !in pizzas {
        return Err(PizzaNotFound);
      }
      var precoUnitario := pizzas[item.pizzaId].preco;
      var subtotal := precoUnitario * item.quantidade;
      total := total + subtotal;
      assert req[..i + 1][..i] == req[..i];
      items := items + [PricedItem(item.pizzaId, item.quantidade, precoUnitario)];
    }
    assert req[..|req|] == req;
    TotalIsRequestTotal(pizzas, req);
    return Ok(Quote(items, total));
  }

  /** Index of the first priced item whose quantity does not fit an INTEGER
      column (`|items|` when every quantity fits): the item insert that fails. */
  function FirstUnfit(items: seq<PricedItem>): (k: nat)
    ensures k <= |items|
    ensures forall i :: 0 <= i < k ==> FitsInteger(items[i].quantidade)
    ensures k < |items| ==> !FitsInteger(items[k].quantidade)
  {
    if items == [] then 0
    else if !FitsInteger(items[0].quantidade) then 0
    else 1 + FirstUnfit(items[1..])
  }

  /** An item before or at the first unfit one whose quantity fits lies before it. */
  lemma FitsBeforeFirstUnfit(items: seq<PricedItem>, i: nat)
    requires i < |items| && i <= FirstUnfit(items) && FitsInteger(items[i].quantidade)
    ensures i < FirstUnfit(items)
  {
  }

  /** An unfit item at or before the first unfit one is that one. */
  lemma UnfitIsFirstUnfit(items: seq<PricedItem>, i: nat)
    requires i < |items| && i <= FirstUnfit(items) && !FitsInteger(items[i].quantidade)
    ensures i == FirstUnfit(items)
  {
  }
}
