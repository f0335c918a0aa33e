/** Short sessions against a fresh database that follow the handlers through
    their documented outcomes. */
module Walkthrough {
  import opened Schema
  import opened Pricing
  import opened Pizzaria

  /** A second customer with an email already in use is refused, and only the
      first one is stored. */
  method SameEmailTwice() returns (first: Result<Usuario>, second: Result<Usuario>, count: nat)
    ensures first.Ok? && first.value.email == "a@b.com"
    ensures second == Err(UniqueViolation)
    ensures count == 1
  {
    var s := new Store();
    first := s.CreateUsuario(Some("C1"), Some("a@b.com"), None, None);
    assert s.usuarios == map[1 := first.value];
    second := s.CreateUsuario(Some("C2"), Some("a@b.com"), None, None);
    count := |s.usuarios|;
  }

  /** A created pizza shows up in the listing under its new id; deleting an id
      that was never issued changes nothing and is not an error. */
  method PizzaRoundTrip() returns (listed: seq<Pizza>, missing: Result<nat>)
    ensures Pizza(1, "Margherita", "M", 2500) in listed
    ensures missing == Ok(0)
  {
    var s := new Store();
    var p := s.CreatePizza(Some("Margherita"), Some("M"), Some(2500));
    assert s.pizzas == map[1 := Pizza(1, "Margherita", "M", 2500)];
    listed := s.ListPizzas();
    assert s.pizzas[1] in s.pizzas.Values;
    missing := s.DeletePizza(7);
  }

  /** A pizza whose name overflows VARCHAR(255) is refused before its row
      draws an id, so the next pizza still gets id 1. */
  method RefusedPizzaTakesNoId() returns (refused: Result<Pizza>, created: Result<Pizza>)
    ensures refused == Err(ValueTooLong)
    ensures created == Ok(Pizza(1, "Calabresa", "G", 3000))
  {
    var s := new Store();
    var longName := seq(300, _ => 'x');
    assert longName[NomeLength..][0] == 'x';
    refused := s.CreatePizza(Some(longName), Some("G"), Some(3000));
    created := s.CreatePizza(Some("Calabresa"), Some("G"), Some(3000));
  }

  /** A status too long for VARCHAR(50) is refused even when no order has the
      given id: the value is converted before any row is looked at. */
  method LongStatusOnMissingOrder() returns (r: Result<nat>)
    ensures r == Err(ValueTooLong)
  {
    var s := new Store();
    var status := seq(60, _ => 'x');
    assert status[StatusLength..][0] == 'x';
    r := s.UpdateStatus(999, Some(status));
  }

  /** An order naming a pizza that does not exist fails on the price lookup,
      before the order row is written, and leaves the orders empty. */
  method UnknownPizza() returns (r: Result<Receipt>, orders: nat)
    ensures r == Err(PizzaNotFound)
    ensures orders == 0
  {
    var s := new Store();
    var c1 := s.CreateUsuario(Some("C1"), Some("a@b.com"), None, None);
    r := s.CreateOrder(1, [ItemRequest(7, 1)]);
    orders := |s.pedidos|;
  }

  /** Customer C1 orders two pizzas at 20.00: the order totals 40.00 and starts
      out 'pendente'; after the status update its detail shows the new status. */
  method OrderForTwo() returns (receipt: Result<Receipt>, changed: Result<nat>, status: Option<Text>)
    ensures receipt == Ok(Receipt(1, 1, 4000, DefaultStatus))
    ensures changed == Ok(1)
    ensures status == Some("entregue")
  {
    var s := new Store();
    var c1 := s.CreateUsuario(Some("C1"), Some("a@b.com"), None, None);
    var p1 := s.CreatePizza(Some("Margherita"), Some("M"), Some(2000));
    assert 1 in s.usuarios && s.pizzas == map[1 := Pizza(1, "Margherita", "M", 2000)];
    var req := [ItemRequest(1, 2)];
    assert RequestTotal(s.pizzas, req) == 4000;
    assert OrderAccepted(s.Snapshot(), 1, req);
    receipt := s.CreateOrder(1, req);
    assert 1 in s.pedidos;
    changed := s.UpdateStatus(1, Some("entregue"));
    var detalhe := s.DetalhePedido(1);
    status := detalhe.value.pedido.status;
  }

  /** Nothing checks the sign of `quantidade`: an order for minus one pizza is
      accepted, with a negative total. */
  method NegativeQuantity() returns (receipt: Result<Receipt>)
    ensures receipt == Ok(Receipt(1, 1, -2000, DefaultStatus))
  {
    var s := new Store();
    var c1 := s.CreateUsuario(Some("C1"), Some("a@b.com"), None, None);
    var p1 := s.CreatePizza(Some("Margherita"), Some("M"), Some(2000));
    assert 1 in s.usuarios && s.pizzas == map[1 := Pizza(1, "Margherita", "M", 2000)];
    var req := [ItemRequest(1, -1)];
    assert RequestTotal(s.pizzas, req) == -2000;
    assert OrderAccepted(s.Snapshot(), 1, req);
    receipt := s.CreateOrder(1, req);
  }
}
