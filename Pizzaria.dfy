/** The order-management handlers of pizzaria-api/index.js run against an
    in-memory copy of the four relations. Each handler is one statement on the
    store, except `POST /pedidos`, which prices the request and inserts the
    order and its items inside one transaction and rolls everything back on
    the first failure. */
module Pizzaria {
  import opened Schema
  import opened Pricing
  import opened Listing

  /** The body of a successful `POST /pedidos`. */
  datatype Receipt = Receipt(id: int, usuarioId: int, total: int, status: Text)

  /** A row of `GET /pedidos`: the order with its customer's name and email. */
  datatype PedidoResumo = PedidoResumo(pedido: Pedido, usuarioNome: Text, usuarioEmail: Text)

  /** An item of `GET /pedidos/:id`, with the pizza's current name and size. */
  datatype ItemDetalhe = ItemDetalhe(item: PedidoItem, pizzaNome: Text, pizzaTamanho: Text)

  /** The body of `GET /pedidos/:id`: the order, its customer's contact fields and its items. */
  datatype PedidoDetalhe = PedidoDetalhe(
    pedido: Pedido,
    usuarioNome: Text, usuarioEmail: Text,
    usuarioTelefone: Option<Text>, usuarioEndereco: Option<Text>,
    itens: seq<ItemDetalhe>)

  /** Every key was issued by a SERIAL sequence whose next value is `next`. */
  predicate IdsBelow(keys: set<int>, next: int) {
    1 <= next && forall k :: k in keys ==> 1 <= k < next
  }

  /** `created_at` lies in the past and grows with the id. */
  predicate UsuariosInOrder(us: map<int, Usuario>, clock: nat) {
    && (forall k :: k in us ==> us[k].createdAt < clock)
    && (forall a, b :: a in us && b in us && a < b ==> us[a].createdAt < us[b].createdAt)
  }

  predicate PedidosInOrder(ps: map<int, Pedido>, clock: nat) {
    && (forall k :: k in ps ==> ps[k].createdAt < clock)
    && PedidosByAge(ps)
  }

  predicate PedidosByAge(ps: map<int, Pedido>) {
    forall a, b :: a in ps && b in ps && a < b ==> ps[a].createdAt < ps[b].createdAt
  }

  /** `s` could be the contents of a store whose sequences stand at the given
      values: well-formed, every id already issued, every timestamp in the past. */
  predicate Admits(s: Tables, nextPizzaId: int, nextUsuarioId: int, nextPedidoId: int, nextItemId: int, clock: nat) {
    && WellFormed(s)
    && IdsBelow(s.pizzas.Keys, nextPizzaId)
    && IdsBelow(s.usuarios.Keys, nextUsuarioId)
    && IdsBelow(s.pedidos.Keys, nextPedidoId)
    && IdsBelow(s.itens.Keys, nextItemId)
    && UsuariosInOrder(s.usuarios, clock)
    && PedidosInOrder(s.pedidos, clock)
  }

  /** Sequences and the clock only move forward, so contents admissible once stay admissible. */
  lemma AdmitsLater(s: Tables, p: int, u: int, pe: int, it: int, c: nat, p': int, u': int, pe': int, it': int, c': nat)
    requires Admits(s, p, u, pe, it, c)
    requires p <= p' && u <= u' && pe <= pe' && it <= it' && c <= c'
    ensures Admits(s, p', u', pe', it', c')
  {
  }

  /** A well-formed new customer row under the next id and the current time
      keeps the contents admissible once sequence and clock move on. */
  lemma AdmitsNewUsuario(t: Tables, p: int, pe: int, it: int, u: Usuario)
    requires Admits(t, p, u.id, pe, it, u.createdAt)
    requires WellFormed(t.(usuarios := t.usuarios[u.id := u]))
    ensures Admits(t.(usuarios := t.usuarios[u.id := u]), p, u.id + 1, pe, it, u.createdAt + 1)
  {
  }

  /** The same for a new order row. */
  lemma AdmitsNewPedido(t: Tables, p: int, us: int, it: int, o: Pedido)
    requires Admits(t, p, us, o.id, it, o.createdAt)
    requires WellFormed(t.(pedidos := t.pedidos[o.id := o]))
    ensures Admits(t.(pedidos := t.pedidos[o.id := o]), p, us, o.id + 1, it, o.createdAt + 1)
  {
  }

  /** The `pedido_itens` rows written for the priced items of order `pedidoId`,
      under consecutive ids starting at `first`. */
  function ItemRows(pedidoId: int, first: int, items: seq<PricedItem>): (m: map<int, PedidoItem>)
    ensures forall k :: k in m <==> first <= k < first + |items|
    ensures forall k :: k in m ==>
      m[k] == PedidoItem(k, pedidoId, items[k - first].pizzaId, items[k - first].quantidade, items[k - first].precoUnitario)
  {
    if items == [] then map[]
    else
      var n := |items| - 1;
      var init := ItemRows(pedidoId, first, items[..n]);
      init[first + n := PedidoItem(first + n, pedidoId, items[n].pizzaId, items[n].quantidade, items[n].precoUnitario)]
  }

  lemma ItemRowsSnoc(pedidoId: int, first: int, items: seq<PricedItem>, i: nat)
    requires i < |items|
    ensures ItemRows(pedidoId, first, items[..i + 1]) ==
      ItemRows(pedidoId, first, items[..i])[first + i :=
        PedidoItem(first + i, pedidoId, items[i].pizzaId, items[i].quantidade, items[i].precoUnitario)]
  {
    assert items[..i + 1][..i] == items[..i];
  }

  /** Writing one more item row after the ones already written. */
  lemma ItemRowsExtend(base: map<int, PedidoItem>, pedidoId: int, first: int, items: seq<PricedItem>, i: nat)
    requires i < |items|
    ensures (base + ItemRows(pedidoId, first, items[..i]))[first + i :=
        PedidoItem(first + i, pedidoId, items[i].pizzaId, items[i].quantidade, items[i].precoUnitario)]
      == base + ItemRows(pedidoId, first, items[..i + 1])
  {
    ItemRowsSnoc(pedidoId, first, items, i);
  }

  /** When `POST /pedidos` succeeds: every pizza is known, the total fits
      DECIMAL(10,2), the customer exists and every quantity fits INTEGER. */
  predicate OrderAccepted(t: Tables, usuarioId: int, req: seq<ItemRequest>) {
    && AllPizzasKnown(t.pizzas, req)
    && FitsDecimal(RequestTotal(t.pizzas, req))
    && usuarioId in t.usuarios
    && (forall i :: 0 <= i < |req| ==> FitsInteger(req[i].quantidade))
  }

  /** How many `pedido_itens` rows `POST /pedidos` writes before it commits
      or rolls back; each takes an id that a rollback does not give back. The
      insert refused for an out-of-range quantity takes none. */
  function ItemInserts(t: Tables, usuarioId: int, req: seq<ItemRequest>): nat {
    if !AllPizzasKnown(t.pizzas, req) then 0
    else if !FitsDecimal(RequestTotal(t.pizzas, req)) || usuarioId !in t.usuarios then 0
    else FirstUnfit(Priced(t.pizzas, req).value)
  }

  class Store {
    var pizzas: map<int, Pizza>
    var usuarios: map<int, Usuario>
    var pedidos: map<int, Pedido>
    var itens: map<int, PedidoItem>

    /** The next value of each relation's SERIAL sequence. */
    var nextPizzaId: int
    var nextUsuarioId: int
    var nextPedidoId: int
    var nextItemId: int

    /** Stands for CURRENT_TIMESTAMP: every insert that stamps `created_at` and
        gets as far as drawing its id advances it. */
    var clock: nat

    function Snapshot(): Tables
      reads this
    {
      Tables(pizzas, usuarios, pedidos, itens)
    }

    /** `s` could be the contents of this store: well-formed, every id already
        issued by its sequence, every timestamp in the past. */
    ghost predicate Admissible(s: Tables)
      reads this
    {
      Admits(s, nextPizzaId, nextUsuarioId, nextPedidoId, nextItemId, clock)
    }

    ghost predicate Valid()
      reads this
    {
      Admissible(Snapshot())
    }

    /** The relations as `createTables` leaves them on a fresh database. */
    constructor ()
      ensures Valid() && Snapshot() == NoRows
      ensures nextPizzaId == 1 && nextUsuarioId == 1 && nextPedidoId == 1 && nextItemId == 1
    {
      pizzas, usuarios, pedidos, itens := map[], map[], map[], map[];
      nextPizzaId, nextUsuarioId, nextPedidoId, nextItemId := 1, 1, 1, 1;
      clock := 0;
    }

    // ------------------------------------------------------------- pizzas

    /** `POST /pizzas`. */
    method CreatePizza(nome: Option<Text>, tamanho: Option<Text>, preco: Option<int>) returns (r: Result<Pizza>)
      requires Valid()
      modifies this
      ensures Valid()
      ensures r == PizzaRow(old(nextPizzaId), nome, tamanho, preco)
      ensures r.Ok? ==> r.value.id !in old(pizzas) && pizzas == old(pizzas)[r.value.id := r.value]
      ensures r.Err? ==> pizzas == old(pizzas)
      ensures nextPizzaId == old(nextPizzaId) + (if DrawsId(r) then 1 else 0)
      ensures usuarios == old(usuarios) && pedidos == old(pedidos) && itens == old(itens)
      ensures nextUsuarioId == old(nextUsuarioId) && nextPedidoId == old(nextPedidoId)
      ensures nextItemId == old(nextItemId) && clock == old(clock)
    {
      var id := nextPizzaId;
      r := PizzaRow(id, nome, tamanho, preco);
      if DrawsId(r) {
        nextPizzaId := nextPizzaId + 1;
      }
      if r.Ok? {
        pizzas := pizzas[id := r.value];
      }
    }

    /** `GET /pizzas`: every pizza once. */
    function ListPizzas(): (r: seq<Pizza>)
      reads this
      requires Valid()
      ensures forall p :: p in r <==> p in pizzas.Values
      ensures forall i, j :: 0 <= i < j < |r| ==> r[i].id < r[j].id
    {
      var ids := Ascending(pizzas.Keys, 1, nextPizzaId);
      assert forall i :: 0 <= i < |ids| ==> ids[i] in ids;
      Rows(pizzas, ids)
    }

    /** `DELETE /pizzas/:id`: `changes` counts the rows removed. */
    method DeletePizza(id: int) returns (r: Result<nat>)
      requires Valid()
      modifies this
      ensures Valid()
      ensures r.Err? <==> id in old(pizzas) && PizzaReferenced(old(itens), id)
      ensures r.Err? ==> r.error == ForeignKeyViolation && pizzas == old(pizzas)
      ensures r.Ok? ==> pizzas == old(pizzas) - {id}
      ensures r.Ok? ==> r.value == |old(pizzas)| - |pizzas| == if id in old(pizzas) then 1 else 0
      ensures usuarios == old(usuarios) && pedidos == old(pedidos) && itens == old(itens)
      ensures nextPizzaId == old(nextPizzaId) && nextUsuarioId == old(nextUsuarioId)
      ensures nextPedidoId == old(nextPedidoId) && nextItemId == old(nextItemId) && clock == old(clock)
    {
      if id !in pizzas {
        assert pizzas - {id} == pizzas;
        return Ok(0);
      }
      if PizzaReferenced(itens, id) {
        return Err(ForeignKeyViolation);
      }
      PizzaRemoved(Snapshot(), id);
      pizzas := pizzas - {id};
      assert pizzas.Keys == old(pizzas).Keys - {id};
      r := Ok(1);
    }

    // ----------------------------------------------------------- usuarios

    /** `POST /usuarios`. */
    method CreateUsuario(nome: Option<Text>, email: Option<Text>, telefone: Option<Text>, endereco: Option<Text>)
      returns (r: Result<Usuario>)
      requires Valid()
      modifies this
      ensures Valid()
      ensures r == UsuarioRow(old(Snapshot()), old(nextUsuarioId), nome, email, telefone, endereco, old(clock))
      ensures r.Ok? ==> r.value.id !in old(usuarios) && usuarios == old(usuarios)[r.value.id := r.value]
      ensures r.Err? ==> usuarios == old(usuarios)
      ensures var drawn := if DrawsId(r) then 1 else 0;
        nextUsuarioId == old(nextUsuarioId) + drawn && clock == old(clock) + drawn
      ensures pizzas == old(pizzas) && pedidos == old(pedidos) && itens == old(itens)
      ensures nextPizzaId == old(nextPizzaId) && nextPedidoId == old(nextPedidoId) && nextItemId == old(nextItemId)
    {
      var id, createdAt := nextUsuarioId, clock;
      r := UsuarioRow(Snapshot(), id, nome, email, telefone, endereco, createdAt);
      if r.Ok? {
        AdmitsNewUsuario(Snapshot(), nextPizzaId, nextPedidoId, nextItemId, r.value);
        usuarios := usuarios[id := r.value];
        nextUsuarioId, clock := nextUsuarioId + 1, clock + 1;
      } else if DrawsId(r) {
        AdmitsLater(Snapshot(), nextPizzaId, id, nextPedidoId, nextItemId, createdAt,
                    nextPizzaId, id + 1, nextPedidoId, nextItemId, createdAt + 1);
        nextUsuarioId, clock := nextUsuarioId + 1, clock + 1;
      }
    }

    /** `GET /usuarios`: every customer once, newest first. */
    function ListUsuarios(): (r: seq<Usuario>)
      reads this
      requires Valid()
      ensures forall u :: u in r <==> u in usuarios.Values
      ensures forall i, j :: 0 <= i < j < |r| ==> r[i].createdAt > r[j].createdAt
    {
      var ids := Descending(usuarios.Keys, 1, nextUsuarioId);
      assert forall i :: 0 <= i < |ids| ==> ids[i] in ids;
      Rows(usuarios, ids)
    }

    /** `GET /usuarios/email/:email`: None is the 404 "Usuário não encontrado". */
    function FindUsuarioByEmail(email: Text): (r: Option<Usuario>)
      reads this
      requires Valid()
      ensures r.None? <==> !EmailTaken(usuarios, email)
      ensures r.Some? ==> r.value.email == email && r.value.id in usuarios && usuarios[r.value.id] == r.value
      ensures forall k :: k in usuarios && usuarios[k].email == email ==> r == Some(usuarios[k])
    {
      var us := usuarios;
      var ids := Where(Ascending(us.Keys, 1, nextUsuarioId), set k | k in us && us[k].email == email);
      if ids == [] then None
      else
        assert ids[0] in ids;
        Some(us[ids[0]])
    }

    // ------------------------------------------------------------ pedidos

    /** `INSERT INTO pedidos (usuario_id, total)` inside the order transaction. */
    method InsertPedido(usuarioId: int, total: int) returns (r: Result<Pedido>)
      requires Valid()
      modifies this
      ensures Valid()
      ensures r == PedidoRow(old(Snapshot()), old(nextPedidoId), usuarioId, total, old(clock))
      ensures r.Ok? ==> r.value.id !in old(pedidos) && pedidos == old(pedidos)[r.value.id := r.value]
      ensures r.Err? ==> pedidos == old(pedidos)
      ensures var drawn := if DrawsId(r) then 1 else 0;
        nextPedidoId == old(nextPedidoId) + drawn && clock == old(clock) + drawn
      ensures pizzas == old(pizzas) && usuarios == old(usuarios) && itens == old(itens)
      ensures nextPizzaId == old(nextPizzaId) && nextUsuarioId == old(nextUsuarioId) && nextItemId == old(nextItemId)
    {
      var id, createdAt := nextPedidoId, clock;
      r := PedidoRow(Snapshot(), id, usuarioId, total, createdAt);
      if r.Ok? {
        AdmitsNewPedido(Snapshot(), nextPizzaId, nextUsuarioId, nextItemId, r.value);
        pedidos := pedidos[id := r.value];
        nextPedidoId, clock := nextPedidoId + 1, clock + 1;
      } else if DrawsId(r) {
        AdmitsLater(Snapshot(), nextPizzaId, nextUsuarioId, id, nextItemId, createdAt,
                    nextPizzaId, nextUsuarioId, id + 1, nextItemId, createdAt + 1);
        nextPedidoId, clock := nextPedidoId + 1, clock + 1;
      }
    }

    /** `INSERT INTO pedido_itens (...)` inside the order transaction. */
    method InsertItem(pedidoId: int, pizzaId: int, quantidade: int, precoUnitario: int) returns (r: Result<PedidoItem>)
      requires Valid()
      modifies this
      ensures Valid()
      ensures r.Ok? <==>
        FitsInteger(quantidade) && FitsDecimal(precoUnitario) && pedidoId in old(pedidos) && pizzaId in old(pizzas)
      ensures r.Err? && !FitsInteger(quantidade) ==> r.error == IntegerOutOfRange
      ensures r.Ok? ==> r.value == PedidoItem(old(nextItemId), pedidoId, pizzaId, quantidade, precoUnitario)
      ensures r.Ok? ==> r.value.id !in old(itens) && itens == old(itens)[r.value.id := r.value]
      ensures r.Err? ==> itens == old(itens)
      ensures nextItemId == old(nextItemId) + if FitsInteger(quantidade) && FitsDecimal(precoUnitario) then 1 else 0
      ensures pizzas == old(pizzas) && usuarios == old(usuarios) && pedidos == old(pedidos)
      ensures nextPizzaId == old(nextPizzaId) && nextUsuarioId == old(nextUsuarioId)
      ensures nextPedidoId == old(nextPedidoId) && clock == old(clock)
    {
      var id := nextItemId;
      r := ItemRow(Snapshot(), id, pedidoId, pizzaId, quantidade, precoUnitario);
      if DrawsId(r) {
        nextItemId := nextItemId + 1;
      }
      if r.Ok? {
        itens := itens[id := r.value];
      }
    }

    /** `ROLLBACK`: the relations return to the state `BEGIN` saw. Sequences
        and the clock keep their values. */
    method Restore(s: Tables)
      requires Admissible(s)
      modifies this
      ensures Valid() && Snapshot() == s
      ensures nextPizzaId == old(nextPizzaId) && nextUsuarioId == old(nextUsuarioId)
      ensures nextPedidoId == old(nextPedidoId) && nextItemId == old(nextItemId) && clock == old(clock)
    {
      pizzas, usuarios, pedidos, itens := s.pizzas, s.usuarios, s.pedidos, s.itens;
    }

    /** The second loop of `POST /pedidos`: one `pedido_itens` row per priced
        item, in order, stopping at the first insert the database refuses. */
    method InsertItems(pedidoId: int, items: seq<PricedItem>) returns (r: Result<nat>)
      requires Valid()
      requires pedidoId in pedidos
      requires forall i :: 0 <= i < |items| ==> items[i].pizzaId in pizzas && FitsDecimal(items[i].precoUnitario)
      modifies this
      ensures Valid()
      ensures r.Ok? <==> forall i :: 0 <= i < |items| ==> FitsInteger(items[i].quantidade)
      ensures r.Ok? ==> r.value == |items| && nextItemId == old(nextItemId) + |items|
      ensures r.Ok? ==> itens == old(itens) + ItemRows(pedidoId, old(nextItemId), items)
      ensures r.Err? ==>
        var n := nextItemId - old(nextItemId);
        && r.error == IntegerOutOfRange && n == FirstUnfit(items) < |items|
        && itens == old(itens) + ItemRows(pedidoId, old(nextItemId), items[..n])
      ensures pizzas == old(pizzas) && usuarios == old(usuarios) && pedidos == old(pedidos)
      ensures nextPizzaId == old(nextPizzaId) && nextUsuarioId == old(nextUsuarioId)
      ensures nextPedidoId == old(nextPedidoId) && clock == old(clock)
    {
      for i := 0 to |items|
        invariant Valid()
        invariant pizzas == old(pizzas) && usuarios == old(usuarios) && pedidos == old(pedidos)
        invariant itens == old(itens) + ItemRows(pedidoId, old(nextItemId), items[..i])
        invariant nextItemId == old(nextItemId) + i
        invariant nextPizzaId == old(nextPizzaId) && nextUsuarioId == old(nextUsuarioId)
        invariant nextPedidoId == old(nextPedidoId) && clock == old(clock)
        invariant i <= FirstUnfit(items)
      {
        var inserted := InsertItem(pedidoId, items[i].pizzaId, items[i].quantidade, items[i].precoUnitario);
        if inserted.Err? {
          UnfitIsFirstUnfit(items, i);
          return Err(inserted.error);
        }
        FitsBeforeFirstUnfit(items, i);
        assert inserted.value.id == old(nextItemId) + i;
        ItemRowsExtend(old(itens), pedidoId, old(nextItemId), items, i);
      }
      assert items[..|items|] == items;
      r := Ok(|items|);
    }

    /** `POST /pedidos`: price the request, insert the order and then one item
        row per priced item, all in one transaction; on the first failure roll
        back, so that no row of this call remains. */
    method CreateOrder(usuarioId: int, req: seq<ItemRequest>) returns (r: Result<Receipt>)
      requires Valid()
      modifies this
      ensures Valid()
      ensures r.Ok? <==> OrderAccepted(old(Snapshot()), usuarioId, req)
      ensures r.Ok? ==>
        && r.value == Receipt(old(nextPedidoId), usuarioId, RequestTotal(old(pizzas), req), DefaultStatus)
        && r.value.id !in old(pedidos)
        && pedidos == old(pedidos)[r.value.id := Pedido(r.value.id, usuarioId, r.value.total, Some(DefaultStatus), old(clock))]
        && itens == old(itens) + ItemRows(r.value.id, old(nextItemId), Priced(old(pizzas), req).value)
        && old(itens).Keys !! ItemRows(r.value.id, old(nextItemId), Priced(old(pizzas), req).value).Keys
      ensures r.Err? ==> Snapshot() == old(Snapshot())
      ensures r.Err? ==>
        r.error == (if !AllPizzasKnown(old(pizzas), req) then PizzaNotFound
                    else if !FitsDecimal(RequestTotal(old(pizzas), req)) then NumericOverflow
                    else if usuarioId !in old(usuarios) then ForeignKeyViolation
                    else IntegerOutOfRange)
      ensures pizzas == old(pizzas) && usuarios == old(usuarios)
      ensures nextPizzaId == old(nextPizzaId) && nextUsuarioId == old(nextUsuarioId)
      ensures var started := if AllPizzasKnown(old(pizzas), req) && FitsDecimal(RequestTotal(old(pizzas), req)) then 1 else 0;
        nextPedidoId == old(nextPedidoId) + started && clock == old(clock) + started
      ensures nextItemId == old(nextItemId) + ItemInserts(old(Snapshot()), usuarioId, req)
    {
      var snapshot := Snapshot();  // BEGIN
      ghost var p0, u0, pe0, it0, c0 := nextPizzaId, nextUsuarioId, nextPedidoId, nextItemId, clock;
      var quote := PriceItems(pizzas, req);
      if quote.Err? {
        Restore(snapshot);  // ROLLBACK
        return Err(quote.error);
      }
      var pedido := InsertPedido(usuarioId, quote.value.total);
      if pedido.Err? {
        AdmitsLater(snapshot, p0, u0, pe0, it0, c0, nextPizzaId, nextUsuarioId, nextPedidoId, nextItemId, clock);
        Restore(snapshot);  // ROLLBACK
        return Err(pedido.error);
      }
      var items := quote.value.items;
      var inserted := InsertItems(pedido.value.id, items);
      if inserted.Err? {
        assert forall j :: 0 <= j < |req| ==> items[j].quantidade == req[j].quantidade;
        AdmitsLater(snapshot, p0, u0, pe0, it0, c0, nextPizzaId, nextUsuarioId, nextPedidoId, nextItemId, clock);
        Restore(snapshot);  // ROLLBACK
        return Err(inserted.error);
      }
      // COMMIT
      assert forall j :: 0 <= j < |req| ==> items[j].quantidade == req[j].quantidade;
      r := Ok(Receipt(pedido.value.id, usuarioId, quote.value.total, DefaultStatus));
    }

    /** `GET /pedidos` on the current contents (see PedidosComClientes). */
    function ListPedidos(): seq<PedidoResumo>
      reads this
      requires Valid()
    {
      PedidosComClientes(pedidos, usuarios, nextPedidoId)
    }

    /** `GET /usuarios/:id/pedidos` on the current contents (see PedidosDoUsuario). */
    function ListPedidosDoUsuario(usuarioId: int): seq<Pedido>
      reads this
      requires Valid()
    {
      PedidosDoUsuario(pedidos, usuarioId, nextPedidoId)
    }

    /** `GET /pedidos/:id`: None is the 404 "Pedido não encontrado". Items
        carry the pizza's current name and size. */
    function DetalhePedido(id: int): (r: Option<PedidoDetalhe>)
      reads this
      requires Valid()
      ensures r.None? <==> id !in pedidos
      ensures r.Some? ==>
        var u := usuarios[pedidos[id].usuarioId];
        && r.value.pedido == pedidos[id]
        && r.value.usuarioNome == u.nome && r.value.usuarioEmail == u.email
        && r.value.usuarioTelefone == u.telefone && r.value.usuarioEndereco == u.endereco
      ensures r.Some? ==> ItensDoPedido(itens, pizzas, id, r.value.itens)
    {
      if id in pedidos && pedidos[id].usuarioId in usuarios then
        var p := pedidos[id];
        var u := usuarios[p.usuarioId];
        Some(PedidoDetalhe(p, u.nome, u.email, u.telefone, u.endereco, JoinItens(itens, pizzas, id, nextItemId)))
      else
        None
    }

    /** `PUT /pedidos/:id/status`: overwrites the status of that order, whatever
        it was and whatever the new value is; `changes` counts the rows updated. */
    method UpdateStatus(id: int, status: Option<Text>) returns (r: Result<nat>)
      requires Valid()
      modifies this
      ensures Valid()
      ensures r.Err? <==> status.Some? && !Storable(status.value, StatusLength)
      ensures r.Err? ==> r.error == ValueTooLong && pedidos == old(pedidos)
      ensures r.Ok? ==> r.value == if id in old(pedidos) then 1 else 0
      ensures r.Ok? && id in old(pedidos) ==>
        pedidos == old(pedidos)[id := old(pedidos)[id].(status := StoredText(status, StatusLength))]
      ensures id !in old(pedidos) ==> pedidos == old(pedidos)
      ensures pizzas == old(pizzas) && usuarios == old(usuarios) && itens == old(itens)
      ensures nextPizzaId == old(nextPizzaId) && nextUsuarioId == old(nextUsuarioId)
      ensures nextPedidoId == old(nextPedidoId) && nextItemId == old(nextItemId) && clock == old(clock)
    {
      if status.Some? && !Storable(status.value, StatusLength) {
        return Err(ValueTooLong);
      }
      if id !in pedidos {
        return Ok(0);
      }
      pedidos := pedidos[id := pedidos[id].(status := StoredText(status, StatusLength))];
      r := Ok(1);
    }
  }

  /** The ids of the orders `keep` accepts, newest first: a query on `pedidos`
      with `ORDER BY created_at DESC`. */
  function NewestFirst(ps: map<int, Pedido>, nextPedidoId: int, keep: set<int>): (ids: seq<int>)
    requires IdsBelow(ps.Keys, nextPedidoId) && PedidosByAge(ps)
    ensures forall i :: 0 <= i < |ids| ==> ids[i] in ps && ids[i] in keep
    ensures forall k :: k in ps && k in keep ==> k in ids
    ensures forall i, j :: 0 <= i < j < |ids| ==> ps[ids[i]].createdAt > ps[ids[j]].createdAt
  {
    var ids := Select(ps, nextPedidoId, keep, false);
    ids
  }

  /** The query of `GET /pedidos`: every order joined with its customer,
      newest first. */
  function PedidosComClientes(ps: map<int, Pedido>, us: map<int, Usuario>, nextPedidoId: int): (r: seq<PedidoResumo>)
    requires IdsBelow(ps.Keys, nextPedidoId) && PedidosByAge(ps) && PedidosOk(ps, us.Keys)
    ensures forall i :: 0 <= i < |r| ==>
      && r[i].pedido.id in ps && ps[r[i].pedido.id] == r[i].pedido
      && r[i].usuarioNome == us[r[i].pedido.usuarioId].nome
      && r[i].usuarioEmail == us[r[i].pedido.usuarioId].email
    ensures forall k :: k in ps ==> exists i :: 0 <= i < |r| && r[i].pedido == ps[k]
    ensures forall i, j :: 0 <= i < j < |r| ==> r[i].pedido.createdAt > r[j].pedido.createdAt
  {
    var keep := WithUsuario(ps, us.Keys);
    var ids := NewestFirst(ps, nextPedidoId, keep);
    var r := Resumos(ps, us, ids);
    forall i, j | 0 <= i < j < |r| ensures r[i].pedido.createdAt > r[j].pedido.createdAt {
      assert r[i].pedido == ps[ids[i]] && r[j].pedido == ps[ids[j]];
    }
    forall k | k in ps ensures exists i :: 0 <= i < |r| && r[i].pedido == ps[k] {
      assert k in keep;
      var i :| 0 <= i < |ids| && ids[i] == k;
      assert r[i].pedido == ps[ids[i]];
    }
    r
  }

  /** The query of `GET /usuarios/:id/pedidos`: that customer's orders, newest
      first; empty when there are none. */
  function PedidosDoUsuario(ps: map<int, Pedido>, usuarioId: int, nextPedidoId: int): (r: seq<Pedido>)
    requires IdsBelow(ps.Keys, nextPedidoId) && PedidosByAge(ps)
    requires forall k :: k in ps ==> ps[k].id == k
    ensures forall i :: 0 <= i < |r| ==> r[i].id in ps && ps[r[i].id] == r[i] && r[i].usuarioId == usuarioId
    ensures forall k :: k in ps && ps[k].usuarioId == usuarioId ==> exists i :: 0 <= i < |r| && r[i] == ps[k]
    ensures forall i, j :: 0 <= i < j < |r| ==> r[i].createdAt > r[j].createdAt
  {
    var keep := WithUsuario(ps, {usuarioId});
    var ids := NewestFirst(ps, nextPedidoId, keep);
    var r := Rows(ps, ids);
    forall i | 0 <= i < |r| ensures r[i].id in ps && ps[r[i].id] == r[i] && r[i].usuarioId == usuarioId {
      assert r[i] == ps[ids[i]] && ids[i] in keep;
    }
    forall i, j | 0 <= i < j < |r| ensures r[i].createdAt > r[j].createdAt {
      assert r[i] == ps[ids[i]] && r[j] == ps[ids[j]];
    }
    forall k | k in ps && ps[k].usuarioId == usuarioId ensures exists i :: 0 <= i < |r| && r[i] == ps[k] {
      assert k in keep;
      RowListed(ps, ids, k);
    }
    r
  }

  /** The ids of the orders whose customer is one of `usuarioIds`. */
  function WithUsuario(ps: map<int, Pedido>, usuarioIds: set<int>): (keep: set<int>)
    ensures forall k :: k in keep <==> k in ps && ps[k].usuarioId in usuarioIds
  {
    set k | k in ps && ps[k].usuarioId in usuarioIds
  }

  /** The join of orders with their customers, in the order of `ids`. */
  function Resumos(ps: map<int, Pedido>, us: map<int, Usuario>, ids: seq<int>): (r: seq<PedidoResumo>)
    requires forall i :: 0 <= i < |ids| ==> ids[i] in ps && ps[ids[i]].usuarioId in us
    ensures |r| == |ids|
    ensures forall i :: 0 <= i < |ids| ==>
      r[i] == PedidoResumo(ps[ids[i]], us[ps[ids[i]].usuarioId].nome, us[ps[ids[i]].usuarioId].email)
  {
    seq(|ids|, i requires 0 <= i < |ids| =>
      PedidoResumo(ps[ids[i]], us[ps[ids[i]].usuarioId].nome, us[ps[ids[i]].usuarioId].email))
  }

  /** The join of items with their pizzas, in the order of `ids`. */
  function Detalhes(its: map<int, PedidoItem>, pzs: map<int, Pizza>, ids: seq<int>): (r: seq<ItemDetalhe>)
    requires forall i :: 0 <= i < |ids| ==> ids[i] in its && its[ids[i]].pizzaId in pzs
    ensures |r| == |ids|
    ensures forall i :: 0 <= i < |ids| ==>
      r[i] == ItemDetalhe(its[ids[i]], pzs[its[ids[i]].pizzaId].nome, pzs[its[ids[i]].pizzaId].tamanho)
  {
    seq(|ids|, i requires 0 <= i < |ids| =>
      ItemDetalhe(its[ids[i]], pzs[its[ids[i]].pizzaId].nome, pzs[its[ids[i]].pizzaId].tamanho))
  }

  /** `ds` lists exactly the item rows of order `pedidoId`, each once, by
      ascending id (the order the model fixes for a query without ORDER BY),
      each with its pizza's current name and size. */
  predicate ItensDoPedido(its: map<int, PedidoItem>, pzs: map<int, Pizza>, pedidoId: int, ds: seq<ItemDetalhe>) {
    && (forall i :: 0 <= i < |ds| ==>
          && ds[i].item.id in its && its[ds[i].item.id] == ds[i].item && ds[i].item.pedidoId == pedidoId
          && ds[i].item.pizzaId in pzs
          && ds[i].pizzaNome == pzs[ds[i].item.pizzaId].nome
          && ds[i].pizzaTamanho == pzs[ds[i].item.pizzaId].tamanho)
    && (forall k :: k in its && its[k].pedidoId == pedidoId ==>
          exists i :: 0 <= i < |ds| && ds[i].item == its[k])
    && (forall i, j :: 0 <= i < j < |ds| ==> ds[i].item.id < ds[j].item.id)
  }

  /** The items query of `GET /pedidos/:id`: the order's item rows joined with their pizzas. */
  function JoinItens(its: map<int, PedidoItem>, pzs: map<int, Pizza>, pedidoId: int, nextItemId: int): (r: seq<ItemDetalhe>)
    requires IdsBelow(its.Keys, nextItemId)
    requires forall k :: k in its ==> its[k].id == k && its[k].pizzaId in pzs
    ensures ItensDoPedido(its, pzs, pedidoId, r)
  {
    var keep := set k | k in its && its[k].pedidoId == pedidoId && its[k].pizzaId in pzs;
    var ids := Select(its, nextItemId, keep, true);
    var r := Detalhes(its, pzs, ids);
    forall i | 0 <= i < |r|
      ensures && r[i].item.id in its && its[r[i].item.id] == r[i].item && r[i].item.pedidoId == pedidoId
              && r[i].item.pizzaId in pzs
              && r[i].pizzaNome == pzs[r[i].item.pizzaId].nome
              && r[i].pizzaTamanho == pzs[r[i].item.pizzaId].tamanho
    {
      assert ids[i] in keep;
      assert r[i] == ItemDetalhe(its[ids[i]], pzs[its[ids[i]].pizzaId].nome, pzs[its[ids[i]].pizzaId].tamanho);
    }
    forall k | k in its && its[k].pedidoId == pedidoId ensures exists i :: 0 <= i < |r| && r[i].item == its[k] {
      assert k in keep;
      DetalheListed(its, pzs, ids, k);
    }
    forall i, j | 0 <= i < j < |r| ensures r[i].item.id < r[j].item.id {
      assert r[i].item == its[ids[i]] && r[j].item == its[ids[j]];
    }
    r
  }

  /** An item listed in `ids` appears in `Detalhes(its, pzs, ids)`. */
  lemma DetalheListed(its: map<int, PedidoItem>, pzs: map<int, Pizza>, ids: seq<int>, k: int)
    requires forall i :: 0 <= i < |ids| ==> ids[i] in its && its[ids[i]].pizzaId in pzs
    requires k in ids
    ensures exists i :: 0 <= i < |ids| && Detalhes(its, pzs, ids)[i].item == its[k]
  {
    var i :| 0 <= i < |ids| && ids[i] == k;
    assert Detalhes(its, pzs, ids)[i].item == its[ids[i]];
  }
}
