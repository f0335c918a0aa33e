# Pizzeria order management, modelled in Dafny

This project models the order-management core of the pizzeria API (the
PostgreSQL variant). The database is an in-memory copy of its four relations:

- `pizzas`
- `usuarios` (customers)
- `pedidos` (orders)
- `pedido_itens` (order items)

The HTTP handlers are operations on that copy.

- `Schema.dfy`: the schema that `createTables` declares (`db.js`).
  - The row types, and the column rules PostgreSQL enforces on every insert.
  - VARCHAR lengths, DECIMAL(10,2), INTEGER and NOT NULL.
  - The UNIQUE index on `email` and the three foreign keys.
  - The default status `'pendente'`.
  - Create-if-absent table creation.
  - Money is kept in whole cents. A DECIMAL(10,2) value fits when its magnitude is below 10^10 cents.
- `Pricing.dfy`: the first loop of `POST /pedidos`. It prices every requested item at its pizza's current price and accumulates the total.
- `Listing.dfy`: the order in which the model lists rows.
  - PostgreSQL promises no order for a query without ORDER BY. The model fixes one: ascending id.
  - For `ORDER BY created_at DESC` the model lists by descending id. The store keeps `created_at` growing with the id, so this order is provably newest first.
  - Filters and joins are modelled as keeping the fixed order of the ids they select.
- `Pizzaria.dfy`: the `Store` class. Its fields are:
  - the four relations, as maps from id to row;
  - the four SERIAL sequences;
  - a clock that stands for `CURRENT_TIMESTAMP`.

  Every handler of `index.js` is a method (inserts, delete, update, the order transaction) or a query function on the store. `Valid()` is the store invariant. It requires that:
  - the contents satisfy every schema constraint;
  - every id lies below its sequence's next value;
  - `created_at` lies in the past and grows with the id.

  `POST /pedidos` works as follows.
  - BEGIN takes a snapshot.
  - It prices the items, inserts the order, then inserts one item row per priced item.
  - On the first refusal it restores the snapshot (ROLLBACK).
  - Sequence values drawn by a rolled-back insert are not returned, as in PostgreSQL.
  - An insert draws its SERIAL id (and, in the model, advances the clock) only if it gets past the conversion of its values (`Schema.DrawsId`). A value too long for its VARCHAR, outside DECIMAL(10,2) or outside INTEGER is refused before any id is drawn. A NOT NULL, UNIQUE or foreign-key refusal comes after the id is drawn.
- `Walkthrough.dfy`: short sessions on a fresh store that follow the handlers to their outcomes.

Behaviour of the code worth knowing, which the model follows:
- `index.js` never checks `quantidade`, so an order with a zero or negative quantity is accepted with whatever total results. `Walkthrough.NegativeQuantity` shows an order for -1 pizzas going through.
- Every failure answers 500 with the error's message, except the two 404 lookups (an email with no customer, an order id with no order). The message is the database's, or, for an unknown pizza, the TypeError from reading the price of a missing row. The model reports which check refused the request (`Schema.Error`) and leaves the HTTP status and message out.
- A new order's status is the column default `'pendente'` (`db.js` line 45).

## Model

| member | source | states |
|---|---|---|
| Schema.ToVarchar | db.js:21-22 | A VARCHAR(n) column accepts a string exactly when it is at most n characters or everything past n is blank. The stored value has at most n characters, is the input with at most some trailing spaces cut, and is the input itself when short enough. |
| Schema.StoredText | db.js:33 | A nullable VARCHAR stays NULL when NULL; otherwise it is stored as above, unchanged when short enough. |
| Schema.PizzaRow | db.js:19-24 | An insert into `pizzas` succeeds exactly when `nome`, `tamanho` and `preco` are all present, both strings fit their VARCHAR columns and the price fits DECIMAL(10,2). The row gets the given id and the stored values, unchanged when short enough. A NOT NULL error means one of the three was missing. The insert draws its id exactly when no present value is refused by its column. |
| Schema.UsuarioRow | db.js:29-36 | An insert into `usuarios` succeeds only when `nome` and `email` are present and `nome`, `email` and `telefone` fit their VARCHAR columns. It stamps the row with the given id and time, and stores `nome`, `email` and `telefone` as their columns do (unchanged when short enough) and `endereco` as given. When every column fits and both are present, it succeeds exactly when no existing user has the stored email, and otherwise fails with a UNIQUE violation. The insert draws its id exactly when no present value is refused by its column. A successful insert keeps the tables well-formed. |
| Schema.PedidoRow | db.js:41-48 | An insert into `pedidos` succeeds exactly when the total fits DECIMAL(10,2) and the customer exists. The new order's status is the default `'pendente'`. The insert draws its id exactly when the total fits. A refusal is a numeric overflow when the total does not fit, and a foreign-key violation otherwise. The insert keeps the tables well-formed. |
| Schema.ItemRow | db.js:53-61 | An insert into `pedido_itens` succeeds exactly when the quantity fits INTEGER, the unit price fits DECIMAL(10,2) and both the order and the pizza exist. The row carries exactly the given values, and the insert keeps the tables well-formed. The insert draws its id exactly when both values fit their columns. |
| Schema.PizzaRemoved | db.js:60 | Deleting a pizza that no item references keeps every foreign key intact. |
| Schema.NoRowsWellFormed | db.js:15-69 | Freshly created, empty relations satisfy every constraint. |
| Schema.CreateIfAbsent | db.js:19 | `CREATE TABLE IF NOT EXISTS` adds the relation to the schema. It changes nothing when the relation exists, and never touches existing data. |
| Schema.CreateTables | db.js:15-69 | After `createTables` all four relations exist, and the data of a consistent database is unchanged. |
| Schema.CreateTablesIdempotent | db.js:18-62 | Running `createTables` a second time changes neither the schema nor the data. |
| Listing.Ascending | pizzaria-api/index.js:51 | The ids of a relation within a range, each once, in strictly ascending order. |
| Listing.Descending | pizzaria-api/index.js:90 | The ids of a relation within a range, each once, in strictly descending order. |
| Listing.Where | pizzaria-api/index.js:102 | A WHERE clause keeps exactly the ids it accepts. |
| Listing.WhereKeepsOrder | pizzaria-api/index.js:190 | Filtering an ascending (descending) id list gives an ascending (descending) list. |
| Listing.Select | pizzaria-api/index.js:190 | A filtered query returns every accepted key of the relation and nothing else, in the requested key order. |
| Listing.RowListed | pizzaria-api/index.js:191 | A selected id's row appears in the result. |
| Pricing.Priced | pizzaria-api/index.js:128-139 | Pricing succeeds exactly when every requested pizza exists. It then gives one entry per requested item, in request order, with the item's pizza id and quantity and that pizza's current price. |
| Pricing.TotalCons | pizzaria-api/index.js:132 | Summing subtotals from the back, as `total +=` does, agrees with summing from the front. |
| Pricing.TotalIsRequestTotal | pizzaria-api/index.js:125-132 | The accumulated total is the sum, over the requested items, of each pizza's looked-up price times its quantity. |
| Pricing.PriceItems | pizzaria-api/index.js:125-139 | The pricing loop succeeds exactly when every pizza exists, and fails otherwise because a lookup found no pizza. On success it returns the priced items and the total, which is the sum of price times quantity over the request. |
| Pricing.FirstUnfit | db.js:57 | The index of the first item whose quantity does not fit INTEGER: every earlier quantity fits and that one does not. |
| Pizzaria.AdmitsLater | db.js:20 | Sequences and the clock only move forward, so contents valid under the earlier values stay valid under later ones. |
| Pizzaria.ItemRows | pizzaria-api/index.js:150-155 | The item rows written for an order sit under consecutive ids from the sequence's next value, one per priced item, in order. Each carries the order id, pizza id, quantity and snapshotted unit price. |
| Pizzaria.ItemRowsSnoc | pizzaria-api/index.js:150-155 | Writing one more item row extends the rows already written by exactly that row. |
| Pizzaria.ItemRowsExtend | pizzaria-api/index.js:150-155 | The same, on top of the item rows that existed before the transaction. |
| Pizzaria.Store.constructor | db.js:15-69 | A fresh store has empty relations, sequences at 1, and satisfies the invariant. |
| Pizzaria.Store.CreatePizza | pizzaria-api/index.js:34-46 | The outcome is that of the `pizzas` insert under the next id. The id is used up whenever the insert draws it, even when the row is then refused. On success exactly that row is added under a fresh id. On failure the pizzas are unchanged. Nothing else changes and the invariant is kept. |
| Pizzaria.Store.ListPizzas | pizzaria-api/index.js:49-56 | Every pizza exactly once, and nothing else, in ascending id order. |
| Pizzaria.Store.DeletePizza | pizzaria-api/index.js:59-68 | The delete fails exactly when the pizza exists and some item references it. Otherwise only that id is removed, and `changes` is 1 if it existed and 0 (not an error) if it did not. Nothing else changes. |
| Pizzaria.Store.CreateUsuario | pizzaria-api/index.js:73-85 | The outcome is that of the `usuarios` insert under the next id and the current time; id and time are used up whenever the insert draws them. On success exactly that row is added. On failure, including a duplicate email, the customers are unchanged. |
| Pizzaria.Store.ListUsuarios | pizzaria-api/index.js:88-95 | Every customer exactly once, newest first (strictly decreasing `created_at`). |
| Pizzaria.Store.FindUsuarioByEmail | pizzaria-api/index.js:98-111 | The lookup is "not found" exactly when no customer has that email. Otherwise it returns the stored customer with that email, which is the only one. |
| Pizzaria.Store.InsertPedido | pizzaria-api/index.js:142-147 | The outcome is that of the `pedidos` insert under the next id; id and timestamp are used up whenever the insert draws them (the total fits). On success exactly that order is added. |
| Pizzaria.Store.InsertItem | pizzaria-api/index.js:151-154 | The item insert succeeds exactly when the quantity fits INTEGER, the price fits DECIMAL(10,2) and the order and pizza exist; an out-of-range quantity is reported as such. On success exactly that row is added under a fresh id. An id is used up exactly when both values fit their columns. |
| Pizzaria.Store.Restore | pizzaria-api/index.js:161 | ROLLBACK returns the relations to the snapshot taken at BEGIN and leaves the sequences where they are. |
| Pizzaria.Store.InsertItems | pizzaria-api/index.js:150-155 | The loop writes every priced item in order. It succeeds exactly when every quantity fits INTEGER, and then the item rows written are exactly the rows for the priced items. Otherwise it stops at the first item whose quantity does not fit, with the rows for the items before it written and one id used per written row. |
| Pizzaria.Store.CreateOrder | pizzaria-api/index.js:116-166 | The order succeeds exactly when every pizza exists, the total fits, the customer exists and every quantity fits. On success the response is the new id, customer, total and `'pendente'`, the total being the sum of price times quantity; exactly one order row and one item row per requested item are added, the items under fresh ids. On any failure every relation equals its state before BEGIN. The ids used up are stated exactly: an order id whenever pricing succeeds and the total fits, and one item id per item row written before the commit or rollback. A refusal reports the first step that fails, in the handler's order: an unknown pizza (the price lookup), then a total outside DECIMAL(10,2), then a missing customer, then a quantity outside INTEGER. |
| Pizzaria.NewestFirst | pizzaria-api/index.js:174 | A filtered query on orders returns every accepted order once, with strictly decreasing `created_at`. |
| Pizzaria.PedidosComClientes | pizzaria-api/index.js:169-183 | `GET /pedidos` lists every order exactly as stored, each with its customer's name and email, newest first. |
| Pizzaria.PedidosDoUsuario | pizzaria-api/index.js:186-195 | A customer's order list holds exactly that customer's orders as stored, newest first, and is empty when there are none. |
| Pizzaria.Store.DetalhePedido | pizzaria-api/index.js:198-241 | "Not found" exactly when no order has that id. Otherwise the result is the stored order with its customer's name, email, phone and address, and exactly its item rows, each once. |
| Pizzaria.JoinItens | pizzaria-api/index.js:224-235 | The items of an order are exactly the stored item rows with that order id, each once and by ascending id, with its pizza's current name and size next to the snapshotted unit price. |
| Pizzaria.DetalheListed | pizzaria-api/index.js:231 | A selected item appears in the joined item list. |
| Pizzaria.Store.UpdateStatus | pizzaria-api/index.js:244-254 | The update fails exactly when the new status does not fit VARCHAR(50), whether or not the order exists, since the value is converted before any row is read. Otherwise only that order's status is overwritten, with any value including NULL and no transition check, and `changes` is 1 if the order exists and 0 if not. Nothing else changes. |
| Walkthrough.SameEmailTwice | db.js:32 | A second customer with an email in use is refused with a UNIQUE violation, and exactly one customer remains. |
| Walkthrough.PizzaRoundTrip | pizzaria-api/index.js:34-68 | A created pizza appears in the listing with its fields and new id. Deleting an id never issued reports 0 changes and no error. |
| Walkthrough.RefusedPizzaTakesNoId | pizzaria-api/index.js:34-46 | A pizza whose name overflows VARCHAR(255) is refused without drawing an id, so the next pizza gets id 1. |
| Walkthrough.LongStatusOnMissingOrder | pizzaria-api/index.js:244-254 | A 60-character status is refused as too long even for an order id that does not exist. |
| Walkthrough.UnknownPizza | pizzaria-api/index.js:125-139 | An order naming a pizza that does not exist is refused at the price lookup, and no order is stored. |
| Walkthrough.OrderForTwo | pizzaria-api/index.js:116-254 | Two pizzas at 20.00 give an order totalling 40.00 with status `'pendente'`. After the status update the order detail shows the new status. |
| Walkthrough.NegativeQuantity | pizzaria-api/index.js:128-158 | An order for -1 pizzas is accepted, with total -20.00. |

## Left out

- Express wiring is not modelled: routing, JSON body parsing, CORS, static files, the root route and listening on a port (`index.js` lines 1-31 and 256-258).
- The startup connectivity check, logging, and the pool/SSL/dotenv configuration are not modelled. They are I/O and environment; the pool's connection and release are part of this.
- `index-sqlite.js`, `db-sqlite.js` and `test-connection.js` are not part of this model. They are the SQLite variant and a connectivity probe.
- JavaScript number arithmetic is not modelled. Money is exact integer cents, so the float rounding of `parseFloat` and `total +=` is absent, and so is the rounding of inputs with more than two decimals.
- Malformed requests are not modelled, because ids and quantities are modelled as integers and `itens` as a list. In the code they fail only after BEGIN and roll back:
  - A missing or fractional `quantidade` makes the subtotal NaN or fractional without an error. The order row is then inserted, and the item insert is refused (NOT NULL, or not a valid INTEGER), which rolls back.
  - An `itens` that is not iterable throws inside the transaction, which rolls back.
  - A missing `usuario_id` or `pizza_id` arrives as NULL.
- Ids outside the INTEGER range are not modelled. Route parameters and request ids are unbounded integers, and SERIAL sequences never overflow. PostgreSQL would refuse such an id with an out-of-range error; the model treats it as an id matching no row.
- Schema.PizzaRow: text containing U+0000 is not modelled. PostgreSQL refuses such a text parameter when it is bound, before any id is drawn, and the request answers 500. The model accepts such a value and stores it.
- Schema.UsuarioRow: the same; a name, email, phone or address containing U+0000 is stored by the model, where PostgreSQL refuses the insert.
- Pizzaria.Store.UpdateStatus: the same; a status containing U+0000 is stored by the model, where PostgreSQL refuses the update.
- Pizzaria.Store.FindUsuarioByEmail: the same; for an email containing U+0000 the model answers "not found", where the lookup fails with a 500.
- Timestamps are not real clock values. `created_at` is a counter advanced by each insert that stamps it and draws its id, so two rows never share a timestamp; ties between equal timestamps are not modelled.
- The database's error message text and the HTTP status codes are not modelled. Only which constraint refused the statement is.
- Concurrent requests and transaction isolation are not modelled; handlers run one at a time.
- `Pizzaria.Store` starts from a created schema. Running handlers before `createTables`, which the database would refuse, is not modelled; table creation itself is modelled separately in `Schema`.
- `Pizzaria.Store.ListPedidos` and `Pizzaria.Store.ListPedidosDoUsuario` only read the store's fields. Their guarantees are those of `Pizzaria.PedidosComClientes` and `Pizzaria.PedidosDoUsuario`.
