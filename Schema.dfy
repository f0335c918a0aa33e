/** The relational schema that `createTables` declares: the four relations, the
    rows they hold, the constraints the database enforces on every insert, and
    the create-if-absent step that brings the relations into existence.

    Money columns are DECIMAL(10,2); the model keeps them as whole cents, so a
    value fits the column when its magnitude is below 10^10 cents. */
module Schema {

  type Text = seq<char>

  datatype Option<+T> = None | Some(value: T)

  /** Why a statement is refused. The database's message text is not modelled. */
  datatype Error =
    | NotNullViolation     // a NOT NULL column received no value
    | ValueTooLong         // a string longer than its VARCHAR(n) column
    | NumericOverflow      // a value outside DECIMAL(10,2)
    | IntegerOutOfRange    // a value outside INTEGER
    | UniqueViolation      // a second user with an email already in use
    | ForeignKeyViolation  // a reference to a missing row, or deleting a referenced row
    | PizzaNotFound        // the price lookup of an order item found no pizza

  datatype Result<+T> = Ok(value: T) | Err(error: Error)

  /** Whether an INSERT got as far as drawing its row's SERIAL id (and its
      CURRENT_TIMESTAMP). A value that does not fit its column is refused while
      the bound parameters are converted and the statement planned, before any
      column DEFAULT runs; NOT NULL, UNIQUE and foreign keys are checked on the
      row being stored, after its defaults were evaluated. */
  predicate DrawsId<T>(r: Result<T>) {
    r.Ok? || r.error == NotNullViolation || r.error == UniqueViolation || r.error == ForeignKeyViolation
  }

  const NomeLength: nat := 255
  const TamanhoLength: nat := 50
  const EmailLength: nat := 255
  const TelefoneLength: nat := 20
  const StatusLength: nat := 50

  /** DECIMAL(10,2): ten digits, two after the point, so at most 99999999.99. */
  const DecimalBound: int := 10_000_000_000

  /** INTEGER is a signed 32-bit column. */
  const IntegerMin: int := -0x8000_0000
  const IntegerMax: int := 0x7FFF_FFFF

  /** The column default of `pedidos.status`. */
  const DefaultStatus: Text := "pendente"

  predicate FitsDecimal(cents: int) {
    -DecimalBound < cents < DecimalBound
  }

  predicate FitsInteger(n: int) {
    IntegerMin <= n <= IntegerMax
  }

  predicate OnlySpaces(s: Text) {
    forall i :: 0 <= i < |s| ==> s[i] == ' '
  }

  /** A VARCHAR(n) column accepts `s` when it is short enough or when everything
      past the limit is blank. */
  predicate Storable(s: Text, n: nat) {
    |s| <= n || OnlySpaces(s[n..])
  }

  /** `stored` is `given` with at most some trailing spaces cut off. */
  predicate Trimmed(stored: Text, given: Text) {
    stored <= given && OnlySpaces(given[|stored|..])
  }

  /** The value a VARCHAR(n) column stores for `s`: `s` itself, or `s` cut to `n`
      characters when only spaces are cut off. */
  function ToVarchar(s: Text, n: nat): (r: Option<Text>)
    ensures r.Some? <==> Storable(s, n)
    ensures r.Some? ==> |r.value| <= n && Trimmed(r.value, s)
    ensures r.Some? && |s| <= n ==> r.value == s
  {
    if |s| <= n then Some(s)
    else if OnlySpaces(s[n..]) then Some(s[..n])
    else None
  }

  /** A nullable VARCHAR(n) value as stored: NULL stays NULL. */
  function StoredText(v: Option<Text>, n: nat): (r: Option<Text>)
    requires v.Some? ==> Storable(v.value, n)
    ensures r.Some? <==> v.Some?
    ensures r.Some? ==> |r.value| <= n && Trimmed(r.value, v.value)
    ensures v.Some? && |v.value| <= n ==> r == v
  {
    if v.Some? then ToVarchar(v.value, n) else None
  }

  // ---------------------------------------------------------------- rows

  datatype Pizza = Pizza(id: int, nome: Text, tamanho: Text, preco: int)

  datatype Usuario = Usuario(
    id: int, nome: Text, email: Text,
    telefone: Option<Text>, endereco: Option<Text>,
    createdAt: nat)

  datatype Pedido = Pedido(id: int, usuarioId: int, total: int, status: Option<Text>, createdAt: nat)

  datatype PedidoItem = PedidoItem(id: int, pedidoId: int, pizzaId: int, quantidade: int, precoUnitario: int)

  /** The contents of the four relations, each keyed by its surrogate id. */
  datatype Tables = Tables(
    pizzas: map<int, Pizza>,
    usuarios: map<int, Usuario>,
    pedidos: map<int, Pedido>,
    itens: map<int, PedidoItem>)

  /** Column types and lengths of one row of each relation (NOT NULL is in the types). */
  predicate PizzaRowOk(p: Pizza) {
    |p.nome| <= NomeLength && |p.tamanho| <= TamanhoLength && FitsDecimal(p.preco)
  }

  predicate UsuarioRowOk(u: Usuario) {
    |u.nome| <= NomeLength && |u.email| <= EmailLength &&
    (u.telefone.Some? ==> |u.telefone.value| <= TelefoneLength)
  }

  predicate PedidoRowOk(p: Pedido) {
    FitsDecimal(p.total) && (p.status.Some? ==> |p.status.value| <= StatusLength)
  }

  predicate ItemRowOk(i: PedidoItem) {
    FitsInteger(i.quantidade) && FitsDecimal(i.precoUnitario)
  }

  predicate EmailTaken(usuarios: map<int, Usuario>, email: Text) {
    exists k :: k in usuarios && usuarios[k].email == email
  }

  predicate PizzaReferenced(itens: map<int, PedidoItem>, pizzaId: int) {
    exists k :: k in itens && itens[k].pizzaId == pizzaId
  }

  /** Every pizza sits under its own id and fits its columns. */
  predicate PizzasOk(m: map<int, Pizza>) {
    forall k :: k in m ==> m[k].id == k && PizzaRowOk(m[k])
  }

  /** Every user sits under its own id and fits its columns; `email` is unique. */
  predicate UsuariosOk(m: map<int, Usuario>) {
    && (forall k :: k in m ==> m[k].id == k && UsuarioRowOk(m[k]))
    && (forall a, b :: a in m && b in m && m[a].email == m[b].email ==> a == b)
  }

  /** Every order sits under its own id, fits its columns and names an existing user. */
  predicate PedidosOk(m: map<int, Pedido>, usuarioIds: set<int>) {
    forall k :: k in m ==> m[k].id == k && PedidoRowOk(m[k]) && m[k].usuarioId in usuarioIds
  }

  /** Every item sits under its own id, fits its columns and names an existing
      order and an existing pizza. */
  predicate ItensOk(m: map<int, PedidoItem>, pedidoIds: set<int>, pizzaIds: set<int>) {
    forall k :: k in m ==>
      m[k].id == k && ItemRowOk(m[k]) && m[k].pedidoId in pedidoIds && m[k].pizzaId in pizzaIds
  }

  /** Everything the schema guarantees of its contents: every row sits under its
      own id and fits its columns, `email` is unique, and every foreign key names
      an existing row. */
  predicate WellFormed(t: Tables) {
    && PizzasOk(t.pizzas)
    && UsuariosOk(t.usuarios)
    && PedidosOk(t.pedidos, t.usuarios.Keys)
    && ItensOk(t.itens, t.pedidos.Keys, t.pizzas.Keys)
  }

  const NoRows: Tables := Tables(map[], map[], map[], map[])

  lemma NoRowsWellFormed()
    ensures WellFormed(NoRows)
  {
  }

  // ------------------------------------------------------ single-row inserts

  /** The row `INSERT INTO pizzas (nome, tamanho, preco)` stores under `id`, or
      why the insert is refused. A missing field arrives as NULL. */
  function PizzaRow(id: int, nome: Option<Text>, tamanho: Option<Text>, preco: Option<int>): (r: Result<Pizza>)
    ensures r.Ok? <==>
      && nome.Some? && tamanho.Some? && preco.Some?
      && Storable(nome.value, NomeLength) && Storable(tamanho.value, TamanhoLength)
      && FitsDecimal(preco.value)
    ensures r.Ok? ==>
      && r.value.id == id && PizzaRowOk(r.value) && r.value.preco == preco.value
      && Trimmed(r.value.nome, nome.value) && Trimmed(r.value.tamanho, tamanho.value)
      && (|nome.value| <= NomeLength ==> r.value.nome == nome.value)
      && (|tamanho.value| <= TamanhoLength ==> r.value.tamanho == tamanho.value)
    ensures r.Err? && r.error == NotNullViolation ==> nome.None? || tamanho.None? || preco.None?
    ensures DrawsId(r) <==>
      && (nome.Some? ==> Storable(nome.value, NomeLength))
      && (tamanho.Some? ==> Storable(tamanho.value, TamanhoLength))
      && (preco.Some? ==> FitsDecimal(preco.value))
  {
    if nome.Some? && !Storable(nome.value, NomeLength) then Err(ValueTooLong)
    else if tamanho.Some? && !Storable(tamanho.value, TamanhoLength) then Err(ValueTooLong)
    else if preco.Some? && !FitsDecimal(preco.value) then Err(NumericOverflow)
    else if nome.None? || tamanho.None? || preco.None? then Err(NotNullViolation)
    else Ok(Pizza(id, ToVarchar(nome.value, NomeLength).value, ToVarchar(tamanho.value, TamanhoLength).value, preco.value))
  }

  /** The row `INSERT INTO usuarios (nome, email, telefone, endereco)` stores
      under `id` next to the users `t` already holds, or why it is refused:
      column checks first, then NOT NULL, then the UNIQUE index on `email`. */
  function UsuarioRow(t: Tables, id: int, nome: Option<Text>, email: Option<Text>,
                      telefone: Option<Text>, endereco: Option<Text>, createdAt: nat): (r: Result<Usuario>)
    ensures r.Ok? ==>
      && nome.Some? && email.Some?
      && Storable(nome.value, NomeLength) && Storable(email.value, EmailLength)
      && (telefone.Some? ==> Storable(telefone.value, TelefoneLength))
      && r.value.id == id && r.value.createdAt == createdAt && r.value.endereco == endereco
      && Trimmed(r.value.nome, nome.value) && Trimmed(r.value.email, email.value)
      && (|nome.value| <= NomeLength ==> r.value.nome == nome.value)
      && (|email.value| <= EmailLength ==> r.value.email == email.value)
      && r.value.telefone == StoredText(telefone, TelefoneLength)
      && UsuarioRowOk(r.value)
      && !EmailTaken(t.usuarios, r.value.email)
    ensures r.Ok? && WellFormed(t) && id !in t.usuarios ==>
      WellFormed(t.(usuarios := t.usuarios[id := r.value]))
    ensures r.Err? && r.error == NotNullViolation ==> nome.None? || email.None?
    ensures r.Err? && r.error == UniqueViolation ==>
      email.Some? && Storable(email.value, EmailLength) && EmailTaken(t.usuarios, ToVarchar(email.value, EmailLength).value)
    ensures
      && nome.Some? && email.Some?
      && Storable(nome.value, NomeLength) && Storable(email.value, EmailLength)
      && (telefone.Some? ==> Storable(telefone.value, TelefoneLength))
      ==> && (r.Ok? <==> !EmailTaken(t.usuarios, ToVarchar(email.value, EmailLength).value))
          && (r.Err? ==> r.error == UniqueViolation)
    ensures DrawsId(r) <==>
      && (nome.Some? ==> Storable(nome.value, NomeLength))
      && (email.Some? ==> Storable(email.value, EmailLength))
      && (telefone.Some? ==> Storable(telefone.value, TelefoneLength))
  {
    if nome.Some? && !Storable(nome.value, NomeLength) then Err(ValueTooLong)
    else if email.Some? && !Storable(email.value, EmailLength) then Err(ValueTooLong)
    else if telefone.Some? && !Storable(telefone.value, TelefoneLength) then Err(ValueTooLong)
    else if nome.None? || email.None? then Err(NotNullViolation)
    else
      var row := Usuario(id, ToVarchar(nome.value, NomeLength).value, ToVarchar(email.value, EmailLength).value,
                         StoredText(telefone, TelefoneLength), endereco, createdAt);
      if EmailTaken(t.usuarios, row.email) then Err(UniqueViolation) else Ok(row)
  }

  /** The row `INSERT INTO pedidos (usuario_id, total)` stores under `id`: the
      status column is not supplied, so it takes its default. */
  function PedidoRow(t: Tables, id: int, usuarioId: int, total: int, createdAt: nat): (r: Result<Pedido>)
    ensures r.Ok? <==> FitsDecimal(total) && usuarioId in t.usuarios
    ensures r.Ok? ==> r.value == Pedido(id, usuarioId, total, Some(DefaultStatus), createdAt)
    ensures DrawsId(r) <==> FitsDecimal(total)
    ensures r.Err? ==> r.error == if FitsDecimal(total) then ForeignKeyViolation else NumericOverflow
    ensures r.Ok? && WellFormed(t) && id !in t.pedidos ==>
      WellFormed(t.(pedidos := t.pedidos[id := r.value]))
  {
    if !FitsDecimal(total) then Err(NumericOverflow)
    else if usuarioId !in t.usuarios then Err(ForeignKeyViolation)
    else Ok(Pedido(id, usuarioId, total, Some(DefaultStatus), createdAt))
  }

  /** The row `INSERT INTO pedido_itens (pedido_id, pizza_id, quantidade,
      preco_unitario)` stores under `id`, or why it is refused. */
  function ItemRow(t: Tables, id: int, pedidoId: int, pizzaId: int, quantidade: int, precoUnitario: int): (r: Result<PedidoItem>)
    ensures r.Ok? <==>
      FitsInteger(quantidade) && FitsDecimal(precoUnitario) && pedidoId in t.pedidos && pizzaId in t.pizzas
    ensures r.Ok? ==> r.value == PedidoItem(id, pedidoId, pizzaId, quantidade, precoUnitario)
    ensures DrawsId(r) <==> FitsInteger(quantidade) && FitsDecimal(precoUnitario)
    ensures r.Ok? && WellFormed(t) && id !in t.itens ==>
      WellFormed(t.(itens := t.itens[id := r.value]))
  {
    if !FitsInteger(quantidade) then Err(IntegerOutOfRange)
    else if !FitsDecimal(precoUnitario) then Err(NumericOverflow)
    else if pedidoId !in t.pedidos || pizzaId !in t.pizzas then Err(ForeignKeyViolation)
    else Ok(PedidoItem(id, pedidoId, pizzaId, quantidade, precoUnitario))
  }

  /** The foreign key from `pedido_itens` refuses to delete a referenced pizza,
      so a delete it lets through keeps every foreign key intact. */
  lemma PizzaRemoved(t: Tables, id: int)
    requires WellFormed(t) && !PizzaReferenced(t.itens, id)
    ensures WellFormed(t.(pizzas := t.pizzas - {id}))
  {
    var pizzas := t.pizzas - {id};
    forall k | k in t.itens ensures t.itens[k].pizzaId in pizzas {
      assert t.itens[k].pizzaId != id;
    }
  }

  // --------------------------------------------------------- createTables

  /** The four relations, in the order `createTables` creates them. */
  datatype Relation = Pizzas | Usuarios | Pedidos | PedidoItens

  const AllRelations: set<Relation> := {Pizzas, Usuarios, Pedidos, PedidoItens}

  /** A database: the relations that exist and their contents. */
  datatype Database = Database(existing: set<Relation>, data: Tables)

  /** A relation that does not exist holds no rows. */
  predicate Consistent(db: Database) {
    && (Pizzas !in db.existing ==> db.data.pizzas == map[])
    && (Usuarios !in db.existing ==> db.data.usuarios == map[])
    && (Pedidos !in db.existing ==> db.data.pedidos == map[])
    && (PedidoItens !in db.existing ==> db.data.itens == map[])
  }

  /** A freshly created relation is empty. */
  function Emptied(t: Tables, rel: Relation): Tables {
    match rel
    case Pizzas => t.(pizzas := map[])
    case Usuarios => t.(usuarios := map[])
    case Pedidos => t.(pedidos := map[])
    case PedidoItens => t.(itens := map[])
  }

  /** `CREATE TABLE IF NOT EXISTS`: a relation that exists is left alone. */
  function CreateIfAbsent(db: Database, rel: Relation): (r: Database)
    ensures r.existing == db.existing + {rel}
    ensures rel in db.existing ==> r == db
    ensures Consistent(db) ==> Consistent(r) && r.data == db.data
  {
    if rel in db.existing then db else Database(db.existing + {rel}, Emptied(db.data, rel))
  }

  /** `createTables`: the four statements in order. */
  function CreateTables(db: Database): (r: Database)
    ensures r.existing == db.existing + AllRelations
    ensures Consistent(db) ==> Consistent(r) && r.data == db.data
  {
    var db1 := CreateIfAbsent(db, Pizzas);
    var db2 := CreateIfAbsent(db1, Usuarios);
    var db3 := CreateIfAbsent(db2, Pedidos);
    CreateIfAbsent(db3, PedidoItens)
  }

  /** Running `createTables` again changes neither the schema nor the data. */
  lemma CreateTablesIdempotent(db: Database)
    ensures CreateTables(CreateTables(db)) == CreateTables(db)
  {
    var once := CreateTables(db);
    assert AllRelations <= once.existing;
  }
}
