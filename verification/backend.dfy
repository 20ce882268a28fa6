/**
 * The order rules of the Flask backend: pricing an order and building its
 * ingredient text (`salvar_pedido`), the partial update (`atualizar_pedido`),
 * the delete (`deletar_pedido`) and the vegetarian-history test
 * (`is_vegetariano`). The SQLite table `pedidos` is a map from the row id to
 * the row; `AUTOINCREMENT` is a counter of ids never handed out.
 */
module Backend {
  import opened Wrappers
  import opened Text
  import opened Catalog

  /** A row of `pedidos` without its id, which is the key of the table. `valor` is in centavos. */
  datatype Row = Row(
    cliente_id: int,
    nome_cliente: string,
    telefone_cliente: string,
    data_hora: string,
    pizza: string,
    ingredientes: string,
    valor: nat)

  /** The JSON body of `POST /pedido`, with `data.get(..., default)` already applied. */
  datatype OrderRequest = OrderRequest(
    cliente_id: int,
    nome_cliente: string,
    telefone_cliente: string,
    pizza: string,
    extras: seq<string>)

  /** A `jsonify` reply: HTTP status, the `sucesso` flag and its `mensagem` or `erro` text. */
  datatype Resposta = Resposta(status: nat, sucesso: bool, texto: string)

  // ---------------------------------------------------------------------------
  // Pricing an order
  // ---------------------------------------------------------------------------

  /** The text `salvar_pedido` appends for the extras: ", extra" for each known one, in list order. */
  function ExtrasSuffix(t: ExtrasTable, es: seq<string>): string
    decreases |es|
  {
    if es == [] then ""
    else
      var e := es[|es| - 1];
      ExtrasSuffix(t, es[..|es| - 1]) + (if e in t then ", " + e else "")
  }

  /**
   * The accumulation loop of `salvar_pedido`: start from the menu entry's
   * price and ingredients, and for each listed extra that the table knows add
   * its price and ", extra". Repeats count each time; unknown extras are skipped.
   */
  method PrecoEIngredientes(base: MenuItem, t: ExtrasTable, extras: seq<string>) returns (valor: nat, ingredientes: string)
    ensures valor == base.preco + ExtrasPrice(t, extras)
    ensures ingredientes == base.ingredientes + ExtrasSuffix(t, extras)
  {
    ingredientes := base.ingredientes;
    valor := base.preco;
    var i := 0;
    while i < |extras|
      invariant 0 <= i <= |extras|
      invariant valor == base.preco + ExtrasPrice(t, extras[..i])
      invariant ingredientes == base.ingredientes + ExtrasSuffix(t, extras[..i])
    {
      var extra := extras[i];
      ExtrasStep(t, extras, i);
      if extra in t {
        valor := valor + t[extra];
        Associate(base.ingredientes, ExtrasSuffix(t, extras[..i]), ", " + extra);
        ingredientes := ingredientes + (", " + extra);
      }
      i := i + 1;
    }
    assert extras[..|extras|] == extras;
  }

  /** One more extra adds its price and, when known, its ", extra" text. */
  lemma ExtrasStep(t: ExtrasTable, es: seq<string>, i: nat)
    requires i < |es|
    ensures ExtrasPrice(t, es[..i + 1]) == ExtrasPrice(t, es[..i]) + ExtraPrice(t, es[i])
    ensures ExtrasSuffix(t, es[..i + 1]) == ExtrasSuffix(t, es[..i]) + (if es[i] in t then ", " + es[i] else "")
  {
    assert es[..i + 1][..i] == es[..i];
  }

  /** Each known extra, with the blank that follows its comma. */
  function Spaced(es: seq<string>): (r: seq<string>)
    ensures |r| == |es|
  {
    if es == [] then [] else Spaced(es[..|es| - 1]) + [" " + es[|es| - 1]]
  }

  /** The `j`-th spaced piece is the `j`-th name behind one blank. */
  lemma {:induction false} SpacedAt(es: seq<string>, j: nat)
    requires j < |es|
    ensures Spaced(es)[j] == [' '] + es[j]
    decreases |es|
  {
    assert " " == [' '];
    var init := es[..|es| - 1];
    if j < |init| {
      SpacedAt(init, j);
      assert init[j] == es[j];
    }
  }

  /**
   * Split at the commas, the stored ingredient text is the base pieces
   * followed by one piece per known extra, in list order: the extras
   * never merge with the base or with each other.
   */
  lemma {:induction false} ExtrasSuffixPieces(t: ExtrasTable, base: string, es: seq<string>)
    requires forall e :: e in t ==> ',' !in e
    ensures Split(base + ExtrasSuffix(t, es), ',') == Split(base, ',') + Spaced(KnownExtras(t, es))
    decreases |es|
  {
    if es == [] {
      assert base + "" == base;
    } else {
      var init := es[..|es| - 1];
      var e := es[|es| - 1];
      var suffix := ExtrasSuffix(t, init);
      var known := KnownExtras(t, init);
      ExtrasSuffixPieces(t, base, init);
      if e in t {
        OneMorePiece(base + suffix, e);
        Associate(base, suffix, ", " + e);
        SpacedAppend(known, e);
        Associate(Split(base, ','), Spaced(known), [" " + e]);
      } else {
        assert suffix + "" == suffix;
        assert ExtrasSuffix(t, es) == suffix;
        assert KnownExtras(t, es) == known;
      }
    }
  }

  lemma SpacedAppend(k: seq<string>, e: string)
    ensures Spaced(k + [e]) == Spaced(k) + [" " + e]
  {
    assert (k + [e])[..|k|] == k;
  }

  /** Appending ", e" for an `e` without commas adds the one piece " e". */
  lemma OneMorePiece(front: string, e: string)
    requires ',' !in e
    ensures Split(front + (", " + e), ',') == Split(front, ',') + [" " + e]
  {
    var x := [' '] + e;
    assert ", " + e == [','] + x;
    Associate(front, [','], x);
    SplitAround(front, ',', x);
    assert forall i :: 0 <= i < |x| ==> x[i] != ',' by {
      forall i | 0 <= i < |x| ensures x[i] != ',' {
        if i > 0 { assert x[i] == e[i - 1]; }
      }
    }
    NoSeparator(x, ',');
  }

  // ---------------------------------------------------------------------------
  // Partial update
  // ---------------------------------------------------------------------------

  /** The five optional fields of a `PUT`/`PATCH /pedido/<id>` body; `None` is an absent or null field. */
  datatype Patch = Patch(
    nome_cliente: Option<string>,
    telefone_cliente: Option<string>,
    pizza: Option<string>,
    ingredientes: Option<string>,
    valor: Option<nat>)
  {
    predicate Empty() {
      nome_cliente.None? && telefone_cliente.None? && pizza.None? && ingredientes.None? && valor.None?
    }
  }

  /** One `column = ?` of the `SET` clause with its parameter. */
  datatype Assignment =
    | SetNomeCliente(s: string)
    | SetTelefoneCliente(s: string)
    | SetPizza(s: string)
    | SetIngredientes(s: string)
    | SetValor(v: nat)

  /** The `updates`/`params` lists: one assignment per supplied field, in the fixed column order. */
  function Assignments(p: Patch): (r: seq<Assignment>)
    ensures |r| == 0 <==> p.Empty()
    ensures |r| <= 5
  {
    NomeUpdate(p) + TelefoneUpdate(p) + PizzaUpdate(p) + IngredientesUpdate(p) + ValorUpdate(p)
  }

  function NomeUpdate(p: Patch): seq<Assignment> {
    if p.nome_cliente.Some? then [SetNomeCliente(p.nome_cliente.value)] else []
  }

  function TelefoneUpdate(p: Patch): seq<Assignment> {
    if p.telefone_cliente.Some? then [SetTelefoneCliente(p.telefone_cliente.value)] else []
  }

  function PizzaUpdate(p: Patch): seq<Assignment> {
    if p.pizza.Some? then [SetPizza(p.pizza.value)] else []
  }

  function IngredientesUpdate(p: Patch): seq<Assignment> {
    if p.ingredientes.Some? then [SetIngredientes(p.ingredientes.value)] else []
  }

  function ValorUpdate(p: Patch): seq<Assignment> {
    if p.valor.Some? then [SetValor(p.valor.value)] else []
  }

  /**
   * The `updates`/`params` construction: one `append` per supplied field,
   * checked in the fixed column order.
   */
  method MontarAtualizacoes(p: Patch) returns (updates: seq<Assignment>)
    ensures updates == Assignments(p)
  {
    updates := [];
    if p.nome_cliente.Some? {
      updates := updates + [SetNomeCliente(p.nome_cliente.value)];
    }
    assert updates == NomeUpdate(p);
    if p.telefone_cliente.Some? {
      updates := updates + [SetTelefoneCliente(p.telefone_cliente.value)];
    }
    assert updates == NomeUpdate(p) + TelefoneUpdate(p);
    if p.pizza.Some? {
      updates := updates + [SetPizza(p.pizza.value)];
    }
    assert updates == NomeUpdate(p) + TelefoneUpdate(p) + PizzaUpdate(p);
    if p.ingredientes.Some? {
      updates := updates + [SetIngredientes(p.ingredientes.value)];
    }
    assert updates == NomeUpdate(p) + TelefoneUpdate(p) + PizzaUpdate(p) + IngredientesUpdate(p);
    if p.valor.Some? {
      updates := updates + [SetValor(p.valor.value)];
    }
  }

  /** What `UPDATE pedidos SET ...` does to the row: the assignments in order. */
  function Apply(row: Row, updates: seq<Assignment>): Row
    decreases |updates|
  {
    if updates == [] then row
    else
      var row' := match updates[0]
        case SetNomeCliente(s) => row.(nome_cliente := s)
        case SetTelefoneCliente(s) => row.(telefone_cliente := s)
        case SetPizza(s) => row.(pizza := s)
        case SetIngredientes(s) => row.(ingredientes := s)
        case SetValor(v) => row.(valor := v);
      Apply(row', updates[1..])
  }

  /** Field by field: a supplied field replaces the stored one, an absent one keeps it. */
  function Patched(row: Row, p: Patch): Row {
    Row(
      row.cliente_id,
      p.nome_cliente.GetOr(row.nome_cliente),
      p.telefone_cliente.GetOr(row.telefone_cliente),
      row.data_hora,
      p.pizza.GetOr(row.pizza),
      p.ingredientes.GetOr(row.ingredientes),
      p.valor.GetOr(row.valor))
  }

  /**
   * Running the generated `SET` clause changes exactly the supplied fields:
   * `cliente_id` and `data_hora` are never touched, and a field that is not
   * supplied keeps its stored value.
   */
  lemma UpdateSetsSuppliedFields(row: Row, p: Patch)
    ensures Apply(row, Assignments(p)) == Patched(row, p)
  {
    var a1, a2, a3, a4, a5 := NomeUpdate(p), TelefoneUpdate(p), PizzaUpdate(p), IngredientesUpdate(p), ValorUpdate(p);
    var t4 := a4 + a5;
    var t3 := a3 + t4;
    var t2 := a2 + t3;
    Associate(a1 + a2 + a3, a4, a5);
    Associate(a1 + a2, a3, t4);
    Associate(a1, a2, t3);
    var r1 := row.(nome_cliente := p.nome_cliente.GetOr(row.nome_cliente));
    var r2 := r1.(telefone_cliente := p.telefone_cliente.GetOr(r1.telefone_cliente));
    var r3 := r2.(pizza := p.pizza.GetOr(r2.pizza));
    var r4 := r3.(ingredientes := p.ingredientes.GetOr(r3.ingredientes));
    ApplyNome(row, p, t2);
    ApplyTelefone(r1, p, t3);
    ApplyPizza(r2, p, t4);
    ApplyIngredientes(r3, p, a5);
    ApplyValor(r4, p, []);
    assert a5 + [] == a5;
  }

  lemma ApplyNome(row: Row, p: Patch, rest: seq<Assignment>)
    ensures Apply(row, NomeUpdate(p) + rest) == Apply(row.(nome_cliente := p.nome_cliente.GetOr(row.nome_cliente)), rest)
  {
    ApplyAppend(row, NomeUpdate(p), rest);
    ApplyOne(row, NomeUpdate(p));
  }

  lemma ApplyTelefone(row: Row, p: Patch, rest: seq<Assignment>)
    ensures Apply(row, TelefoneUpdate(p) + rest) == Apply(row.(telefone_cliente := p.telefone_cliente.GetOr(row.telefone_cliente)), rest)
  {
    ApplyAppend(row, TelefoneUpdate(p), rest);
    ApplyOne(row, TelefoneUpdate(p));
  }

  lemma ApplyPizza(row: Row, p: Patch, rest: seq<Assignment>)
    ensures Apply(row, PizzaUpdate(p) + rest) == Apply(row.(pizza := p.pizza.GetOr(row.pizza)), rest)
  {
    ApplyAppend(row, PizzaUpdate(p), rest);
    ApplyOne(row, PizzaUpdate(p));
  }

  lemma ApplyIngredientes(row: Row, p: Patch, rest: seq<Assignment>)
    ensures Apply(row, IngredientesUpdate(p) + rest) == Apply(row.(ingredientes := p.ingredientes.GetOr(row.ingredientes)), rest)
  {
    ApplyAppend(row, IngredientesUpdate(p), rest);
    ApplyOne(row, IngredientesUpdate(p));
  }

  lemma ApplyValor(row: Row, p: Patch, rest: seq<Assignment>)
    ensures Apply(row, ValorUpdate(p) + rest) == Apply(row.(valor := p.valor.GetOr(row.valor)), rest)
  {
    ApplyAppend(row, ValorUpdate(p), rest);
    ApplyOne(row, ValorUpdate(p));
  }

  /** A list of at most one assignment applies that one assignment. */
  lemma ApplyOne(row: Row, a: seq<Assignment>)
    requires |a| <= 1
    ensures a == [] ==> Apply(row, a) == row
    ensures |a| == 1 ==> Apply(row, a) == match a[0]
        case SetNomeCliente(s) => row.(nome_cliente := s)
        case SetTelefoneCliente(s) => row.(telefone_cliente := s)
        case SetPizza(s) => row.(pizza := s)
        case SetIngredientes(s) => row.(ingredientes := s)
        case SetValor(v) => row.(valor := v)
  {
    if |a| == 1 {
      assert a[1..] == [];
    }
  }

  lemma {:induction false} ApplyAppend(row: Row, a: seq<Assignment>, b: seq<Assignment>)
    ensures Apply(row, a + b) == Apply(Apply(row, a), b)
    decreases |a|
  {
    if a == [] {
      assert a + b == b;
    } else {
      assert (a + b)[0] == a[0];
      assert (a + b)[1..] == a[1..] + b;
      var row' := match a[0]
        case SetNomeCliente(s) => row.(nome_cliente := s)
        case SetTelefoneCliente(s) => row.(telefone_cliente := s)
        case SetPizza(s) => row.(pizza := s)
        case SetIngredientes(s) => row.(ingredientes := s)
        case SetValor(v) => row.(valor := v);
      ApplyAppend(row', a[1..], b);
    }
  }

  /** Sending the same update twice leaves the row as the first one did. */
  lemma PatchIdempotent(row: Row, p: Patch)
    ensures Patched(Patched(row, p), p) == Patched(row, p)
  {
  }

  /** An update with a price does not re-price the pizza, and one without keeps the stored price even when it changes the pizza. */
  lemma PatchedValor(row: Row, p: Patch)
    ensures p.valor.Some? ==> Patched(row, p).valor == p.valor.value
    ensures p.valor.None? ==> Patched(row, p).valor == row.valor
  {
  }

  // ---------------------------------------------------------------------------
  // The vegetarian-history test
  // ---------------------------------------------------------------------------

  /** The `carnes` set of `is_vegetariano`. */
  const Carnes: set<string> := {"pepperoni", "calabresa", "frango", "presunto", "bacon", "carne", "salsicha"}

  /** One comma-separated piece names a meat once trimmed and lower-cased. */
  predicate IsMeat(piece: string) {
    Lower(Trim(piece)) in Carnes
  }

  /** Some piece of the ingredient text is a meat: `ingredientes & carnes` is not empty. */
  predicate HasMeat(ingredientes: string) {
    var pieces := Split(ingredientes, ',');
    exists i :: 0 <= i < |pieces| && IsMeat(pieces[i])
  }

  lemma MeatPiece(s: string, k: nat)
    requires k < |Split(s, ',')| && IsMeat(Split(s, ',')[k])
    ensures HasMeat(s)
  {
  }

  /** Adding pieces after a comma never takes a meat away. */
  lemma MeatSurvivesMorePieces(a: string, b: string)
    requires HasMeat(a)
    ensures HasMeat(a + [','] + b)
  {
    var i :| 0 <= i < |Split(a, ',')| && IsMeat(Split(a, ',')[i]);
    SplitAround(a, ',', b);
    assert Split(a + [','] + b, ',')[i] == Split(a, ',')[i];
    MeatPiece(a + [','] + b, i);
  }

  /**
   * An order listing a known extra that is a meat (once trimmed and
   * lower-cased) is a meat order, whatever the base pizza and the other extras.
   */
  lemma MeatExtraOrder(t: ExtrasTable, base: string, es: seq<string>, e: string)
    requires forall x :: x in t ==> ',' !in x
    requires e in t && e in es && Trim(e) == e && Lower(e) in Carnes
    ensures HasMeat(base + ExtrasSuffix(t, es))
  {
    var k := MeatIndex(t, base, es, e);
    MeatPiece(base + ExtrasSuffix(t, es), k);
  }

  /** Where the meat extra's piece sits in the stored text. */
  lemma MeatIndex(t: ExtrasTable, base: string, es: seq<string>, e: string) returns (k: nat)
    requires forall x :: x in t ==> ',' !in x
    requires e in t && e in es && Trim(e) == e && Lower(e) in Carnes
    ensures k < |Split(base + ExtrasSuffix(t, es), ',')| && IsMeat(Split(base + ExtrasSuffix(t, es), ',')[k])
  {
    SpacedMeat(e);
    k := ExtraIndex(t, base, es, e);
    SameMeat(Split(base + ExtrasSuffix(t, es), ',')[k], [' '] + e);
  }

  lemma SpacedMeat(e: string)
    requires Trim(e) == e && Lower(e) in Carnes
    ensures IsMeat([' '] + e)
  {
    TrimLeadingSpace(' ', e);
  }

  lemma SameMeat(x: string, y: string)
    requires x == y && IsMeat(y)
    ensures IsMeat(x)
  {
  }

  /** A known extra of the order is one piece of the stored text, after its blank. */
  lemma ExtraIndex(t: ExtrasTable, base: string, es: seq<string>, e: string) returns (k: nat)
    requires forall x :: x in t ==> ',' !in x
    requires e in t && e in es
    ensures k < |Split(base + ExtrasSuffix(t, es), ',')| && Split(base + ExtrasSuffix(t, es), ',')[k] == [' '] + e
  {
    var j := KnownIndex(t, es, e);
    ExtraPiece(t, base, es, j);
    k := |Split(base, ',')| + j;
  }

  lemma KnownIndex(t: ExtrasTable, es: seq<string>, e: string) returns (j: nat)
    requires e in t && e in es
    ensures j < |KnownExtras(t, es)| && KnownExtras(t, es)[j] == e
  {
    var k := KnownExtras(t, es);
    assert e in k;
    j :| 0 <= j < |k| && k[j] == e;
  }

  /** The piece of the stored text that the `j`-th known extra contributes. */
  lemma ExtraPiece(t: ExtrasTable, base: string, es: seq<string>, j: nat)
    requires forall x :: x in t ==> ',' !in x
    requires j < |KnownExtras(t, es)|
    ensures |Split(base, ',')| + j < |Split(base + ExtrasSuffix(t, es), ',')|
    ensures Split(base + ExtrasSuffix(t, es), ',')[|Split(base, ',')| + j] == [' '] + KnownExtras(t, es)[j]
  {
    var k := KnownExtras(t, es);
    ExtrasSuffixPieces(t, base, es);
    SpacedAt(k, j);
    IndexAppended(Split(base + ExtrasSuffix(t, es), ','), Split(base, ','), Spaced(k), |Split(base, ',')| + j);
  }

  /** Bacon, as the shipped extras table spells it, is a meat: any order with Bacon is a meat order. */
  lemma BaconIsMeat(base: string, es: seq<string>)
    requires "Bacon" in es
    ensures HasMeat(base + ExtrasSuffix(Extras, es))
  {
    ShippedCatalogWellFormed();
    BaconLowersToMeat();
    BaconIsTrimmed();
    MeatExtraOrder(Extras, base, es, "Bacon");
  }

  lemma BaconLowersToMeat()
    ensures Lower("Bacon") in Carnes
  {
    assert Lower("Bacon") == "bacon";
  }

  lemma BaconIsTrimmed()
    ensures Trim("Bacon") == "Bacon"
  {
    var bacon := "Bacon";
    assert bacon[0] == 'B' && bacon[|bacon| - 1] == 'n';
    TrimOfTrimmed(bacon);
  }

  // ---------------------------------------------------------------------------
  // The table
  // ---------------------------------------------------------------------------

  /** The `pedidos` table and the catalog the backend prices against. */
  class PedidoTable {
    const menu: Menu
    const extras: ExtrasTable
    var rows: map<nat, Row>
    /** The next id `AUTOINCREMENT` hands out; no row has it or a later one. */
    var nextId: nat

    predicate Valid()
      reads this
    {
      nextId >= 1 && forall id :: id in rows ==> id < nextId
    }

    /** `init_db` on a fresh database file: an empty table. */
    constructor(menu: Menu, extras: ExtrasTable)
      ensures this.menu == menu && this.extras == extras
      ensures rows == map[] && nextId == 1
      ensures Valid()
    {
      this.menu := menu;
      this.extras := extras;
      rows := map[];
      nextId := 1;
    }

    /**
     * `POST /pedido`. A pizza the menu does not list is refused and the table
     * is untouched; otherwise one row with a new id is inserted, priced by
     * `PrecoEIngredientes`, stamped with the given clock reading.
     */
    method SalvarPedido(o: OrderRequest, dataHora: string) returns (r: Resposta)
      requires Valid()
      modifies this
      ensures Valid()
      ensures Lookup(menu, o.pizza).None? ==>
        r == Resposta(400, false, "Pizza não encontrada") && rows == old(rows) && nextId == old(nextId)
      ensures Lookup(menu, o.pizza).Some? ==>
        var base := Lookup(menu, o.pizza).value;
        var valor := base.preco + ExtrasPrice(extras, o.extras);
        && old(nextId) !in old(rows)
        && rows == old(rows)[old(nextId) := Row(o.cliente_id, o.nome_cliente, o.telefone_cliente, dataHora,
                                                 o.pizza, base.ingredientes + ExtrasSuffix(extras, o.extras), valor)]
        && nextId == old(nextId) + 1
        && r == Resposta(200, true, "Pedido confirmado! Total: R$ " + Money(valor))
    {
      var base := Lookup(menu, o.pizza);
      if base.None? {
        return Resposta(400, false, "Pizza não encontrada");
      }
      var valor, ingredientes := PrecoEIngredientes(base.value, extras, o.extras);
      var id := nextId;
      rows := rows[id := Row(o.cliente_id, o.nome_cliente, o.telefone_cliente, dataHora, o.pizza, ingredientes, valor)];
      nextId := nextId + 1;
      r := Resposta(200, true, "Pedido confirmado! Total: R$ " + Money(valor));
    }

    /**
     * `PUT`/`PATCH /pedido/<id>`. With no field supplied nothing is run; an id
     * without a row matches nothing; otherwise that row, and no other, gets
     * the supplied fields.
     */
    method AtualizarPedido(id: nat, p: Patch) returns (r: Resposta)
      requires Valid()
      modifies this
      ensures Valid()
      ensures nextId == old(nextId)
      ensures p.Empty() ==> r == Resposta(400, false, "Nenhum campo para atualizar foi fornecido") && rows == old(rows)
      ensures !p.Empty() && id !in old(rows) ==>
        r == Resposta(404, false, "Pedido não encontrado") && rows == old(rows)
      ensures !p.Empty() && id in old(rows) ==>
        r == Resposta(200, true, "Pedido atualizado com sucesso!") && rows == old(rows)[id := Patched(old(rows)[id], p)]
    {
      if p.Empty() {
        return Resposta(400, false, "Nenhum campo para atualizar foi fornecido");
      }
      var updates := MontarAtualizacoes(p);
      if id !in rows {
        // `cursor.rowcount == 0`
        return Resposta(404, false, "Pedido não encontrado");
      }
      UpdateSetsSuppliedFields(rows[id], p);
      rows := rows[id := Apply(rows[id], updates)];
      r := Resposta(200, true, "Pedido atualizado com sucesso!");
    }

    /** `DELETE /pedido/<id>`: the row with that id goes, or nothing matches. */
    method DeletarPedido(id: nat) returns (r: Resposta)
      requires Valid()
      modifies this
      ensures Valid()
      ensures nextId == old(nextId)
      ensures id in old(rows) ==>
        r == Resposta(200, true, "Pedido excluído com sucesso!") && rows == old(rows) - {id}
      ensures id !in old(rows) ==>
        r == Resposta(404, false, "Pedido não encontrado") && rows == old(rows)
    {
      if id !in rows {
        return Resposta(404, false, "Pedido não encontrado");
      }
      rows := rows - {id};
      r := Resposta(200, true, "Pedido excluído com sucesso!");
    }

    /**
     * `is_vegetariano(cliente_id)`: true exactly when none of the client's
     * rows has a meat piece; a client without rows is vegetarian. A failing
     * query (`falhaConsulta`) is the bare `except`, which answers false.
     */
    method IsVegetariano(cliente_id: int, falhaConsulta: bool) returns (b: bool)
      ensures b <==> (!falhaConsulta &&
        forall id :: id in rows && rows[id].cliente_id == cliente_id ==> !HasMeat(rows[id].ingredientes))
    {
      if falhaConsulta {
        return false;
      }
      var historico: set<nat> := set id | id in rows && rows[id].cliente_id == cliente_id;
      while historico != {}
        invariant forall id :: id in historico ==> id in rows && rows[id].cliente_id == cliente_id
        invariant forall id :: id in rows && rows[id].cliente_id == cliente_id && id !in historico ==>
          !HasMeat(rows[id].ingredientes)
        decreases |historico|
      {
        var id :| id in historico;
        if HasMeat(rows[id].ingredientes) {
          return false;
        }
        historico := historico - {id};
      }
      return true;
    }
  }

  /** Deleting a row then updating it reports not-found: the two handlers agree on what is gone. */
  method DeleteThenUpdate(t: PedidoTable, id: nat, p: Patch) returns (r1: Resposta, r2: Resposta)
    requires t.Valid() && id in t.rows && !p.Empty()
    modifies t
    ensures r1.sucesso && !r2.sucesso && r2.status == 404
    ensures t.rows == old(t.rows) - {id}
  {
    r1 := t.DeletarPedido(id);
    r2 := t.AtualizarPedido(id, p);
  }
}
