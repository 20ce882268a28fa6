/**
 * How the pieces meet: the orders the chat widget submits at checkout, as
 * the backend prices and stores them, and as the admin ticket shows them.
 * Both sides are taken to price against the same menu and extras table.
 */
module Integration {
  import opened Wrappers
  import opened Text
  import opened Catalog
  import opened Cart
  import opened ChatSpec
  import opened Backend
  import opened Admin

  /** The body `salvarPedido` posts for one submission. */
  function AsRequest(p: PedidoData): (o: OrderRequest)
    ensures o.pizza == p.pizza && o.extras == p.extras && o.cliente_id == p.cliente_id
  {
    OrderRequest(p.cliente_id, p.nome_cliente, p.telefone_cliente, p.pizza, p.extras)
  }

  /** The `valor` the backend stores for one submission; an unknown pizza stores nothing. */
  function StoredValue(menu: Menu, t: ExtrasTable, p: PedidoData): nat {
    match Lookup(menu, p.pizza)
    case Some(base) => base.preco + ExtrasPrice(t, p.extras)
    case None => 0
  }

  /** The sum of the stored values over a list of submissions. */
  function Charged(menu: Menu, t: ExtrasTable, ps: seq<PedidoData>): nat {
    if ps == [] then 0 else StoredValue(menu, t, ps[0]) + Charged(menu, t, ps[1..])
  }

  lemma {:induction false} ChargedAppend(menu: Menu, t: ExtrasTable, a: seq<PedidoData>, b: seq<PedidoData>)
    ensures Charged(menu, t, a + b) == Charged(menu, t, a) + Charged(menu, t, b)
    decreases |a|
  {
    if a == [] {
      assert a + b == b;
    } else {
      assert (a + b)[1..] == a[1..] + b;
      ChargedAppend(menu, t, a[1..], b);
    }
  }

  lemma {:induction false} ChargedCopies(menu: Menu, t: ExtrasTable, p: PedidoData, q: nat)
    ensures Charged(menu, t, seq(q, _ => p)) == q * StoredValue(menu, t, p)
    decreases q
  {
    var copies := seq(q, _ => p);
    if q > 0 {
      var v := StoredValue(menu, t, p);
      assert Charged(menu, t, copies) == v + Charged(menu, t, seq(q - 1, _ => p)) by {
        assert copies[0] == p;
        assert copies[1..] == seq(q - 1, _ => p);
      }
      ChargedCopies(menu, t, p, q - 1);
      OneMoreCopy(q, v);
    }
  }

  lemma OneMoreCopy(q: nat, v: nat)
    requires q > 0
    ensures v + (q - 1) * v == q * v
  {
  }

  /**
   * Every unit a priced cart sends at checkout is stored at its line's unit
   * price, so the rows the backend inserts add up to the cart total the
   * widget showed.
   */
  lemma {:induction false} CheckoutChargesCartTotal(c: Cart, menu: Menu, t: ExtrasTable, clienteId: int, nome: string, telefone: string)
    requires LinesPriced(c, menu, t)
    ensures Charged(menu, t, Submissions(c, clienteId, nome, telefone)) == Total(c)
  {
    if c != [] {
      var pedido := PedidoData(clienteId, nome, telefone, c[0].nome, c[0].extras);
      var copies := seq(c[0].quantidade, _ => pedido);
      LinesPricedSplit(c, menu, t);
      CheckoutChargesCartTotal(c[1..], menu, t, clienteId, nome, telefone);
      ChargedAppend(menu, t, copies, Submissions(c[1..], clienteId, nome, telefone));
      ChargedCopies(menu, t, pedido, c[0].quantidade);
    }
  }

  /** The first line of a priced cart is stored at its unit price, and the rest of the cart stays priced. */
  lemma LinesPricedSplit(c: Cart, menu: Menu, t: ExtrasTable)
    requires c != [] && LinesPriced(c, menu, t)
    ensures LinesPriced(c[1..], menu, t)
    ensures forall clienteId, nome, telefone ::
      StoredValue(menu, t, PedidoData(clienteId, nome, telefone, c[0].nome, c[0].extras)) == c[0].precoTotal
  {
    forall i | 0 <= i < |c[1..]| ensures c[1..][i] == c[i + 1] { }
  }

  /** A priced cart never sends a pizza the backend would refuse as not found. */
  lemma CheckoutPizzasAreOnTheMenu(c: Cart, menu: Menu, t: ExtrasTable, clienteId: int, nome: string, telefone: string)
    requires LinesPriced(c, menu, t)
    ensures forall p :: p in Submissions(c, clienteId, nome, telefone) ==> Lookup(menu, AsRequest(p).pizza).Some?
  {
    SubmissionsComeFromLines(c, clienteId, nome, telefone);
    forall p | p in Submissions(c, clienteId, nome, telefone)
      ensures Lookup(menu, p.pizza).Some?
    {
      var line :| line in c && p.pizza == line.nome && p.extras == line.extras;
      var i :| 0 <= i < |c| && c[i] == line;
    }
  }

  /**
   * The ingredient text the backend stores reads on the admin ticket as the
   * base ingredients followed by the known extras, in the order chosen, when
   * extra names hold no comma and no surrounding blanks.
   */
  lemma StoredIngredientsOnTicket(t: ExtrasTable, base: string, es: seq<string>)
    requires forall e :: e in t ==> ',' !in e && Trim(e) == e
    ensures IngredientLines(base + ExtrasSuffix(t, es)) == IngredientLines(base) + KnownExtras(t, es)
  {
    var k := KnownExtras(t, es);
    ExtrasSuffixPieces(t, base, es);
    TrimAllAppend(Split(base, ','), Spaced(k));
    TrimAllTrimmed(k);
    TrimAllSpaced(k);
  }

  /** Names that trimming leaves alone come back from their blank-led pieces. */
  lemma {:induction false} TrimAllSpaced(k: seq<string>)
    requires TrimAll(k) == k
    ensures TrimAll(Spaced(k)) == k
    decreases |k|
  {
    if k != [] {
      var init, last := k[..|k| - 1], k[|k| - 1];
      InitAndLast(k);
      TrimAllAppend(init, [last]);
      TrimAllSingle(last);
      LastAndFront(TrimAll(init), Trim(last), init, last);
      TrimAllSpaced(init);
      TrimAllAppend(Spaced(init), [" " + last]);
      TrimAllSingle(" " + last);
      assert " " + last == [' '] + last;
      TrimLeadingSpace(' ', last);
    }
  }

  lemma InitAndLast<T>(s: seq<T>)
    requires s != []
    ensures s == s[..|s| - 1] + [s[|s| - 1]]
  {
  }

  lemma TrimAllSingle(e: string)
    ensures TrimAll([e]) == [Trim(e)]
  {
    assert [e][1..] == [];
  }

  /** Equal sequences that end in one element each agree on the front and on that element. */
  lemma LastAndFront<T>(a: seq<T>, x: T, b: seq<T>, y: T)
    requires a + [x] == b + [y]
    ensures a == b && x == y
  {
    assert a == (a + [x])[..|a|];
    assert b == (b + [y])[..|b|];
  }
}
