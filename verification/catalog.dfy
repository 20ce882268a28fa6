/**
 * The menu (`CARDAPIO`) and the extra toppings (`EXTRAS`), with the price of
 * a list of extras as both the frontend and the backend compute it. Prices are
 * whole centavos.
 */
module Catalog {
  import opened Wrappers
  import opened Text

  /** One pizza of the menu: its name, its ingredient text and its base price. */
  datatype MenuItem = MenuItem(nome: string, ingredientes: string, preco: nat)

  /** The menu in its declaration order, which `Object.entries` and `keys()` both follow. */
  type Menu = seq<MenuItem>

  /** Extra topping name to price. */
  type ExtrasTable = map<string, nat>

  predicate UniqueNames(m: Menu) {
    forall i, j :: 0 <= i < j < |m| ==> m[i].nome != m[j].nome
  }

  /** `CARDAPIO[nome]` (frontend) and `CARDAPIO.get(nome)` (backend). */
  function Lookup(m: Menu, nome: string): (r: Option<MenuItem>)
    ensures r.Some? ==> r.value in m && r.value.nome == nome
    ensures r.None? <==> forall i :: 0 <= i < |m| ==> m[i].nome != nome
  {
    if m == [] then None
    else if m[0].nome == nome then Some(m[0])
    else Lookup(m[1..], nome)
  }

  /** In a menu without repeated names, looking up an entry's name finds that entry. */
  lemma {:induction false} LookupFindsEntry(m: Menu, i: nat)
    requires UniqueNames(m)
    requires i < |m|
    ensures Lookup(m, m[i].nome) == Some(m[i])
  {
    if i > 0 {
      assert m[0].nome != m[i].nome;
      assert m[1..][i - 1] == m[i];
      LookupFindsEntry(m[1..], i - 1);
    }
  }

  /** The price one extra adds: its table price, or nothing when it is not in the table. */
  function ExtraPrice(t: ExtrasTable, e: string): nat {
    if e in t then t[e] else 0
  }

  /**
   * The price of a list of extras, accumulated left to right, each occurrence
   * counted, unknown names adding nothing.
   */
  function ExtrasPrice(t: ExtrasTable, es: seq<string>): nat
    decreases |es|
  {
    if es == [] then 0 else ExtrasPrice(t, es[..|es| - 1]) + ExtraPrice(t, es[|es| - 1])
  }

  /** The extras of the list that the table knows, in list order, repeats kept. */
  function KnownExtras(t: ExtrasTable, es: seq<string>): (r: seq<string>)
    ensures forall i :: 0 <= i < |r| ==> r[i] in t && r[i] in es
    ensures forall e :: e in es && e in t ==> e in r
    decreases |es|
  {
    if es == [] then []
    else
      var init := KnownExtras(t, es[..|es| - 1]);
      var e := es[|es| - 1];
      assert forall x :: x in es ==> x in es[..|es| - 1] || x == e;
      if e in t then init + [e] else init
  }

  /** The price of a concatenation is the sum of the prices of its parts. */
  lemma {:induction false} ExtrasPriceAppend(t: ExtrasTable, a: seq<string>, b: seq<string>)
    ensures ExtrasPrice(t, a + b) == ExtrasPrice(t, a) + ExtrasPrice(t, b)
    decreases |b|
  {
    if b != [] {
      var b' := b[..|b| - 1];
      assert (a + b)[..|a + b| - 1] == a + b';
      ExtrasPriceAppend(t, a, b');
    } else {
      assert a + b == a;
    }
  }

  /** Unknown extras contribute nothing: the price is that of the known ones alone. */
  lemma {:induction false} UnknownExtrasAreFree(t: ExtrasTable, es: seq<string>)
    ensures ExtrasPrice(t, KnownExtras(t, es)) == ExtrasPrice(t, es)
    decreases |es|
  {
    if es != [] {
      var init := es[..|es| - 1];
      var e := es[|es| - 1];
      UnknownExtrasAreFree(t, init);
      if e in t {
        ExtrasPriceAppend(t, KnownExtras(t, init), [e]);
        assert [e][..0] == [];
      }
    }
  }

  /** Choosing the same extra twice pays for it twice. */
  lemma RepeatedExtraPaysTwice(t: ExtrasTable, es: seq<string>, e: string)
    ensures ExtrasPrice(t, es + [e, e]) == ExtrasPrice(t, es) + 2 * ExtraPrice(t, e)
  {
    assert (es + [e, e])[..|es| + 1] == es + [e];
    assert (es + [e])[..|es|] == es;
  }

  /**
   * `valor.toFixed(2)` for an amount in centavos: the digits before the point
   * read the whole reais, the two after it the remaining centavos.
   */
  function Money(c: nat): (r: string)
    ensures |r| >= 4 && r[|r| - 3] == '.'
    ensures AllDigits(r[..|r| - 3]) && DecimalValue(r[..|r| - 3]) == c / 100
    ensures IsDigit(r[|r| - 2]) && IsDigit(r[|r| - 1])
    ensures DigitValue(r[|r| - 2]) * 10 + DigitValue(r[|r| - 1]) == c % 100
  {
    var reais := NatToString(c / 100);
    DecimalRoundTrip(c / 100);
    var r := reais + "." + [DigitChar(c % 100 / 10), DigitChar(c % 10)];
    assert r[..|r| - 3] == reais;
    r
  }

  // ---------------------------------------------------------------------------
  // The catalog shipped with the frontend (cardapio-data.ts)
  // ---------------------------------------------------------------------------

  const Cardapio: Menu := [
    MenuItem("Margherita", "molho de tomate, mussarela, manjericão", 3200),
    MenuItem("Pepperoni", "molho de tomate, mussarela, pepperoni", 3800),
    MenuItem("Quatro Queijos", "mussarela, provolone, gorgonzola, parmesão", 4200),
    MenuItem("Calabresa", "molho de tomate, mussarela, calabresa, cebola", 3500),
    MenuItem("Frango com Catupiry", "molho de tomate, mussarela, frango, catupiry", 4000),
    MenuItem("Vegetariana", "molho de tomate, mussarela, pimentão, cebola, azeitona", 3600),
    MenuItem("Portuguesa", "molho de tomate, mussarela, presunto, ovo, cebola, azeitona", 4000)
  ]

  const Extras: ExtrasTable := map[
    "Bacon" := 500,
    "Milho" := 300,
    "Azeitona Extra" := 200,
    "Ovo" := 300,
    "Catupiry Extra" := 400
  ]

  /** The shipped catalog: names are unique, it starts with Margherita, and no extra's name holds a comma. */
  lemma ShippedCatalogWellFormed()
    ensures UniqueNames(Cardapio)
    ensures |Cardapio| == 7 && Cardapio[0].nome == "Margherita"
    ensures forall e :: e in Extras ==> ',' !in e
  {
  }

  /** No shipped extra costs more than Bacon, so a line's extras cost at most R$ 5,00 each. */
  lemma {:induction false} ShippedExtrasAtMostBacon(es: seq<string>)
    ensures ExtrasPrice(Extras, es) <= Extras["Bacon"] * |es|
    decreases |es|
  {
    if es != [] {
      ShippedExtrasAtMostBacon(es[..|es| - 1]);
      assert ExtraPrice(Extras, es[|es| - 1]) <= 500;
    }
  }
}
