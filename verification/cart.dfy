/**
 * The shopping cart of the chat widget (`carrinho`): an ordered list of line
 * items, the merge rule of "add to cart", removal and quantity change by line
 * id, and the derived totals. All functions here are the values the React
 * state setters compute; the component class in chat.dfy applies them.
 */
module Cart {
  import opened Wrappers
  import opened Catalog

  /**
   * One cart line (`CarrinhoItem`). `precoTotal` is the unit price (base plus
   * extras) in centavos; `extras` keeps the order in which they were ticked.
   */
  datatype CartItem = CartItem(
    id: int,
    nome: string,
    precoBase: nat,
    extras: seq<string>,
    precoTotal: nat,
    quantidade: nat)

  type Cart = seq<CartItem>

  /**
   * The merge key of a line: same pizza name and the same extras list, order
   * included (the source compares `JSON.stringify` of the two arrays).
   */
  predicate SameLine(item: CartItem, nome: string, extras: seq<string>) {
    item.nome == nome && item.extras == extras
  }

  /** No two lines share a merge key. */
  predicate NoDuplicateLines(c: Cart) {
    forall i, j :: 0 <= i < j < |c| ==> !SameLine(c[j], c[i].nome, c[i].extras)
  }

  /** Every line has a positive quantity. */
  predicate PositiveQuantities(c: Cart) {
    forall i :: 0 <= i < |c| ==> c[i].quantidade >= 1
  }

  /** Every line names a menu pizza and carries that pizza's base price and its own extras' price. */
  predicate LinesPriced(c: Cart, menu: Menu, extras: ExtrasTable) {
    forall i :: 0 <= i < |c| ==>
      Lookup(menu, c[i].nome).Some? &&
      c[i].precoBase == Lookup(menu, c[i].nome).value.preco &&
      c[i].precoTotal == c[i].precoBase + ExtrasPrice(extras, c[i].extras)
  }

  // ---------------------------------------------------------------------------
  // Derived totals
  // ---------------------------------------------------------------------------

  /** `totalCarrinho`: Σ precoTotal × quantidade over the lines. */
  function Total(c: Cart): nat {
    if c == [] then 0 else c[0].precoTotal * c[0].quantidade + Total(c[1..])
  }

  /** `totalItens`: Σ quantidade over the lines. */
  function Units(c: Cart): nat {
    if c == [] then 0 else c[0].quantidade + Units(c[1..])
  }

  /** Both totals add up over a concatenation. */
  lemma {:induction false} TotalsAppend(a: Cart, b: Cart)
    ensures Total(a + b) == Total(a) + Total(b)
    ensures Units(a + b) == Units(a) + Units(b)
    decreases |a|
  {
    if a == [] {
      assert a + b == b;
    } else {
      assert (a + b)[1..] == a[1..] + b;
      TotalsAppend(a[1..], b);
    }
  }

  /** Changing one line's quantity from `x` to `y` moves the totals by the difference. */
  lemma TotalsAfterQuantityChange(c: Cart, k: nat, y: nat)
    requires k < |c|
    ensures Units(c[k := c[k].(quantidade := y)]) + c[k].quantidade == Units(c) + y
    ensures Total(c[k := c[k].(quantidade := y)]) + c[k].precoTotal * c[k].quantidade
            == Total(c) + c[k].precoTotal * y
  {
    var line := c[k].(quantidade := y);
    var c' := c[k := line];
    assert c == c[..k] + [c[k]] + c[k + 1..];
    assert c' == c[..k] + [line] + c[k + 1..];
    TotalsAppend(c[..k] + [c[k]], c[k + 1..]);
    TotalsAppend(c[..k], [c[k]]);
    TotalsAppend(c[..k] + [line], c[k + 1..]);
    TotalsAppend(c[..k], [line]);
  }

  // ---------------------------------------------------------------------------
  // Add to cart (merge or append)
  // ---------------------------------------------------------------------------

  /** `carrinho.findIndex(...)`: the first line with this merge key, or -1. */
  function FindLine(c: Cart, nome: string, extras: seq<string>): (k: int)
    ensures -1 <= k < |c|
    ensures k >= 0 ==> SameLine(c[k], nome, extras)
    ensures k >= 0 ==> forall j :: 0 <= j < k ==> !SameLine(c[j], nome, extras)
    ensures k == -1 <==> forall j :: 0 <= j < |c| ==> !SameLine(c[j], nome, extras)
  {
    if c == [] then -1
    else if SameLine(c[0], nome, extras) then 0
    else
      var k := FindLine(c[1..], nome, extras);
      assert forall j :: 1 <= j < |c| ==> c[j] == c[1..][j - 1];
      if k == -1 then -1 else k + 1
  }

  /**
   * The cart after confirming the add dialog: a line with the same merge key
   * gets `q` more units; otherwise a new line `(newId, nome, precoBase,
   * extras, precoTotal, q)` goes at the end.
   */
  function AddItem(c: Cart, nome: string, precoBase: nat, extras: seq<string>, precoTotal: nat, q: nat, newId: int): Cart {
    var k := FindLine(c, nome, extras);
    if k > -1 then c[k := c[k].(quantidade := c[k].quantidade + q)]
    else c + [CartItem(newId, nome, precoBase, extras, precoTotal, q)]
  }

  /**
   * Merge: when a line has the same pizza and the same ordered extras, only
   * its quantity grows by `q`; length and every other line are unchanged.
   */
  lemma AddMergesMatchingLine(c: Cart, nome: string, precoBase: nat, extras: seq<string>, precoTotal: nat, q: nat, newId: int, i: nat)
    requires NoDuplicateLines(c)
    requires i < |c| && SameLine(c[i], nome, extras)
    ensures var r := AddItem(c, nome, precoBase, extras, precoTotal, q, newId);
      |r| == |c| &&
      r[i] == c[i].(quantidade := c[i].quantidade + q) &&
      forall j :: 0 <= j < |c| && j != i ==> r[j] == c[j]
  {
  }

  /**
   * The merge, line by line: in a cart with unique keys that has a line for
   * the key, that line gains `q` units and every other line stays as it was.
   */
  lemma AddMergesByKey(c: Cart, nome: string, precoBase: nat, extras: seq<string>, precoTotal: nat, q: nat, newId: int)
    requires NoDuplicateLines(c)
    requires exists i :: 0 <= i < |c| && SameLine(c[i], nome, extras)
    ensures var r := AddItem(c, nome, precoBase, extras, precoTotal, q, newId);
      |r| == |c| &&
      forall j :: 0 <= j < |c| ==>
        r[j] == (if SameLine(c[j], nome, extras) then c[j].(quantidade := c[j].quantidade + q) else c[j])
  {
    var i :| 0 <= i < |c| && SameLine(c[i], nome, extras);
    AddMergesMatchingLine(c, nome, precoBase, extras, precoTotal, q, newId, i);
    forall j | 0 <= j < |c| && j != i
      ensures !SameLine(c[j], nome, extras)
    {
      if j < i {
        assert !SameLine(c[i], c[j].nome, c[j].extras);
      } else {
        assert !SameLine(c[j], c[i].nome, c[i].extras);
      }
    }
  }

  /**
   * One add, in full: the totals rise by `q` units at `precoTotal`, and the
   * cart either merges into the line with the key or gains one new line.
   */
  lemma AddItemEffect(c: Cart, nome: string, precoBase: nat, extras: seq<string>, precoTotal: nat, q: nat, newId: int)
    requires NoDuplicateLines(c)
    requires forall j :: 0 <= j < |c| && SameLine(c[j], nome, extras) ==> c[j].precoTotal == precoTotal
    ensures var r := AddItem(c, nome, precoBase, extras, precoTotal, q, newId);
      Units(r) == Units(c) + q && Total(r) == Total(c) + precoTotal * q &&
      if exists i :: 0 <= i < |c| && SameLine(c[i], nome, extras)
      then |r| == |c| &&
           forall j :: 0 <= j < |c| ==>
             r[j] == (if SameLine(c[j], nome, extras) then c[j].(quantidade := c[j].quantidade + q) else c[j])
      else r == c + [CartItem(newId, nome, precoBase, extras, precoTotal, q)]
  {
    AddRaisesTotals(c, nome, precoBase, extras, precoTotal, q, newId);
    if exists i :: 0 <= i < |c| && SameLine(c[i], nome, extras) {
      AddMergesByKey(c, nome, precoBase, extras, precoTotal, q, newId);
    }
  }

  /** Append: with no matching line, exactly one line is added at the end and the rest is kept. */
  lemma AddAppendsNewLine(c: Cart, nome: string, precoBase: nat, extras: seq<string>, precoTotal: nat, q: nat, newId: int)
    requires forall j :: 0 <= j < |c| ==> !SameLine(c[j], nome, extras)
    ensures AddItem(c, nome, precoBase, extras, precoTotal, q, newId)
         == c + [CartItem(newId, nome, precoBase, extras, precoTotal, q)]
  {
  }

  /**
   * Adding `q` units at unit price `precoTotal` raises the item count by `q`
   * and the total by `precoTotal × q`, provided a matching line (if any) has
   * that same unit price.
   */
  lemma {:induction false} AddRaisesTotals(c: Cart, nome: string, precoBase: nat, extras: seq<string>, precoTotal: nat, q: nat, newId: int)
    requires forall j :: 0 <= j < |c| && SameLine(c[j], nome, extras) ==> c[j].precoTotal == precoTotal
    ensures var r := AddItem(c, nome, precoBase, extras, precoTotal, q, newId);
      Units(r) == Units(c) + q && Total(r) == Total(c) + precoTotal * q
  {
    var k := FindLine(c, nome, extras);
    var r := AddItem(c, nome, precoBase, extras, precoTotal, q, newId);
    if k > -1 {
      assert r == c[k := c[k].(quantidade := c[k].quantidade + q)];
      MergeRaisesTotals(c, k, precoTotal, q);
    } else {
      var line := CartItem(newId, nome, precoBase, extras, precoTotal, q);
      assert r == c + [line];
      AppendRaisesTotals(c, line);
    }
  }

  lemma AppendRaisesTotals(c: Cart, line: CartItem)
    ensures Units(c + [line]) == Units(c) + line.quantidade
    ensures Total(c + [line]) == Total(c) + line.precoTotal * line.quantidade
  {
    TotalsAppend(c, [line]);
    assert [line][1..] == [];
  }

  lemma MergeRaisesTotals(c: Cart, k: nat, p: nat, q: nat)
    requires k < |c| && c[k].precoTotal == p
    ensures Units(c[k := c[k].(quantidade := c[k].quantidade + q)]) == Units(c) + q
    ensures Total(c[k := c[k].(quantidade := c[k].quantidade + q)]) == Total(c) + p * q
  {
    var a := c[k].quantidade;
    TotalsAfterQuantityChange(c, k, a + q);
    Distribute(p, a, q);
  }

  lemma Distribute(p: nat, a: nat, q: nat)
    ensures p * (a + q) == p * a + p * q
  {
  }

  /** Adding keeps merge keys unique. */
  lemma AddKeepsLinesUnique(c: Cart, nome: string, precoBase: nat, extras: seq<string>, precoTotal: nat, q: nat, newId: int)
    requires NoDuplicateLines(c)
    ensures NoDuplicateLines(AddItem(c, nome, precoBase, extras, precoTotal, q, newId))
  {
    var r := AddItem(c, nome, precoBase, extras, precoTotal, q, newId);
    var k := FindLine(c, nome, extras);
    if k > -1 {
      forall i, j | 0 <= i < j < |r| ensures !SameLine(r[j], r[i].nome, r[i].extras) {
        assert r[i].nome == c[i].nome && r[i].extras == c[i].extras;
        assert r[j].nome == c[j].nome && r[j].extras == c[j].extras;
      }
    }
  }

  /** Adding a menu pizza at its menu price keeps merge keys unique, quantities positive and lines priced. */
  lemma AddKeepsCartInvariant(c: Cart, nome: string, precoBase: nat, extras: seq<string>, precoTotal: nat, q: nat, newId: int,
                              menu: Menu, table: ExtrasTable)
    requires NoDuplicateLines(c) && PositiveQuantities(c) && LinesPriced(c, menu, table)
    requires q >= 1 && Lookup(menu, nome).Some? && precoBase == Lookup(menu, nome).value.preco
    requires precoTotal == precoBase + ExtrasPrice(table, extras)
    ensures var r := AddItem(c, nome, precoBase, extras, precoTotal, q, newId);
      NoDuplicateLines(r) && PositiveQuantities(r) && LinesPriced(r, menu, table)
  {
    AddKeepsLinesUnique(c, nome, precoBase, extras, precoTotal, q, newId);
    var r := AddItem(c, nome, precoBase, extras, precoTotal, q, newId);
    var k := FindLine(c, nome, extras);
    if k > -1 {
      assert forall i :: 0 <= i < |r| ==> r[i].(quantidade := c[i].quantidade) == c[i];
    } else {
      assert forall i :: 0 <= i < |c| ==> r[i] == c[i];
    }
  }

  /** How many lines carry a merge key. */
  function CountLines(c: Cart, nome: string, extras: seq<string>): nat {
    if c == [] then 0
    else (if SameLine(c[0], nome, extras) then 1 else 0) + CountLines(c[1..], nome, extras)
  }

  /** How many units the lines with a merge key hold together. */
  function MatchingUnits(c: Cart, nome: string, extras: seq<string>): nat {
    if c == [] then 0
    else (if SameLine(c[0], nome, extras) then c[0].quantidade else 0) + MatchingUnits(c[1..], nome, extras)
  }

  lemma {:induction false} CountersAppend(a: Cart, b: Cart, nome: string, extras: seq<string>)
    ensures CountLines(a + b, nome, extras) == CountLines(a, nome, extras) + CountLines(b, nome, extras)
    ensures MatchingUnits(a + b, nome, extras) == MatchingUnits(a, nome, extras) + MatchingUnits(b, nome, extras)
    decreases |a|
  {
    if a == [] {
      assert a + b == b;
    } else {
      assert (a + b)[1..] == a[1..] + b;
      CountersAppend(a[1..], b, nome, extras);
    }
  }

  lemma {:induction false} NoMatchCountsZero(c: Cart, nome: string, extras: seq<string>)
    requires forall j :: 0 <= j < |c| ==> !SameLine(c[j], nome, extras)
    ensures CountLines(c, nome, extras) == 0 && MatchingUnits(c, nome, extras) == 0
  {
    if c != [] {
      NoMatchCountsZero(c[1..], nome, extras);
    }
  }

  /** One add of a merge key: the key then has one line if it had none, and `q` more units. */
  lemma AddCountsMatching(c: Cart, nome: string, precoBase: nat, extras: seq<string>, precoTotal: nat, q: nat, newId: int)
    ensures var r := AddItem(c, nome, precoBase, extras, precoTotal, q, newId);
      CountLines(r, nome, extras) == (if CountLines(c, nome, extras) == 0 then 1 else CountLines(c, nome, extras)) &&
      MatchingUnits(r, nome, extras) == MatchingUnits(c, nome, extras) + q
  {
    var k := FindLine(c, nome, extras);
    var r := AddItem(c, nome, precoBase, extras, precoTotal, q, newId);
    if k > -1 {
      var line := c[k].(quantidade := c[k].quantidade + q);
      assert c == c[..k] + [c[k]] + c[k + 1..];
      assert r == c[..k] + [line] + c[k + 1..];
      CountersAppend(c[..k] + [c[k]], c[k + 1..], nome, extras);
      CountersAppend(c[..k], [c[k]], nome, extras);
      CountersAppend(c[..k] + [line], c[k + 1..], nome, extras);
      CountersAppend(c[..k], [line], nome, extras);
    } else {
      NoMatchCountsZero(c, nome, extras);
      CountersAppend(c, [CartItem(newId, nome, precoBase, extras, precoTotal, q)], nome, extras);
    }
  }

  /** A series of adds of one merge key, with the quantities `qs` and the fresh ids `ids`. */
  function AddRepeatedly(c: Cart, nome: string, precoBase: nat, extras: seq<string>, precoTotal: nat, qs: seq<nat>, ids: seq<int>): Cart
    requires |ids| == |qs|
    decreases |qs|
  {
    if qs == [] then c
    else AddRepeatedly(AddItem(c, nome, precoBase, extras, precoTotal, qs[0], ids[0]), nome, precoBase, extras, precoTotal, qs[1..], ids[1..])
  }

  function Sum(qs: seq<nat>): nat {
    if qs == [] then 0 else qs[0] + Sum(qs[1..])
  }

  /**
   * Any number of adds of the same (pizza, ordered extras) to a cart without
   * that key leaves exactly one line with it, holding the sum of the requested
   * quantities.
   */
  lemma {:induction false} RepeatedAddsMakeOneLine(c: Cart, nome: string, precoBase: nat, extras: seq<string>, precoTotal: nat, qs: seq<nat>, ids: seq<int>)
    requires |ids| == |qs| >= 1
    requires CountLines(c, nome, extras) <= 1
    ensures var r := AddRepeatedly(c, nome, precoBase, extras, precoTotal, qs, ids);
      CountLines(r, nome, extras) == 1 &&
      MatchingUnits(r, nome, extras) == MatchingUnits(c, nome, extras) + Sum(qs)
    decreases |qs|
  {
    var c1 := AddItem(c, nome, precoBase, extras, precoTotal, qs[0], ids[0]);
    AddCountsMatching(c, nome, precoBase, extras, precoTotal, qs[0], ids[0]);
    if |qs| > 1 {
      RepeatedAddsMakeOneLine(c1, nome, precoBase, extras, precoTotal, qs[1..], ids[1..]);
    }
  }

  /** When exactly one line has a key, that line holds all the key's units. */
  lemma {:induction false} SingleLineHoldsAll(c: Cart, nome: string, extras: seq<string>)
    requires CountLines(c, nome, extras) == 1
    ensures exists i :: 0 <= i < |c| && SameLine(c[i], nome, extras) && c[i].quantidade == MatchingUnits(c, nome, extras)
  {
    if SameLine(c[0], nome, extras) {
      assert CountLines(c[1..], nome, extras) == 0;
      ZeroCountNoUnits(c[1..], nome, extras);
    } else {
      SingleLineHoldsAll(c[1..], nome, extras);
      var i :| 0 <= i < |c[1..]| && SameLine(c[1..][i], nome, extras) && c[1..][i].quantidade == MatchingUnits(c[1..], nome, extras);
      assert c[i + 1] == c[1..][i];
    }
  }

  lemma {:induction false} ZeroCountNoUnits(c: Cart, nome: string, extras: seq<string>)
    requires CountLines(c, nome, extras) == 0
    ensures MatchingUnits(c, nome, extras) == 0
  {
    if c != [] {
      ZeroCountNoUnits(c[1..], nome, extras);
    }
  }

  // ---------------------------------------------------------------------------
  // Remove and change quantity
  // ---------------------------------------------------------------------------

  /** `carrinho.filter(item => item.id !== id)`. */
  function WithoutId(c: Cart, id: int): (r: Cart)
    ensures forall x :: x in r <==> x in c && x.id != id
    ensures |r| <= |c|
  {
    if c == [] then []
    else (if c[0].id == id then [] else [c[0]]) + WithoutId(c[1..], id)
  }

  /** Removal works piecewise, so the surviving lines keep their relative order. */
  lemma {:induction false} WithoutIdAppend(a: Cart, b: Cart, id: int)
    ensures WithoutId(a + b, id) == WithoutId(a, id) + WithoutId(b, id)
    decreases |a|
  {
    if a == [] {
      assert a + b == b;
    } else {
      assert (a + b)[1..] == a[1..] + b;
      WithoutIdAppend(a[1..], b, id);
    }
  }

  /** Removing an id that no line has leaves the cart as it is. */
  lemma {:induction false} WithoutAbsentId(c: Cart, id: int)
    requires forall i :: 0 <= i < |c| ==> c[i].id != id
    ensures WithoutId(c, id) == c
  {
    if c != [] {
      WithoutAbsentId(c[1..], id);
    }
  }

  /** Removal keeps merge keys unique. */
  lemma {:induction false} WithoutIdKeepsLinesUnique(c: Cart, id: int)
    requires NoDuplicateLines(c)
    ensures NoDuplicateLines(WithoutId(c, id))
  {
    if c != [] {
      WithoutIdKeepsLinesUnique(c[1..], id);
      var rest := WithoutId(c[1..], id);
      if c[0].id != id {
        var r := [c[0]] + rest;
        forall j | 1 <= j < |r| ensures !SameLine(r[j], r[0].nome, r[0].extras) {
          assert r[j] in rest;
          var k :| 1 <= k < |c| && c[k] == r[j];
        }
      }
    }
  }

  /** `carrinho.map(item => item.id === id ? { ...item, quantidade: q } : item)`. */
  function SetQuantity(c: Cart, id: int, q: nat): (r: Cart)
    ensures |r| == |c|
  {
    seq(|c|, i requires 0 <= i < |c| => if c[i].id == id then c[i].(quantidade := q) else c[i])
  }

  /** `handleAtualizarQuantidade`: below 1 removes the line(s), otherwise sets the quantity. */
  function UpdateQuantity(c: Cart, id: int, n: int): Cart {
    if n < 1 then WithoutId(c, id) else SetQuantity(c, id, n)
  }

  /**
   * A quantity of at least 1 touches only the lines with that id and only
   * their quantity; the length is unchanged.
   */
  lemma UpdateChangesOnlyQuantity(c: Cart, id: int, n: int)
    requires n >= 1
    ensures var r := UpdateQuantity(c, id, n);
      |r| == |c| &&
      forall i :: 0 <= i < |c| ==>
        r[i].(quantidade := c[i].quantidade) == c[i] &&
        (c[i].id == id ==> r[i].quantidade == n) &&
        (c[i].id != id ==> r[i] == c[i])
  {
  }

  /** A quantity below 1 is a removal. */
  lemma UpdateBelowOneRemoves(c: Cart, id: int, n: int)
    requires n < 1
    ensures UpdateQuantity(c, id, n) == WithoutId(c, id)
  {
  }

  /** Changing quantities keeps merge keys unique, positive quantities positive and prices intact. */
  lemma UpdateKeepsCartInvariant(c: Cart, id: int, n: int, menu: Menu, extras: ExtrasTable)
    requires NoDuplicateLines(c) && PositiveQuantities(c) && LinesPriced(c, menu, extras)
    ensures var r := UpdateQuantity(c, id, n);
      NoDuplicateLines(r) && PositiveQuantities(r) && LinesPriced(r, menu, extras)
  {
    var r := UpdateQuantity(c, id, n);
    if n < 1 {
      WithoutIdKeepsLinesUnique(c, id);
      forall i | 0 <= i < |r| ensures r[i].quantidade >= 1 && Lookup(menu, r[i].nome).Some? &&
        r[i].precoBase == Lookup(menu, r[i].nome).value.preco &&
        r[i].precoTotal == r[i].precoBase + ExtrasPrice(extras, r[i].extras)
      {
        assert r[i] in c;
      }
    } else {
      assert forall i :: 0 <= i < |r| ==> r[i].nome == c[i].nome && r[i].extras == c[i].extras;
    }
  }
}
