/**
 * The two rules of `GET /recomendar` that do not depend on the statistics:
 * the answer for an empty order table, and the "same weekday, within two
 * hours" window that selects the orders of the current context. The clock
 * reading is the pair of parameters `diaAtual` and `hora`.
 */
module Recommender {
  import opened Wrappers
  import opened Text
  import opened Catalog

  /** The JSON reply: a suggestion, or the 500 error that any exception becomes. */
  datatype Resposta =
    | Sugestao(pizza_recomendada: string, ingredientes: seq<string>, motivo: string)
    | Falha(erro: string)

  const MotivoSemPedidos := "Nenhum pedido registrado. Nossa sugestão especial!"

  /** `(max(0, hora - 2), min(23, hora + 2))`: the hour bounds of the context filter. */
  function HourWindow(hora: int): (int, int) {
    (if hora - 2 > 0 then hora - 2 else 0, if hora + 2 < 23 then hora + 2 else 23)
  }

  /**
   * An order placed on weekday `dia` at hour `h` falls in the context filter
   * for the current weekday `diaAtual` and hour `hora`. Weekdays are numbered
   * (the source compares their English day names, one name per day).
   */
  predicate InContext(dia: int, h: int, diaAtual: int, hora: int) {
    dia == diaAtual && HourWindow(hora).0 <= h <= HourWindow(hora).1
  }

  /** For a clock hour the window lies within the day, holds the hour itself and spans at most four hours. */
  lemma WindowWithinDay(hora: int)
    requires 0 <= hora <= 23
    ensures var (lo, hi) := HourWindow(hora); 0 <= lo <= hora <= hi <= 23 && hi - lo <= 4
  {
  }

  /**
   * Between clock hours, the filter keeps exactly the orders of the same
   * weekday placed at most two hours away, before or after.
   */
  lemma ContextIsTwoHoursAround(dia: int, h: int, diaAtual: int, hora: int)
    requires 0 <= h <= 23 && 0 <= hora <= 23
    ensures InContext(dia, h, diaAtual, hora) <==> dia == diaAtual && -2 <= h - hora <= 2
  {
  }

  /** Being in each other's context is symmetric for clock hours. */
  lemma ContextIsSymmetric(dia: int, h: int, diaAtual: int, hora: int)
    requires 0 <= h <= 23 && 0 <= hora <= 23
    ensures InContext(dia, h, diaAtual, hora) <==> InContext(diaAtual, hora, dia, h)
  {
    ContextIsTwoHoursAround(dia, h, diaAtual, hora);
    ContextIsTwoHoursAround(diaAtual, hora, dia, h);
  }

  /**
   * The reply when the table holds no order: the first pizza of the menu with
   * its comma-split, trimmed ingredients. With an empty menu the index fails
   * and the exception handler answers with the generic error.
   */
  function RecomendarSemPedidos(menu: Menu): (r: Resposta)
    ensures r.Falha? <==> menu == []
    ensures r.Falha? ==> r.erro == "Falha na recomendação"
    ensures r.Sugestao? ==>
      && r.pizza_recomendada == menu[0].nome
      && r.motivo == MotivoSemPedidos
      && |r.ingredientes| == |Split(menu[0].ingredientes, ',')|
      && forall i :: 0 <= i < |r.ingredientes| ==> r.ingredientes[i] == Trim(Split(menu[0].ingredientes, ',')[i])
  {
    if menu == [] then Falha("Falha na recomendação")
    else
      var pieces := Split(menu[0].ingredientes, ',');
      assert forall i :: 0 <= i < |pieces| ==> TrimAll(pieces)[i] == Trim(pieces[i]) by {
        forall i | 0 <= i < |pieces| ensures TrimAll(pieces)[i] == Trim(pieces[i]) {
          TrimAllAt(pieces, i);
        }
      }
      Sugestao(menu[0].nome, TrimmedPieces(menu[0].ingredientes, ','), MotivoSemPedidos)
  }

  /** In a menu without repeated names the suggestion is a pizza the menu prices, namely its first entry. */
  lemma SuggestionIsOnTheMenu(menu: Menu)
    requires UniqueNames(menu) && menu != []
    ensures Lookup(menu, RecomendarSemPedidos(menu).pizza_recomendada) == Some(menu[0])
  {
    LookupFindsEntry(menu, 0);
  }
}
