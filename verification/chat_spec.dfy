/**
 * What each event handler of the chat widget (PizzaRecommender) does to the
 * component's state, as functions from the state before to the state after.
 * The class in chat.dfy performs the same updates field by field and is
 * proved to agree with these functions; the properties of the widget are
 * proved here, on the functions.
 *
 * Clock readings (`Date.now()`) are the parameter `now`; the recommendation
 * service's answer and the outcome of every order request are parameters too.
 */
module ChatSpec {
  import opened Wrappers
  import opened Text
  import opened Catalog
  import opened Cart

  // ---------------------------------------------------------------------------
  // Messages
  // ---------------------------------------------------------------------------

  datatype MessageType = User | Bot | System | CardapioCard | Action

  /** A button of an action or menu message: its label and the action code it dispatches. */
  datatype ActionOption = ActionOption(text: string, action: string)

  datatype PizzaCard = PizzaCard(nome: string, ingredientes: string, preco: nat)

  /** One chat entry; an absent `options` list is the empty list. */
  datatype Message = Message(id: int, kind: MessageType, text: Option<string>, pizza: Option<PizzaCard>, options: seq<ActionOption>)

  function TextMessage(id: int, kind: MessageType, text: string): Message {
    Message(id, kind, Some(text), None, [])
  }

  function ActionMessage(id: int, options: seq<ActionOption>): Message {
    Message(id, Action, None, None, options)
  }

  // ---------------------------------------------------------------------------
  // Component state
  // ---------------------------------------------------------------------------

  datatype ClienteInfo = ClienteInfo(id: Option<int>, nome: string, telefone: string, endereco: string)

  /** The pizza whose add dialog is open, with its menu price. */
  datatype PendingPizza = PendingPizza(nome: string, preco: nat)

  /** The body of one `POST /pedido` request. */
  datatype PedidoData = PedidoData(cliente_id: int, nome_cliente: string, telefone_cliente: string, pizza: string, extras: seq<string>)

  /** What the recommendation call produced: a suggestion, an error payload, or a thrown error. */
  datatype Recomendacao =
    | Recomendada(pizza: string, motivo: string, ingredientes: seq<string>)
    | ErroNegocio(detalhe: string)
    | FalhaConexao

  /** The requests a handler sends out: order submissions, and the client id of a recommendation call. */
  datatype Requests = Requests(pedidos: seq<PedidoData>, recomendarPara: Option<int>)

  const NoRequests := Requests([], None)

  /** All the `useState` cells of the widget that the handlers read or write. */
  datatype ChatState = ChatState(
    clienteInfo: ClienteInfo,
    showClienteForm: bool,
    messages: seq<Message>,
    inputText: string,
    loading: bool,
    carrinho: Cart,
    showCarrinho: bool,
    pizzaToAdd: Option<PendingPizza>,
    extrasSelecionados: seq<string>,
    quantidade: nat)

  predicate NoRepeats(s: seq<string>) {
    forall i, j :: 0 <= i < j < |s| ==> s[i] != s[j]
  }

  /**
   * What the handlers keep true: the dialog quantity is at least 1; cart lines
   * have unique merge keys, positive quantities and their menu prices; the
   * pending pizza is a menu pizza at its menu price; no extra is ticked twice.
   */
  predicate Inv(s: ChatState, menu: Menu, extras: ExtrasTable) {
    s.quantidade >= 1 &&
    NoDuplicateLines(s.carrinho) && PositiveQuantities(s.carrinho) && LinesPriced(s.carrinho, menu, extras) &&
    (s.pizzaToAdd.Some? ==>
      Lookup(menu, s.pizzaToAdd.value.nome).Some? &&
      s.pizzaToAdd.value.preco == Lookup(menu, s.pizzaToAdd.value.nome).value.preco) &&
    NoRepeats(s.extrasSelecionados)
  }

  function Say(s: ChatState, id: int, kind: MessageType, text: string): ChatState {
    s.(messages := s.messages + [TextMessage(id, kind, text)])
  }

  function Append(s: ChatState, ms: seq<Message>): ChatState {
    s.(messages := s.messages + ms)
  }

  const BoasVindas := "Olá! Bem-vindo à Pizzaria IA! 🍕\n\nSou seu assistente virtual. Vamos começar com seu cadastro para uma experiência personalizada."

  /** The state after mounting: the welcome message, the registration form, an empty cart. */
  function Initial(): ChatState {
    ChatState(ClienteInfo(None, "", "", ""), true, [TextMessage(1, Bot, BoasVindas)], "", false, [], false, None, [], 1)
  }

  lemma InitialSatisfiesInv(menu: Menu, extras: ExtrasTable)
    ensures Inv(Initial(), menu, extras)
  {
  }

  // ---------------------------------------------------------------------------
  // Registration gate
  // ---------------------------------------------------------------------------

  /** The three form inputs' `onChange` handlers. */
  function EditarCadastro(s: ChatState, nome: string, telefone: string, endereco: string): ChatState {
    s.(clienteInfo := s.clienteInfo.(nome := nome, telefone := telefone, endereco := endereco))
  }

  const OpcoesIniciais := [
    ActionOption("📋 Ver Cardápio", "ver_cardapio"),
    ActionOption("🎯 Receber Recomendação", "recomendar"),
    ActionOption("❓ Ajuda", "ajuda")
  ]

  /** `handleClienteSubmit` at clock reading `now`. */
  function ClienteSubmit(s: ChatState, now: nat): ChatState {
    var c := s.clienteInfo;
    if c.nome != "" && c.telefone != "" && c.endereco != "" then
      Append(s.(clienteInfo := c.(id := Some(now % 10000)), showClienteForm := false), [
        TextMessage(now, Bot, "✅ **Cadastro Concluído!**\n\nObrigado, " + c.nome + "! Agora, como posso te ajudar? 😊"),
        ActionMessage(now + 1, OpcoesIniciais)
      ])
    else s
  }

  /**
   * Registration succeeds exactly when name, phone and address are all
   * non-empty; it then sets an id in [0, 9999], hides the form and appends a
   * bot message and a three-option action message, and nothing else changes.
   * Otherwise nothing changes at all.
   */
  lemma RegistrationGate(s: ChatState, now: nat)
    ensures var c := s.clienteInfo;
      var r := ClienteSubmit(s, now);
      (c.nome != "" && c.telefone != "" && c.endereco != "" <==> r != s) &&
      (r != s ==>
        r.clienteInfo.id.Some? && 0 <= r.clienteInfo.id.value <= 9999 &&
        r.clienteInfo.(id := c.id) == c &&
        !r.showClienteForm &&
        |r.messages| == |s.messages| + 2 && r.messages[..|s.messages|] == s.messages &&
        r.messages[|s.messages|].kind == Bot &&
        r.messages[|s.messages| + 1].kind == Action && |r.messages[|s.messages| + 1].options| == 3 &&
        r.(clienteInfo := c, showClienteForm := s.showClienteForm, messages := s.messages) == s)
  {
    var c := s.clienteInfo;
    var r := ClienteSubmit(s, now);
    if c.nome != "" && c.telefone != "" && c.endereco != "" {
      assert |r.messages| != |s.messages|;
    }
  }

  // ---------------------------------------------------------------------------
  // The add dialog
  // ---------------------------------------------------------------------------

  /** Opening the add dialog for a menu pizza (the `adicionar_<nome>` action); unknown names do nothing. */
  function SelectPizza(s: ChatState, menu: Menu, nome: string): ChatState {
    match Lookup(menu, nome)
    case Some(item) => s.(pizzaToAdd := Some(PendingPizza(nome, item.preco)), extrasSelecionados := [], quantidade := 1)
    case None => s
  }

  /** `prev.filter(e => e !== extra)`. */
  function Unticked(es: seq<string>, extra: string): (r: seq<string>)
    ensures forall x :: x in r <==> x in es && x != extra
  {
    if es == [] then [] else (if es[0] == extra then [] else [es[0]]) + Unticked(es[1..], extra)
  }

  /** A checkbox click: an unticked extra is appended, a ticked one is removed. */
  function ToggleExtra(s: ChatState, extra: string): ChatState {
    if extra in s.extrasSelecionados then s.(extrasSelecionados := Unticked(s.extrasSelecionados, extra))
    else s.(extrasSelecionados := s.extrasSelecionados + [extra])
  }

  /** The stepper's "+" button. */
  function IncrementQuantidade(s: ChatState): ChatState {
    s.(quantidade := s.quantidade + 1)
  }

  /** The stepper's "-" button: `Math.max(1, quantidade - 1)`. */
  function DecrementQuantidade(s: ChatState): ChatState {
    s.(quantidade := if s.quantidade - 1 > 1 then s.quantidade - 1 else 1)
  }

  /** The "Cancelar" button. */
  function CancelarAdicao(s: ChatState): ChatState {
    s.(pizzaToAdd := None)
  }

  /** Removing a repeated-free list's element keeps it repeat-free. */
  lemma {:induction false} UntickedKeepsNoRepeats(es: seq<string>, extra: string)
    requires NoRepeats(es)
    ensures NoRepeats(Unticked(es, extra))
  {
    if es != [] {
      UntickedKeepsNoRepeats(es[1..], extra);
      var rest := Unticked(es[1..], extra);
      if es[0] != extra {
        forall j | 1 <= j < |[es[0]] + rest| ensures ([es[0]] + rest)[j] != es[0] {
          assert ([es[0]] + rest)[j] in es[1..];
        }
      }
    }
  }

  /** Toggling twice from an unticked state restores the selection. */
  lemma ToggleTwiceRestores(s: ChatState, extra: string)
    requires extra !in s.extrasSelecionados
    ensures ToggleExtra(ToggleExtra(s, extra), extra) == s
  {
    UntickedAbsent(s.extrasSelecionados, extra);
    UntickedLast(s.extrasSelecionados, extra);
  }

  lemma {:induction false} UntickedAbsent(es: seq<string>, extra: string)
    requires extra !in es
    ensures Unticked(es, extra) == es
  {
    if es != [] {
      UntickedAbsent(es[1..], extra);
      assert es == [es[0]] + es[1..];
    }
  }

  lemma {:induction false} UntickedLast(es: seq<string>, extra: string)
    ensures Unticked(es + [extra], extra) == Unticked(es, extra)
  {
    if es == [] {
      assert Unticked([extra], extra) == [] + Unticked([], extra);
    } else {
      assert (es + [extra])[1..] == es[1..] + [extra];
      UntickedLast(es[1..], extra);
    }
  }

  /** The dialog's handlers keep the invariant. */
  lemma DialogKeepsInv(s: ChatState, menu: Menu, extras: ExtrasTable, nome: string, extra: string)
    requires Inv(s, menu, extras)
    ensures Inv(SelectPizza(s, menu, nome), menu, extras)
    ensures Inv(ToggleExtra(s, extra), menu, extras)
    ensures Inv(IncrementQuantidade(s), menu, extras)
    ensures Inv(DecrementQuantidade(s), menu, extras)
    ensures Inv(CancelarAdicao(s), menu, extras)
  {
    if extra in s.extrasSelecionados {
      UntickedKeepsNoRepeats(s.extrasSelecionados, extra);
    }
  }

  // ---------------------------------------------------------------------------
  // Cart handlers
  // ---------------------------------------------------------------------------

  /** `handleAdicionarAoCarrinho` at clock reading `now`. */
  function AdicionarAoCarrinho(s: ChatState, extras: ExtrasTable, now: int): ChatState {
    match s.pizzaToAdd
    case None => s
    case Some(p) =>
      var precoTotal := p.preco + ExtrasPrice(extras, s.extrasSelecionados);
      s.(carrinho := AddItem(s.carrinho, p.nome, p.preco, s.extrasSelecionados, precoTotal, s.quantidade, now),
         pizzaToAdd := None, extrasSelecionados := [], quantidade := 1,
         messages := s.messages + [TextMessage(now, System, AdicionadaText(s.quantidade, p.nome))])
  }

  /** The system message that confirms an addition. */
  function AdicionadaText(quantidade: nat, nome: string): string {
    "✅ " + NatToString(quantidade) + "x " + nome + AdicionadaFim
  }

  const AdicionadaFim := " adicionada ao carrinho!"

  /**
   * With no pending pizza nothing changes. Otherwise the dialog is reset
   * (no pending pizza, no extras, quantity 1), one system message is
   * appended, and the cart gains `quantidade` units at the unit price
   * base + Σ extras: merged into the line with the same pizza and ordered
   * extras if there is one, else as one new line at the end.
   */
  lemma {:induction false} AddToCartEffect(s: ChatState, menu: Menu, extras: ExtrasTable, now: int)
    requires Inv(s, menu, extras)
    ensures s.pizzaToAdd.None? ==> AdicionarAoCarrinho(s, extras, now) == s
    ensures s.pizzaToAdd.Some? ==>
      var r := AdicionarAoCarrinho(s, extras, now);
      var p := s.pizzaToAdd.value;
      var unit := p.preco + ExtrasPrice(extras, s.extrasSelecionados);
      r == s.(carrinho := r.carrinho, messages := r.messages,
              pizzaToAdd := None, extrasSelecionados := [], quantidade := 1) &&
      r.messages == s.messages + [TextMessage(now, System, AdicionadaText(s.quantidade, p.nome))] &&
      r.carrinho == AddItem(s.carrinho, p.nome, p.preco, s.extrasSelecionados, unit, s.quantidade, now) &&
      Units(r.carrinho) == Units(s.carrinho) + s.quantidade &&
      Total(r.carrinho) == Total(s.carrinho) + unit * s.quantidade &&
      (if exists i :: 0 <= i < |s.carrinho| && SameLine(s.carrinho[i], p.nome, s.extrasSelecionados)
       then |r.carrinho| == |s.carrinho| &&
            forall i :: 0 <= i < |s.carrinho| ==>
              r.carrinho[i] == (if SameLine(s.carrinho[i], p.nome, s.extrasSelecionados)
                                then s.carrinho[i].(quantidade := s.carrinho[i].quantidade + s.quantidade)
                                else s.carrinho[i])
       else r.carrinho == s.carrinho + [CartItem(now, p.nome, p.preco, s.extrasSelecionados, unit, s.quantidade)])
  {
    if s.pizzaToAdd.Some? {
      var p := s.pizzaToAdd.value;
      var unit := p.preco + ExtrasPrice(extras, s.extrasSelecionados);
      forall j | 0 <= j < |s.carrinho| && SameLine(s.carrinho[j], p.nome, s.extrasSelecionados)
        ensures s.carrinho[j].precoTotal == unit
      {
      }
      AddToCartSome(s, extras, now);
    }
  }

  /** `AddToCartEffect` once a pizza is pending, from the two cart facts it needs. */
  lemma AddToCartSome(s: ChatState, extras: ExtrasTable, now: int)
    requires s.pizzaToAdd.Some? && NoDuplicateLines(s.carrinho)
    requires forall j :: 0 <= j < |s.carrinho| && SameLine(s.carrinho[j], s.pizzaToAdd.value.nome, s.extrasSelecionados) ==>
      s.carrinho[j].precoTotal == s.pizzaToAdd.value.preco + ExtrasPrice(extras, s.extrasSelecionados)
    ensures s.pizzaToAdd.Some? ==>
      var r := AdicionarAoCarrinho(s, extras, now);
      var p := s.pizzaToAdd.value;
      var unit := p.preco + ExtrasPrice(extras, s.extrasSelecionados);
      r == s.(carrinho := r.carrinho, messages := r.messages,
              pizzaToAdd := None, extrasSelecionados := [], quantidade := 1) &&
      r.messages == s.messages + [TextMessage(now, System, AdicionadaText(s.quantidade, p.nome))] &&
      r.carrinho == AddItem(s.carrinho, p.nome, p.preco, s.extrasSelecionados, unit, s.quantidade, now) &&
      Units(r.carrinho) == Units(s.carrinho) + s.quantidade &&
      Total(r.carrinho) == Total(s.carrinho) + unit * s.quantidade &&
      (if exists i :: 0 <= i < |s.carrinho| && SameLine(s.carrinho[i], p.nome, s.extrasSelecionados)
       then |r.carrinho| == |s.carrinho| &&
            forall i :: 0 <= i < |s.carrinho| ==>
              r.carrinho[i] == (if SameLine(s.carrinho[i], p.nome, s.extrasSelecionados)
                                then s.carrinho[i].(quantidade := s.carrinho[i].quantidade + s.quantidade)
                                else s.carrinho[i])
       else r.carrinho == s.carrinho + [CartItem(now, p.nome, p.preco, s.extrasSelecionados, unit, s.quantidade)])
  {
    var p := s.pizzaToAdd.value;
    var unit := p.preco + ExtrasPrice(extras, s.extrasSelecionados);
    var c := AddItem(s.carrinho, p.nome, p.preco, s.extrasSelecionados, unit, s.quantidade, now);
    assert AdicionarAoCarrinho(s, extras, now)
        == s.(carrinho := c, pizzaToAdd := None, extrasSelecionados := [], quantidade := 1,
              messages := s.messages + [TextMessage(now, System, AdicionadaText(s.quantidade, p.nome))]);
    AddItemEffect(s.carrinho, p.nome, p.preco, s.extrasSelecionados, unit, s.quantidade, now);
  }

  /** Adding keeps the invariant (merge keys stay unique, new lines are priced from the menu). */
  lemma AddToCartKeepsInv(s: ChatState, menu: Menu, extras: ExtrasTable, now: int)
    requires Inv(s, menu, extras)
    ensures Inv(AdicionarAoCarrinho(s, extras, now), menu, extras)
  {
    if s.pizzaToAdd.Some? {
      var p := s.pizzaToAdd.value;
      var precoTotal := p.preco + ExtrasPrice(extras, s.extrasSelecionados);
      AddKeepsCartInvariant(s.carrinho, p.nome, p.preco, s.extrasSelecionados, precoTotal, s.quantidade, now, menu, extras);
      var t := s.(carrinho := AddItem(s.carrinho, p.nome, p.preco, s.extrasSelecionados, precoTotal, s.quantidade, now),
                  pizzaToAdd := None, extrasSelecionados := [], quantidade := 1);
      assert Inv(t, menu, extras);
      InvFrame(t, AdicionarAoCarrinho(s, extras, now), menu, extras);
    }
  }

  /** `handleRemoverDoCarrinho`. */
  function RemoverDoCarrinho(s: ChatState, id: int): ChatState {
    s.(carrinho := WithoutId(s.carrinho, id))
  }

  /** `handleAtualizarQuantidade`. */
  function AtualizarQuantidade(s: ChatState, id: int, n: int): ChatState {
    s.(carrinho := UpdateQuantity(s.carrinho, id, n))
  }

  /** A new quantity below 1 is the same as the remove button. */
  lemma UpdateBelowOneIsRemove(s: ChatState, id: int, n: int)
    requires n < 1
    ensures AtualizarQuantidade(s, id, n) == RemoverDoCarrinho(s, id)
  {
  }

  lemma CartEditsKeepInv(s: ChatState, menu: Menu, extras: ExtrasTable, id: int, n: int)
    requires Inv(s, menu, extras)
    ensures Inv(RemoverDoCarrinho(s, id), menu, extras)
    ensures Inv(AtualizarQuantidade(s, id, n), menu, extras)
  {
    UpdateKeepsCartInvariant(s.carrinho, id, 0, menu, extras);
    UpdateKeepsCartInvariant(s.carrinho, id, n, menu, extras);
  }

  // ---------------------------------------------------------------------------
  // Checkout
  // ---------------------------------------------------------------------------

  /** `carrinho.flatMap(item => Array(item.quantidade).fill(null).map(() => pedido))`. */
  function Submissions(c: Cart, clienteId: int, nome: string, telefone: string): seq<PedidoData> {
    if c == [] then []
    else
      var pedido := PedidoData(clienteId, nome, telefone, c[0].nome, c[0].extras);
      seq(c[0].quantidade, _ => pedido) + Submissions(c[1..], clienteId, nome, telefone)
  }

  /** One submission per unit: the fan-out issues exactly `totalItens` requests. */
  lemma {:induction false} SubmissionCount(c: Cart, clienteId: int, nome: string, telefone: string)
    ensures |Submissions(c, clienteId, nome, telefone)| == Units(c)
  {
    if c != [] {
      SubmissionCount(c[1..], clienteId, nome, telefone);
    }
  }

  /** Every submission is for the client and carries the pizza and extras of some cart line. */
  lemma {:induction false} SubmissionsComeFromLines(c: Cart, clienteId: int, nome: string, telefone: string)
    ensures forall p :: p in Submissions(c, clienteId, nome, telefone) ==>
      p.cliente_id == clienteId && p.nome_cliente == nome && p.telefone_cliente == telefone &&
      exists line :: line in c && p.pizza == line.nome && p.extras == line.extras
  {
    if c != [] {
      SubmissionsComeFromLines(c[1..], clienteId, nome, telefone);
      var pedido := PedidoData(clienteId, nome, telefone, c[0].nome, c[0].extras);
      assert c[0] in c;
      assert forall line :: line in c[1..] ==> line in c;
      var copies := seq(c[0].quantidade, _ => pedido);
      assert forall p :: p in copies ==> p == pedido;
    }
  }

  predicate AllFulfilled(os: seq<Settled>) {
    forall i :: 0 <= i < |os| ==> os[i].Fulfilled?
  }

  /** `erros[0]`: the first rejection's message, or 'Erro' when that message is empty. */
  function FirstError(os: seq<Settled>): string
    requires !AllFulfilled(os)
  {
    if os[0].Rejected? then (if os[0].message == "" then "Erro" else os[0].message)
    else
      assert !AllFulfilled(os[1..]) by {
        var i :| 0 <= i < |os| && !os[i].Fulfilled?;
        assert os[1..][i - 1] == os[i];
      }
      FirstError(os[1..])
  }

  /** One outcome per request, when the checkout gets as far as sending them. */
  predicate CheckoutReady(s: ChatState, os: seq<Settled>) {
    s.carrinho != [] && s.clienteInfo.id.Some? ==> |os| == Units(s.carrinho)
  }

  const ConfirmadoTitulo := "✅ **Pedido Confirmado!**\n\n"
  const ConfirmadoFim := "\n\nSeu pedido já está no nosso sistema!"
  const Processando := "Processando seu pedido... 🍕"
  const ErroAoSalvar := "⚠️ Erro ao salvar: "

  function ConfirmacaoText(itens: nat, total: nat): string {
    ConfirmadoTitulo + NatToString(itens) + " itens • Total: R$ " + Money(total) + ConfirmadoFim
  }

  /**
   * `handleFinalizarPedido`: the new state and the orders submitted; `os[k]`
   * is how the k-th submission settled. The progress message and the outcome
   * message are appended, `loading` is back to false, and the cart is cleared
   * (and hidden) only when every submission was fulfilled.
   */
  function FinalizarPedido(s: ChatState, now: int, os: seq<Settled>): (ChatState, seq<PedidoData>)
    requires CheckoutReady(s, os)
  {
    if s.carrinho == [] then (Say(s, now, Bot, "Seu carrinho está vazio."), [])
    else if s.clienteInfo.id.None? then (Say(s, now, Bot, "Erro: ID do cliente inválido."), [])
    else
      var c := s.clienteInfo;
      var ok := AllFulfilled(os);
      var desfecho := if ok then ConfirmacaoText(Units(s.carrinho), Total(s.carrinho)) else ErroAoSalvar + FirstError(os);
      (s.(messages := s.messages + [TextMessage(now, Bot, Processando), TextMessage(now + 1, Bot, desfecho)],
          carrinho := if ok then [] else s.carrinho,
          showCarrinho := if ok then false else s.showCarrinho,
          loading := false),
       Submissions(s.carrinho, c.id.value, c.nome, c.telefone))
  }

  /** An empty cart or a missing client id: one message, no request, nothing else changes. */
  lemma CheckoutRefusesEarly(s: ChatState, now: int, os: seq<Settled>)
    requires s.carrinho == [] || s.clienteInfo.id.None?
    ensures var (r, pedidos) := FinalizarPedido(s, now, os);
      pedidos == [] && |r.messages| == |s.messages| + 1 && r.messages[..|s.messages|] == s.messages &&
      r.(messages := s.messages) == s
  {
  }

  /**
   * A checkout that proceeds sends exactly Σ quantidade orders; the cart is
   * emptied exactly when every order succeeded, and is left as it was on any
   * failure. Two messages are appended either way.
   */
  lemma CheckoutFanOut(s: ChatState, now: int, os: seq<Settled>)
    requires s.carrinho != [] && s.clienteInfo.id.Some?
    requires |os| == Units(s.carrinho)
    ensures var (r, pedidos) := FinalizarPedido(s, now, os);
      |pedidos| == Units(s.carrinho) &&
      (r.carrinho == [] <==> AllFulfilled(os)) &&
      (!AllFulfilled(os) ==> r.carrinho == s.carrinho) &&
      |r.messages| == |s.messages| + 2 && r.messages[..|s.messages|] == s.messages &&
      !r.loading
  {
    var c := s.clienteInfo;
    SubmissionCount(s.carrinho, c.id.value, c.nome, c.telefone);
  }

  /** Checkout touches neither the add dialog nor the cart, except that it may empty the cart. */
  lemma CheckoutFrame(s: ChatState, now: int, os: seq<Settled>)
    requires CheckoutReady(s, os)
    ensures var r := FinalizarPedido(s, now, os).0;
      r.pizzaToAdd == s.pizzaToAdd && r.extrasSelecionados == s.extrasSelecionados && r.quantidade == s.quantidade &&
      (r.carrinho == s.carrinho || r.carrinho == [])
  {
  }

  /** Checkout keeps the invariant. */
  lemma CheckoutKeepsInv(s: ChatState, menu: Menu, extras: ExtrasTable, now: int, os: seq<Settled>)
    requires Inv(s, menu, extras) && CheckoutReady(s, os)
    ensures Inv(FinalizarPedido(s, now, os).0, menu, extras)
  {
    var r := FinalizarPedido(s, now, os).0;
    CheckoutFrame(s, now, os);
    if r.carrinho == [] {
      InvFrame(s.(carrinho := []), r, menu, extras);
    } else {
      InvFrame(s, r, menu, extras);
    }
  }

  // ---------------------------------------------------------------------------
  // Structured actions
  // ---------------------------------------------------------------------------

  /** The menu cards, one per menu pizza in menu order, each with an "add" button. */
  function MenuCards(menu: Menu, now: int): (r: seq<Message>)
    ensures |r| == |menu|
  {
    seq(|menu|, i requires 0 <= i < |menu| =>
      Message(now + i + 100, CardapioCard, None,
              Some(PizzaCard(menu[i].nome, menu[i].ingredientes, menu[i].preco)),
              [ActionOption("Adicionar", "adicionar_" + menu[i].nome)]))
  }

  function MenuReply(menu: Menu, now: int): seq<Message> {
    [TextMessage(now + 1, Bot, "Aqui está nosso cardápio completo...")] + MenuCards(menu, now)
  }

  function RecommendReply(rec: Recomendacao, now: int): seq<Message> {
    match rec
    case Recomendada(pizza, motivo, ingredientes) => [
      TextMessage(now + 1, Bot, "🎯 **Recomendação Especial!**\n\n**" + pizza + "**\n" + motivo +
                                "\n\nIngredientes: " + JoinWith(ingredientes, ", ")),
      ActionMessage(now + 2, [ActionOption("Adicionar Recomendação", "adicionar_" + pizza),
                              ActionOption("Ver Cardápio", "ver_cardapio")])]
    case ErroNegocio(detalhe) => [TextMessage(now + 1, Bot, "Erro: " + detalhe)]
    case FalhaConexao => [TextMessage(now + 1, Bot, "Erro ao conectar com o sistema.")]
  }

  /** `clienteInfo.id || 1`: the client id the recommendation call is made for. */
  function RecommendationClientId(c: ClienteInfo): int {
    if c.id.Some? && c.id.value != 0 then c.id.value else 1
  }

  /**
   * `||` treats the id 0 as missing: a client registered with id 0 (a clock
   * reading that is a multiple of 10000) is recommended for as client 1.
   */
  lemma ZeroIdIsRecommendedAsClientOne(c: ClienteInfo)
    requires c.id == Some(0)
    ensures RecommendationClientId(c) == 1
  {
  }

  const Adicionar := "adicionar_"

  const AjudaText := "**Como posso ajudar?**\n\n• **Ver Cardápio**\n• **Recomendação**\n• **Carrinho**\n• **Digite**"

  /** The echo of a pressed button: the action code with underscores shown as spaces. */
  function Echo(s: ChatState, action: string, now: int): ChatState {
    Say(s.(loading := true), now, User, ReplaceAll(action, '_', ' '))
  }

  /** The action codes `handleOptionClick` tells apart, in the order it tests them. */
  datatype ActionCode =
    | VerCardapio | Recomendar | AdicionarPizza(nome: string) | AbrirCarrinho
    | Finalizar | LimparCarrinho | ContinuarComprando | Ajuda | Desconhecida

  lemma LiteralsAreNotAdditions()
    ensures !(Adicionar <= "ver_cardapio") && !(Adicionar <= "recomendar") && !(Adicionar <= "finalizar_pedido")
  {
    assert "ver_cardapio"[0] != Adicionar[0];
    assert "recomendar"[0] != Adicionar[0];
    assert "finalizar_pedido"[0] != Adicionar[0];
  }

  function ParseAction(action: string): (r: ActionCode)
    ensures r.Finalizar? <==> action == "finalizar_pedido"
    ensures r.AdicionarPizza? <==> Adicionar <= action
    ensures r.AdicionarPizza? ==> action == Adicionar + r.nome
  {
    LiteralsAreNotAdditions();
    if action == "ver_cardapio" then VerCardapio
    else if action == "recomendar" then Recomendar
    else if Adicionar <= action then AdicionarPizza(action[|Adicionar|..])
    else if action == "ver_carrinho" then AbrirCarrinho
    else if action == "finalizar_pedido" then Finalizar
    else if action == "limpar_carrinho" then LimparCarrinho
    else if action == "continuar_comprando" then ContinuarComprando
    else if action == "ajuda" then Ajuda
    else Desconhecida
  }

  /** The branch of `handleOptionClick` chosen by the action code, applied after the echo. */
  function Dispatch(s: ChatState, menu: Menu, code: ActionCode, now: int, rec: Recomendacao, os: seq<Settled>): (ChatState, Requests)
    requires code.Finalizar? ==> CheckoutReady(s, os)
  {
    match code
    case VerCardapio => (Append(s, MenuReply(menu, now)), NoRequests)
    case Recomendar => (Append(s, RecommendReply(rec, now)), Requests([], Some(RecommendationClientId(s.clienteInfo))))
    case AdicionarPizza(nome) => (SelectPizza(s, menu, nome), NoRequests)
    case AbrirCarrinho => (s.(showCarrinho := true), NoRequests)
    case Finalizar =>
      var f := FinalizarPedido(s, now, os);
      (f.0, Requests(f.1, None))
    case LimparCarrinho => (Say(s.(carrinho := [], showCarrinho := false), now + 1, Bot, "Carrinho limpo!"), NoRequests)
    case ContinuarComprando => (s.(showCarrinho := false), NoRequests)
    case Ajuda => (Say(s, now + 1, Bot, AjudaText), NoRequests)
    case Desconhecida => (s, NoRequests)
  }

  /** `handleOptionClick(action)`: the new state and the requests sent. */
  function OptionClick(s: ChatState, menu: Menu, action: string, now: int, rec: Recomendacao, os: seq<Settled>): (ChatState, Requests)
    requires action == "finalizar_pedido" ==> CheckoutReady(s, os)
  {
    var r := Dispatch(Echo(s, action, now), menu, ParseAction(action), now, rec, os);
    (r.0.(loading := false), r.1)
  }

  /**
   * The menu lists the pizzas in menu order, and pressing a card's button
   * opens the add dialog for exactly that pizza at its menu price, leaving
   * the cart alone.
   */
  lemma MenuCardsOpenTheirPizza(s: ChatState, menu: Menu, now: int, i: nat, rec: Recomendacao, os: seq<Settled>)
    requires UniqueNames(menu) && i < |menu|
    requires CheckoutReady(s, os)
    ensures MenuCards(menu, now)[i].pizza == Some(PizzaCard(menu[i].nome, menu[i].ingredientes, menu[i].preco))
    ensures var action := MenuCards(menu, now)[i].options[0].action;
      var r := OptionClick(s, menu, action, now, rec, os).0;
      r.pizzaToAdd == Some(PendingPizza(menu[i].nome, menu[i].preco)) &&
      r.extrasSelecionados == [] && r.quantidade == 1 && r.carrinho == s.carrinho
  {
    var action := Adicionar + menu[i].nome;
    assert MenuCards(menu, now)[i].options[0].action == action;
    assert ParseAction(action) == AdicionarPizza(menu[i].nome) by {
      assert action[..|Adicionar|] == Adicionar;
    }
    LookupFindsEntry(menu, i);
  }

  /** Inv reads only the cart and the add dialog. */
  lemma InvFrame(s: ChatState, t: ChatState, menu: Menu, extras: ExtrasTable)
    requires Inv(s, menu, extras)
    requires t.carrinho == s.carrinho && t.pizzaToAdd == s.pizzaToAdd
    requires t.extrasSelecionados == s.extrasSelecionados && t.quantidade == s.quantidade
    ensures Inv(t, menu, extras)
  {
  }

  lemma DispatchKeepsInv(s: ChatState, menu: Menu, extras: ExtrasTable, code: ActionCode, now: int, rec: Recomendacao, os: seq<Settled>)
    requires Inv(s, menu, extras)
    requires code.Finalizar? ==> CheckoutReady(s, os)
    ensures Inv(Dispatch(s, menu, code, now, rec, os).0, menu, extras)
  {
    var r := Dispatch(s, menu, code, now, rec, os).0;
    match code
    case AdicionarPizza(nome) => DialogKeepsInv(s, menu, extras, nome, "");
    case Finalizar => CheckoutKeepsInv(s, menu, extras, now, os);
    case LimparCarrinho =>
    case _ => InvFrame(s, r, menu, extras);
  }

  /** Every structured action keeps the invariant. */
  lemma OptionClickKeepsInv(s: ChatState, menu: Menu, extras: ExtrasTable, action: string, now: int, rec: Recomendacao, os: seq<Settled>)
    requires Inv(s, menu, extras)
    requires action == "finalizar_pedido" ==> CheckoutReady(s, os)
    ensures Inv(OptionClick(s, menu, action, now, rec, os).0, menu, extras)
  {
    var s1 := Echo(s, action, now);
    InvFrame(s, s1, menu, extras);
    DispatchKeepsInv(s1, menu, extras, ParseAction(action), now, rec, os);
    var r := Dispatch(s1, menu, ParseAction(action), now, rec, os).0;
    InvFrame(r, r.(loading := false), menu, extras);
  }

  predicate Extends(r: ChatState, s: ChatState) {
    |r.messages| >= |s.messages| && r.messages[..|s.messages|] == s.messages
  }

  lemma AppendExtends(s: ChatState, ms: seq<Message>)
    ensures Extends(Append(s, ms), s)
  {
  }

  lemma CheckoutExtends(s: ChatState, now: int, os: seq<Settled>)
    requires CheckoutReady(s, os)
    ensures Extends(FinalizarPedido(s, now, os).0, s)
  {
    if s.carrinho != [] && s.clienteInfo.id.Some? {
      CheckoutFanOut(s, now, os);
    }
  }

  /** Every branch only appends messages. */
  lemma DispatchAppends(s: ChatState, menu: Menu, code: ActionCode, now: int, rec: Recomendacao, os: seq<Settled>)
    requires code.Finalizar? ==> CheckoutReady(s, os)
    ensures Extends(Dispatch(s, menu, code, now, rec, os).0, s)
  {
    match code
    case VerCardapio => AppendExtends(s, MenuReply(menu, now));
    case Recomendar => AppendExtends(s, RecommendReply(rec, now));
    case Finalizar => CheckoutExtends(s, now, os);
    case LimparCarrinho => AppendExtends(s.(carrinho := [], showCarrinho := false), [TextMessage(now + 1, Bot, "Carrinho limpo!")]);
    case Ajuda => AppendExtends(s, [TextMessage(now + 1, Bot, AjudaText)]);
    case _ => AppendExtends(s, []);
  }

  /**
   * Structured actions only ever append to the chat, the first appended
   * message being the echo of the action, and end with `loading` off.
   */
  lemma OptionClickAppendsOnly(s: ChatState, menu: Menu, action: string, now: int, rec: Recomendacao, os: seq<Settled>)
    requires action == "finalizar_pedido" ==> CheckoutReady(s, os)
    ensures var r := OptionClick(s, menu, action, now, rec, os).0;
      |r.messages| > |s.messages| && r.messages[..|s.messages|] == s.messages &&
      r.messages[|s.messages|] == TextMessage(now, User, ReplaceAll(action, '_', ' ')) &&
      !r.loading
  {
    var s1 := Echo(s, action, now);
    DispatchAppends(s1, menu, ParseAction(action), now, rec, os);
    var r := Dispatch(s1, menu, ParseAction(action), now, rec, os).0;
    assert Extends(r, s1);
    assert r.messages[..|s1.messages|][..|s.messages|] == r.messages[..|s.messages|];
    assert r.messages[|s.messages|] == r.messages[..|s1.messages|][|s.messages|];
  }

  // ---------------------------------------------------------------------------
  // Free text
  // ---------------------------------------------------------------------------

  /** The intents the free-text handler recognises, and the fallback. */
  datatype Intent = Saudacao | PedirCardapio | PedirRecomendacao | VerCarrinho | Agradecimento | PerguntaPreco | NaoEntendido

  /** The keyword groups, in the order they are tried. */
  const Grupos: seq<(Intent, seq<string>)> := [
    (Saudacao, ["olá", "oi", "ola", "bom dia", "boa tarde", "boa noite"]),
    (PedirCardapio, ["cardápio", "cardapio", "menu", "opções", "o que tem", "pizzas"]),
    (PedirRecomendacao, ["recomendar", "sugerir", "sugira", "qual pizza", "não sei", "indica"]),
    (VerCarrinho, ["carrinho", "pedido", "meu pedido", "itens"]),
    (Agradecimento, ["obrigado", "obrigada", "valeu"]),
    (PerguntaPreco, ["preço", "preco", "quanto custa", "valor"])
  ]

  predicate MatchesAny(t: string, keywords: seq<string>) {
    exists i :: 0 <= i < |keywords| && Contains(t, keywords[i])
  }

  /** The position of the first group with a keyword in `t`, or `|gs|` when none has one. */
  function FirstMatch(t: string, gs: seq<(Intent, seq<string>)>): (k: nat)
    ensures k <= |gs|
    ensures k < |gs| ==> MatchesAny(t, gs[k].1)
    ensures forall j :: 0 <= j < k ==> !MatchesAny(t, gs[j].1)
  {
    if gs == [] then 0
    else if MatchesAny(t, gs[0].1) then 0
    else
      var k := FirstMatch(t, gs[1..]);
      assert forall j :: 1 <= j < 1 + k ==> gs[j] == gs[1..][j - 1];
      1 + k
  }

  /** The intent of a message: that of the first group with a keyword in the lower-cased text. */
  function Classify(text: string): Intent {
    var k := FirstMatch(Lower(text), Grupos);
    if k < |Grupos| then Grupos[k].0 else NaoEntendido
  }

  /**
   * Group `k` wins exactly when one of its keywords occurs in the lower-cased
   * text and no keyword of an earlier group does; the fallback is chosen
   * exactly when no keyword of any group occurs.
   */
  lemma ClassifyIsFirstMatch(text: string, k: nat)
    requires k < |Grupos|
    ensures Classify(text) == Grupos[k].0 <==>
      MatchesAny(Lower(text), Grupos[k].1) && forall j :: 0 <= j < k ==> !MatchesAny(Lower(text), Grupos[j].1)
    ensures Classify(text) == NaoEntendido <==> forall j :: 0 <= j < |Grupos| ==> !MatchesAny(Lower(text), Grupos[j].1)
  {
  }

  /** A greeting wins over a menu request in the same message. */
  lemma GreetingComesFirst()
    ensures Classify("Oi, quero ver o cardápio") == Saudacao
  {
    var t := Lower("Oi, quero ver o cardápio");
    assert t[..2] == "oi";
    assert Contains(t, Grupos[0].1[1]);
  }

  /** The keyword test is a substring test: "cebola" contains "ola", so it reads as a greeting. */
  lemma CebolaReadsAsGreeting()
    ensures Classify("pizza de cebola") == Saudacao
  {
    var t := Lower("pizza de cebola");
    assert t[12..] == "ola";
    ContainsIffOccurs(t, "ola");
    assert Contains(t, Grupos[0].1[2]);
  }

  function OpcoesSaudacao(itens: nat): (r: seq<ActionOption>)
    ensures |r| == 3
  {
    [ActionOption("📋 Cardápio", "ver_cardapio"),
     ActionOption("🎯 Recomendação", "recomendar"),
     ActionOption("🛒 Carrinho (" + NatToString(itens) + ")", "ver_carrinho")]
  }

  function OpcoesAjuda(itens: nat): (r: seq<ActionOption>)
    ensures |r| == 4
  {
    [ActionOption("📋 Ver Cardápio", "ver_cardapio"),
     ActionOption("🎯 Recomendação", "recomendar"),
     ActionOption("🛒 Carrinho (" + NatToString(itens) + ")", "ver_carrinho"),
     ActionOption("❓ Ajuda", "ajuda")]
  }

  const CompleteCadastro := "Por favor, complete seu cadastro primeiro! 😊"

  /** The intents that `respostas` answers with messages of its own rather than by pressing a button. */
  predicate AnsweredInText(intent: Intent) {
    !(intent.PedirCardapio? || intent.PedirRecomendacao? || intent.VerCarrinho?)
  }

  /** The messages `respostas` holds for an intent answered in text, for a client called `nome` with `itens` units in the cart. */
  function TextReply(nome: string, itens: nat, intent: Intent, now: int): seq<Message>
    requires AnsweredInText(intent)
  {
    match intent
    case Saudacao => [TextMessage(now + 1, Bot, "Olá " + nome + "! 😊 Como posso te ajudar?"),
                      ActionMessage(now + 2, OpcoesSaudacao(itens))]
    case Agradecimento => [TextMessage(now + 1, Bot, "De nada, " + nome + "! 😊")]
    case PerguntaPreco => [TextMessage(now + 1, Bot, "Temos pizzas a partir de R$ 25,00!")]
    case NaoEntendido => [TextMessage(now + 1, Bot, NaoEntendi), ActionMessage(now + 2, OpcoesAjuda(itens))]
  }

  const NaoEntendi := "Desculpe, não entendi. Aqui estão as opções:"

  /** The reply to an accepted message of a registered client, by intent, after the echo. */
  function Answer(s: ChatState, menu: Menu, intent: Intent, now: int, rec: Recomendacao): (ChatState, Requests) {
    match intent
    case PedirCardapio => OptionClick(s, menu, "ver_cardapio", now, rec, [])
    case PedirRecomendacao => OptionClick(s, menu, "recomendar", now, rec, [])
    case VerCarrinho => OptionClick(s, menu, "ver_carrinho", now, rec, [])
    case _ => (Append(s, TextReply(s.clienteInfo.nome, Units(s.carrinho), intent, now)), NoRequests)
  }

  /** `handleSendMessage` with the current `inputText`: the new state and the requests sent. */
  function SendMessage(s: ChatState, menu: Menu, now: int, rec: Recomendacao): (ChatState, Requests) {
    if Trim(s.inputText) == "" || s.loading then (s, NoRequests)
    else Accept(s, menu, now, rec)
  }

  /** What `handleSendMessage` does with a message it accepts: echo it, then gate on registration. */
  function Accept(s: ChatState, menu: Menu, now: int, rec: Recomendacao): (ChatState, Requests) {
    var s1 := Say(s, now, User, s.inputText).(inputText := "", loading := true);
    var r :=
      if s.showClienteForm then (Say(s1, now + 1, Bot, CompleteCadastro), NoRequests)
      else Answer(s1, menu, Classify(s.inputText), now, rec);
    (r.0.(loading := false), r.1)
  }

  /** Blank input, or input while a request is pending, changes nothing and sends nothing. */
  lemma BlankOrBusyInputIgnored(s: ChatState, menu: Menu, now: int, rec: Recomendacao)
    requires AllSpace(s.inputText) || s.loading
    ensures SendMessage(s, menu, now, rec) == (s, NoRequests)
  {
    BlankIffAllSpace(s.inputText);
  }

  /**
   * Before registration every accepted message gets the same answer: the
   * user's text and the "complete your registration" prompt are appended,
   * the input is cleared, and nothing else changes (no action buttons).
   */
  lemma UnregisteredGetsPrompt(s: ChatState, menu: Menu, now: int, rec: Recomendacao)
    requires Trim(s.inputText) != "" && !s.loading && s.showClienteForm
    ensures var (r, reqs) := SendMessage(s, menu, now, rec);
      reqs == NoRequests &&
      r.messages == s.messages + [TextMessage(now, User, s.inputText), TextMessage(now + 1, Bot, CompleteCadastro)] &&
      r == s.(messages := r.messages, inputText := "")
  {
    UnregisteredAccept(s, menu, now, rec);
  }

  lemma UnregisteredAccept(s: ChatState, menu: Menu, now: int, rec: Recomendacao)
    requires s.showClienteForm && !s.loading
    ensures Accept(s, menu, now, rec) ==
      (s.(messages := s.messages + [TextMessage(now, User, s.inputText), TextMessage(now + 1, Bot, CompleteCadastro)],
          inputText := ""), NoRequests)
  {
    var s1 := Say(s, now, User, s.inputText).(inputText := "", loading := true);
    var s2 := Say(s1, now + 1, Bot, CompleteCadastro);
    assert Accept(s, menu, now, rec) == (s2.(loading := false), NoRequests);
    assert s2.messages == s.messages + [TextMessage(now, User, s.inputText), TextMessage(now + 1, Bot, CompleteCadastro)];
  }

  /**
   * Text that matches no keyword group gets the fallback answer: after the
   * echoed text, a bot message and an action message with the four options
   * of OpcoesAjuda; the input is cleared, nothing is sent and nothing else
   * changes.
   */
  lemma FallbackOffersFourOptions(s: ChatState, menu: Menu, now: int, rec: Recomendacao)
    requires Trim(s.inputText) != "" && !s.loading && !s.showClienteForm
    requires Classify(s.inputText) == NaoEntendido
    ensures SendMessage(s, menu, now, rec) ==
      (s.(messages := s.messages + [TextMessage(now, User, s.inputText)] +
                      [TextMessage(now + 1, Bot, NaoEntendi), ActionMessage(now + 2, OpcoesAjuda(Units(s.carrinho)))],
          inputText := ""), NoRequests)
  {
    SendMessageInText(s, menu, now, rec, NaoEntendido);
    FallbackReply(s.clienteInfo.nome, Units(s.carrinho), now);
  }

  lemma FallbackReply(nome: string, itens: nat, now: int)
    ensures TextReply(nome, itens, NaoEntendido, now) ==
      [TextMessage(now + 1, Bot, NaoEntendi), ActionMessage(now + 2, OpcoesAjuda(itens))]
  {
  }

  /** A registered client's message whose intent is answered in text: the echo, then the reply, and nothing sent. */
  lemma SendMessageInText(s: ChatState, menu: Menu, now: int, rec: Recomendacao, intent: Intent)
    requires Trim(s.inputText) != "" && !s.loading && !s.showClienteForm
    requires Classify(s.inputText) == intent && AnsweredInText(intent)
    ensures SendMessage(s, menu, now, rec) ==
      (s.(messages := s.messages + [TextMessage(now, User, s.inputText)] + TextReply(s.clienteInfo.nome, Units(s.carrinho), intent, now),
          inputText := ""), NoRequests)
  {
    var s1 := Say(s, now, User, s.inputText).(inputText := "", loading := true);
    AcceptRegistered(s, menu, now, rec);
    AnswerInText(s1, menu, intent, now, rec);
  }

  /** A registered client's accepted message is echoed, then answered by intent. */
  lemma AcceptRegistered(s: ChatState, menu: Menu, now: int, rec: Recomendacao)
    requires !s.showClienteForm
    ensures var s1 := Say(s, now, User, s.inputText).(inputText := "", loading := true);
      var a := Answer(s1, menu, Classify(s.inputText), now, rec);
      Accept(s, menu, now, rec) == (a.0.(loading := false), a.1)
  {
  }

  /** An intent answered in text appends its reply and sends nothing. */
  lemma AnswerInText(s: ChatState, menu: Menu, intent: Intent, now: int, rec: Recomendacao)
    requires AnsweredInText(intent)
    ensures Answer(s, menu, intent, now, rec) == (Append(s, TextReply(s.clienteInfo.nome, Units(s.carrinho), intent, now)), NoRequests)
  {
  }

  lemma AnswerKeepsInv(s: ChatState, menu: Menu, extras: ExtrasTable, intent: Intent, now: int, rec: Recomendacao)
    requires Inv(s, menu, extras)
    ensures Inv(Answer(s, menu, intent, now, rec).0, menu, extras)
  {
    match intent
    case PedirCardapio => OptionClickKeepsInv(s, menu, extras, "ver_cardapio", now, rec, []);
    case PedirRecomendacao => OptionClickKeepsInv(s, menu, extras, "recomendar", now, rec, []);
    case VerCarrinho => OptionClickKeepsInv(s, menu, extras, "ver_carrinho", now, rec, []);
    case _ => InvFrame(s, Append(s, TextReply(s.clienteInfo.nome, Units(s.carrinho), intent, now)), menu, extras);
  }

  /** Free text keeps the invariant. */
  lemma SendMessageKeepsInv(s: ChatState, menu: Menu, extras: ExtrasTable, now: int, rec: Recomendacao)
    requires Inv(s, menu, extras)
    ensures Inv(SendMessage(s, menu, now, rec).0, menu, extras)
  {
    if !(Trim(s.inputText) == "" || s.loading) {
      var s1 := Say(s, now, User, s.inputText).(inputText := "", loading := true);
      InvFrame(s, s1, menu, extras);
      var r :=
        if s.showClienteForm then (Say(s1, now + 1, Bot, CompleteCadastro), NoRequests)
        else Answer(s1, menu, Classify(s.inputText), now, rec);
      if !s.showClienteForm {
        AnswerKeepsInv(s1, menu, extras, Classify(s.inputText), now, rec);
      }
      InvFrame(r.0, r.0.(loading := false), menu, extras);
    }
  }
}
