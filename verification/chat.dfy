/**
 * The chat widget as a stateful component: one field per `useState` cell,
 * one method per event handler. Every handler is proved to leave the
 * component in the state that the corresponding function of ChatSpec
 * computes from the state before, and to keep the invariant `Valid()`.
 */
module Chat {
  import opened Wrappers
  import opened Text
  import opened Catalog
  import opened Cart
  import opened ChatSpec

  class PizzaRecommender {
    /** The menu (`CARDAPIO`) and the extras table (`EXTRAS`) the widget was built with. */
    const cardapio: Menu
    const extrasTabela: ExtrasTable

    var clienteInfo: ClienteInfo
    var showClienteForm: bool
    var messages: seq<Message>
    var inputText: string
    var loading: bool
    var carrinho: Cart
    var showCarrinho: bool
    var pizzaToAdd: Option<PendingPizza>
    var extrasSelecionados: seq<string>
    var quantidade: nat

    /** The component state as a value. */
    function Snapshot(): ChatState
      reads this
    {
      ChatState(clienteInfo, showClienteForm, messages, inputText, loading, carrinho, showCarrinho,
                pizzaToAdd, extrasSelecionados, quantidade)
    }

    predicate Valid()
      reads this
    {
      Inv(Snapshot(), cardapio, extrasTabela)
    }

    /** Mounting: the welcome message and the registration form. */
    constructor(cardapio: Menu, extrasTabela: ExtrasTable)
      ensures this.cardapio == cardapio && this.extrasTabela == extrasTabela
      ensures Snapshot() == Initial()
      ensures Valid()
    {
      this.cardapio := cardapio;
      this.extrasTabela := extrasTabela;
      clienteInfo := ClienteInfo(None, "", "", "");
      showClienteForm := true;
      messages := [TextMessage(1, Bot, BoasVindas)];
      inputText := "";
      loading := false;
      carrinho := [];
      showCarrinho := false;
      pizzaToAdd := None;
      extrasSelecionados := [];
      quantidade := 1;
      new;
      InitialSatisfiesInv(cardapio, extrasTabela);
    }

    /** `addMessage`: appends one message and changes nothing else. */
    method AddMessage(m: Message)
      modifies this
      ensures Snapshot() == Append(old(Snapshot()), [m])
    {
      messages := messages + [m];
    }

    /** `addMessage` for each message in turn. */
    method AddMessages(ms: seq<Message>)
      modifies this
      ensures Snapshot() == Append(old(Snapshot()), ms)
    {
      for i := 0 to |ms|
        invariant Snapshot() == Append(old(Snapshot()), ms[..i])
      {
        AddMessage(ms[i]);
        assert old(messages) + ms[..i] + [ms[i]] == old(messages) + ms[..i + 1];
      }
      assert ms[..|ms|] == ms;
    }

    /** The registration inputs' `onChange` handlers. */
    method EditarCadastro(nome: string, telefone: string, endereco: string)
      requires Valid()
      modifies this
      ensures Valid()
      ensures Snapshot() == ChatSpec.EditarCadastro(old(Snapshot()), nome, telefone, endereco)
    {
      clienteInfo := clienteInfo.(nome := nome, telefone := telefone, endereco := endereco);
      InvFrame(old(Snapshot()), Snapshot(), cardapio, extrasTabela);
    }

    /** The message input's `onChange` handler. */
    method SetInputText(texto: string)
      requires Valid()
      modifies this
      ensures Valid()
      ensures Snapshot() == old(Snapshot()).(inputText := texto)
    {
      inputText := texto;
      InvFrame(old(Snapshot()), Snapshot(), cardapio, extrasTabela);
    }

    /** `handleClienteSubmit` at clock reading `now`. */
    method HandleClienteSubmit(now: nat)
      requires Valid()
      modifies this
      ensures Valid()
      ensures Snapshot() == ClienteSubmit(old(Snapshot()), now)
    {
      if clienteInfo.nome != "" && clienteInfo.telefone != "" && clienteInfo.endereco != "" {
        var nome := clienteInfo.nome;
        clienteInfo := clienteInfo.(id := Some(now % 10000));
        showClienteForm := false;
        AddMessage(TextMessage(now, Bot, "✅ **Cadastro Concluído!**\n\nObrigado, " + nome + "! Agora, como posso te ajudar? 😊"));
        AddMessage(ActionMessage(now + 1, OpcoesIniciais));
        InvFrame(old(Snapshot()), Snapshot(), cardapio, extrasTabela);
      }
    }

    /** A checkbox of the add dialog. */
    method ToggleExtra(extra: string)
      requires Valid()
      modifies this
      ensures Valid()
      ensures Snapshot() == ChatSpec.ToggleExtra(old(Snapshot()), extra)
    {
      if extra in extrasSelecionados {
        extrasSelecionados := Unticked(extrasSelecionados, extra);
      } else {
        extrasSelecionados := extrasSelecionados + [extra];
      }
      DialogKeepsInv(old(Snapshot()), cardapio, extrasTabela, "", extra);
    }

    /** The stepper's "+" button. */
    method IncrementQuantidade()
      requires Valid()
      modifies this
      ensures Valid()
      ensures Snapshot() == ChatSpec.IncrementQuantidade(old(Snapshot()))
    {
      quantidade := quantidade + 1;
    }

    /** The stepper's "-" button. */
    method DecrementQuantidade()
      requires Valid()
      modifies this
      ensures Valid()
      ensures Snapshot() == ChatSpec.DecrementQuantidade(old(Snapshot()))
    {
      quantidade := if quantidade - 1 > 1 then quantidade - 1 else 1;
    }

    /** The dialog's "Cancelar" button. */
    method CancelarAdicao()
      requires Valid()
      modifies this
      ensures Valid()
      ensures Snapshot() == ChatSpec.CancelarAdicao(old(Snapshot()))
    {
      pizzaToAdd := None;
    }

    /** The cart panel's open and close buttons. */
    method SetShowCarrinho(mostrar: bool)
      requires Valid()
      modifies this
      ensures Valid()
      ensures Snapshot() == old(Snapshot()).(showCarrinho := mostrar)
    {
      showCarrinho := mostrar;
      InvFrame(old(Snapshot()), Snapshot(), cardapio, extrasTabela);
    }

    /** `handleAdicionarAoCarrinho` at clock reading `now`. */
    method HandleAdicionarAoCarrinho(now: int)
      requires Valid()
      modifies this
      ensures Valid()
      ensures Snapshot() == AdicionarAoCarrinho(old(Snapshot()), extrasTabela, now)
    {
      if pizzaToAdd.None? {
        return;
      }
      ghost var s0 := Snapshot();
      var pizza := pizzaToAdd.value;
      var precoTotal := pizza.preco + ExtrasPrice(extrasTabela, extrasSelecionados);
      var k := FindLine(carrinho, pizza.nome, extrasSelecionados);
      if k > -1 {
        carrinho := carrinho[k := carrinho[k].(quantidade := carrinho[k].quantidade + quantidade)];
      } else {
        carrinho := carrinho + [CartItem(now, pizza.nome, pizza.preco, extrasSelecionados, precoTotal, quantidade)];
      }
      assert carrinho == AddItem(s0.carrinho, pizza.nome, pizza.preco, s0.extrasSelecionados, precoTotal, s0.quantidade, now);
      var q := quantidade;
      pizzaToAdd := None;
      extrasSelecionados := [];
      quantidade := 1;
      AddMessage(TextMessage(now, System, AdicionadaText(q, pizza.nome)));
      assert Snapshot() == AdicionarAoCarrinho(s0, extrasTabela, now);
      AddToCartKeepsInv(s0, cardapio, extrasTabela, now);
    }

    /** `handleRemoverDoCarrinho`. */
    method HandleRemoverDoCarrinho(id: int)
      requires Valid()
      modifies this
      ensures Valid()
      ensures Snapshot() == RemoverDoCarrinho(old(Snapshot()), id)
    {
      carrinho := WithoutId(carrinho, id);
      CartEditsKeepInv(old(Snapshot()), cardapio, extrasTabela, id, 0);
    }

    /** `handleAtualizarQuantidade`: below 1 the line is removed. */
    method HandleAtualizarQuantidade(id: int, novaQuantidade: int)
      requires Valid()
      modifies this
      ensures Valid()
      ensures Snapshot() == AtualizarQuantidade(old(Snapshot()), id, novaQuantidade)
    {
      if novaQuantidade < 1 {
        HandleRemoverDoCarrinho(id);
        return;
      }
      carrinho := SetQuantity(carrinho, id, novaQuantidade);
      CartEditsKeepInv(old(Snapshot()), cardapio, extrasTabela, id, novaQuantidade);
    }

    /**
     * `handleFinalizarPedido` at clock reading `now`; `os[k]` is how the k-th
     * submitted order settled. Returns the orders submitted.
     */
    method HandleFinalizarPedido(now: int, os: seq<Settled>) returns (pedidos: seq<PedidoData>)
      requires Valid() && CheckoutReady(Snapshot(), os)
      modifies this
      ensures Valid()
      ensures (Snapshot(), pedidos) == FinalizarPedido(old(Snapshot()), now, os)
    {
      if carrinho == [] {
        AddMessage(TextMessage(now, Bot, "Seu carrinho está vazio."));
        return [];
      }
      if clienteInfo.id.None? {
        AddMessage(TextMessage(now, Bot, "Erro: ID do cliente inválido."));
        return [];
      }
      loading := true;
      AddMessage(TextMessage(now, Bot, Processando));
      pedidos := Submissions(carrinho, clienteInfo.id.value, clienteInfo.nome, clienteInfo.telefone);
      var desfecho := if AllFulfilled(os) then ConfirmacaoText(Units(carrinho), Total(carrinho)) else ErroAoSalvar + FirstError(os);
      AddMessage(TextMessage(now + 1, Bot, desfecho));
      if AllFulfilled(os) {
        carrinho := [];
        showCarrinho := false;
      }
      loading := false;
      assert messages == old(messages) + [TextMessage(now, Bot, Processando), TextMessage(now + 1, Bot, desfecho)];
      CheckoutKeepsInv(old(Snapshot()), cardapio, extrasTabela, now, os);
    }

    /** The `ver_cardapio` branch: an introduction, then one card per menu pizza. */
    method MostrarCardapio(now: int)
      modifies this
      ensures Snapshot() == Append(old(Snapshot()), MenuReply(cardapio, now))
    {
      AddMessage(TextMessage(now + 1, Bot, "Aqui está nosso cardápio completo..."));
      messages := messages + MenuCards(cardapio, now);
    }

    /** The `recomendar` branch, given what the recommendation call produced. */
    method MostrarRecomendacao(now: int, rec: Recomendacao)
      modifies this
      ensures Snapshot() == Append(old(Snapshot()), RecommendReply(rec, now))
    {
      match rec {
      case Recomendada(pizza, motivo, ingredientes) =>
        AddMessage(TextMessage(now + 1, Bot, "🎯 **Recomendação Especial!**\n\n**" + pizza + "**\n" + motivo +
                                             "\n\nIngredientes: " + JoinWith(ingredientes, ", ")));
        AddMessage(ActionMessage(now + 2, [ActionOption("Adicionar Recomendação", "adicionar_" + pizza),
                                           ActionOption("Ver Cardápio", "ver_cardapio")]));
      case ErroNegocio(detalhe) =>
        AddMessage(TextMessage(now + 1, Bot, "Erro: " + detalhe));
      case FalhaConexao =>
        AddMessage(TextMessage(now + 1, Bot, "Erro ao conectar com o sistema."));
      }
    }

    /** The branch of `handleOptionClick` that an action code selects. Returns the requests sent. */
    method Executar(code: ActionCode, now: int, rec: Recomendacao, os: seq<Settled>) returns (reqs: Requests)
      requires Valid()
      requires code.Finalizar? ==> CheckoutReady(Snapshot(), os)
      modifies this
      ensures (Snapshot(), reqs) == Dispatch(old(Snapshot()), cardapio, code, now, rec, os)
    {
      reqs := NoRequests;
      match code {
      case VerCardapio =>
        MostrarCardapio(now);
      case Recomendar =>
        reqs := Requests([], Some(RecommendationClientId(clienteInfo)));
        MostrarRecomendacao(now, rec);
      case AdicionarPizza(nomePizza) =>
        match Lookup(cardapio, nomePizza) {
        case Some(info) =>
          pizzaToAdd := Some(PendingPizza(nomePizza, info.preco));
          extrasSelecionados := [];
          quantidade := 1;
        case None =>
        }
      case AbrirCarrinho =>
        showCarrinho := true;
      case Finalizar =>
        var pedidos := HandleFinalizarPedido(now, os);
        reqs := Requests(pedidos, None);
      case LimparCarrinho =>
        carrinho := [];
        showCarrinho := false;
        AddMessage(TextMessage(now + 1, Bot, "Carrinho limpo!"));
      case ContinuarComprando =>
        showCarrinho := false;
      case Ajuda =>
        AddMessage(TextMessage(now + 1, Bot, AjudaText));
      case Desconhecida =>
      }
    }

    /** `handleOptionClick(action)` at clock reading `now`. Returns the requests sent. */
    method HandleOptionClick(action: string, now: int, rec: Recomendacao, os: seq<Settled>) returns (reqs: Requests)
      requires Valid()
      requires action == "finalizar_pedido" ==> CheckoutReady(Snapshot(), os)
      modifies this
      ensures Valid()
      ensures (Snapshot(), reqs) == OptionClick(old(Snapshot()), cardapio, action, now, rec, os)
    {
      loading := true;
      AddMessage(TextMessage(now, User, ReplaceAll(action, '_', ' ')));
      InvFrame(old(Snapshot()), Snapshot(), cardapio, extrasTabela);
      reqs := Executar(ParseAction(action), now, rec, os);
      loading := false;
      OptionClickKeepsInv(old(Snapshot()), cardapio, extrasTabela, action, now, rec, os);
    }

    /** The `respostas` table: the reply to a registered client's message of the given intent. */
    method Responder(intent: Intent, now: int, rec: Recomendacao) returns (reqs: Requests)
      requires Valid()
      modifies this
      ensures Valid()
      ensures (Snapshot(), reqs) == Answer(old(Snapshot()), cardapio, intent, now, rec)
    {
      var nome := clienteInfo.nome;
      reqs := NoRequests;
      match intent {
      case PedirCardapio =>
        reqs := HandleOptionClick("ver_cardapio", now, rec, []);
      case PedirRecomendacao =>
        reqs := HandleOptionClick("recomendar", now, rec, []);
      case VerCarrinho =>
        reqs := HandleOptionClick("ver_carrinho", now, rec, []);
      case _ =>
        AddMessages(TextReply(nome, Units(carrinho), intent, now));
      }
      AnswerKeepsInv(old(Snapshot()), cardapio, extrasTabela, intent, now, rec);
    }

    /** `handleSendMessage` at clock reading `now`. Returns the requests sent. */
    method HandleSendMessage(now: int, rec: Recomendacao) returns (reqs: Requests)
      requires Valid()
      modifies this
      ensures Valid()
      ensures (Snapshot(), reqs) == SendMessage(old(Snapshot()), cardapio, now, rec)
    {
      if Trim(inputText) == "" || loading {
        return NoRequests;
      }
      reqs := Aceitar(now, rec);
    }

    /** The part of `handleSendMessage` after the blank and busy checks. */
    method Aceitar(now: int, rec: Recomendacao) returns (reqs: Requests)
      requires Valid()
      modifies this
      ensures Valid()
      ensures (Snapshot(), reqs) == Accept(old(Snapshot()), cardapio, now, rec)
    {
      var texto := inputText;
      AddMessage(TextMessage(now, User, texto));
      inputText := "";
      loading := true;
      InvFrame(old(Snapshot()), Snapshot(), cardapio, extrasTabela);
      if showClienteForm {
        AddMessage(TextMessage(now + 1, Bot, CompleteCadastro));
        reqs := NoRequests;
      } else {
        reqs := Responder(Classify(texto), now, rec);
      }
      loading := false;
      ghost var r := Snapshot();
      InvFrame(r.(loading := true), r, cardapio, extrasTabela);
    }
  }
}
