/**
 * The admin order table: the in-memory list of orders the panel shows, how a
 * delete or an edit changes it, the WhatsApp number normalisation, and the
 * two string helpers of the kitchen ticket (barcode padding, ingredient lines).
 * Server calls are replaced by their outcome, passed in as a parameter.
 */
module Admin {
  import opened Wrappers
  import opened Text

  /** One row of the order table as the panel receives it. */
  datatype Pedido = Pedido(
    id: int, cliente_id: int, data_hora: string, pizza: string, ingredientes: string,
    valor: nat, nome_cliente: string, telefone_cliente: string)

  /** What the initial `getPedidos()` produced. */
  datatype Carga = Carregado(data: seq<Pedido>) | FalhaCarga(message: string)

  // ---------------------------------------------------------------------------
  // WhatsApp number
  // ---------------------------------------------------------------------------

  /**
   * The international form of a string of digits: "55" in front of an
   * 11-digit number, and also of a 10-digit number once a '9' is put after
   * its two-digit area code; every other length is refused.
   */
  function WhatsAppNumber(d: string): Option<string> {
    if |d| == 10 then Some("55" + d[..2] + "9" + d[2..])
    else if |d| == 11 then Some("55" + d)
    else None
  }

  /**
   * `handleCliqueWhatsApp`'s number handling: strip everything but digits,
   * then normalise; `None` is the "invalid number" alert, where no link is opened.
   */
  method FormatarNumeroWhatsApp(numeroTelefone: string) returns (r: Option<string>)
    ensures r == WhatsAppNumber(OnlyDigits(numeroTelefone))
  {
    var numeroLimpo := OnlyDigits(numeroTelefone);
    var numeroFormatado := numeroLimpo;
    if |numeroLimpo| == 10 {
      numeroFormatado := "55" + numeroLimpo[..2] + "9" + numeroLimpo[2..];
    } else if |numeroLimpo| == 11 {
      numeroFormatado := "55" + numeroLimpo;
    } else {
      return None;
    }
    return Some(numeroFormatado);
  }

  /**
   * A digit string is accepted exactly when it has 10 or 11 digits, and every
   * accepted number is 13 digits long, all digits, starting with "55".
   */
  lemma WhatsAppNumberShape(d: string)
    requires AllDigits(d)
    ensures WhatsAppNumber(d).Some? <==> |d| == 10 || |d| == 11
    ensures WhatsAppNumber(d).Some? ==>
      var n := WhatsAppNumber(d).value;
      |n| == 13 && n[..2] == "55" && AllDigits(n)
  {
    if |d| == 10 {
      var n := "55" + d[..2] + "9" + d[2..];
      assert forall i :: 4 < i < 13 ==> n[i] == d[i - 3];
    }
  }

  /** A 10-digit number is sent to the same address as the 11-digit number with '9' after its area code. */
  lemma TenDigitsGainNine(d: string)
    requires |d| == 10
    ensures WhatsAppNumber(d) == WhatsAppNumber(d[..2] + "9" + d[2..])
  {
    var e := d[..2] + "9" + d[2..];
    assert "55" + d[..2] + "9" + d[2..] == "55" + e;
  }

  /**
   * A landline-style "(DD) NNNN-NNNN", whatever punctuation surrounds the
   * digit groups, is sent to 55 DD 9 NNNN NNNN: the same address as the
   * mobile-style "(DD) 9NNNN-NNNN".
   */
  lemma PunctuatedNumbers(open: string, ddd: string, sep: string, a: string, dash: string, b: string)
    requires AllDigits(ddd) && AllDigits(a) && AllDigits(b)
    requires NoDigit(open) && NoDigit(sep) && NoDigit(dash)
    requires |ddd| == 2 && |a| == 4 && |b| == 4
    ensures WhatsAppNumber(OnlyDigits(open + ddd + sep + a + dash + b)) == Some("55" + ddd + "9" + a + b)
    ensures WhatsAppNumber(OnlyDigits(open + ddd + sep + ("9" + a) + dash + b)) == Some("55" + ddd + "9" + a + b)
  {
    FormattedDigits(open, ddd, sep, a, dash, b);
    TenDigitGroups(ddd, a, b);
    var nine := "9" + a;
    NinePrefixed(a);
    FormattedDigits(open, ddd, sep, nine, dash, b);
    ElevenDigitGroups(ddd, a, b);
  }

  lemma NinePrefixed(a: string)
    requires AllDigits(a)
    ensures AllDigits("9" + a)
  {
    var n := "9" + a;
    forall i | 0 <= i < |n|
      ensures IsDigit(n[i])
    {
      if i > 0 {
        assert n[i] == a[i - 1];
      }
    }
  }

  lemma TenDigitGroups(ddd: string, a: string, b: string)
    requires |ddd| == 2 && |a| == 4 && |b| == 4
    ensures WhatsAppNumber(ddd + a + b) == Some("55" + ddd + "9" + a + b)
  {
    var d := ddd + a + b;
    assert d[..2] == ddd;
    assert d[2..] == a + b;
    assert "55" + d[..2] + "9" + d[2..] == "55" + ddd + "9" + a + b;
  }

  lemma ElevenDigitGroups(ddd: string, a: string, b: string)
    requires |ddd| == 2 && |a| == 4 && |b| == 4
    ensures WhatsAppNumber(ddd + ("9" + a) + b) == Some("55" + ddd + "9" + a + b)
  {
    var e := ddd + ("9" + a) + b;
    assert "55" + e == "55" + ddd + "9" + a + b;
  }

  /** The digits of open + ddd + sep + a + dash + b, for separators without digits. */
  lemma FormattedDigits(open: string, ddd: string, sep: string, a: string, dash: string, b: string)
    requires AllDigits(ddd) && AllDigits(a) && AllDigits(b)
    requires NoDigit(open) && NoDigit(sep) && NoDigit(dash)
    ensures OnlyDigits(open + ddd + sep + a + dash + b) == ddd + a + b
  {
    var s1, s2, s3, s4 := open + ddd, open + ddd + sep, open + ddd + sep + a, open + ddd + sep + a + dash;
    NoDigits(open);
    AppendDigits(open, ddd);
    assert [] + ddd == ddd;
    assert OnlyDigits(s1) == ddd;
    AppendNoDigits(s1, sep);
    AppendDigits(s2, a);
    assert OnlyDigits(s3) == ddd + a;
    AppendNoDigits(s3, dash);
    AppendDigits(s4, b);
  }

  lemma AppendDigits(p: string, a: string)
    requires AllDigits(a)
    ensures OnlyDigits(p + a) == OnlyDigits(p) + a
  {
    OnlyDigitsPrefix(p, a);
    OnlyDigitsOfDigits(a);
  }

  lemma AppendNoDigits(p: string, q: string)
    requires NoDigit(q)
    ensures OnlyDigits(p + q) == OnlyDigits(p)
  {
    OnlyDigitsPrefix(p, q);
    NoDigits(q);
  }

  predicate NoDigit(s: string) { forall i :: 0 <= i < |s| ==> !IsDigit(s[i]) }

  lemma {:induction false} NoDigits(s: string)
    requires NoDigit(s)
    ensures OnlyDigits(s) == ""
  {
    if s != [] {
      assert forall i :: 0 <= i < |s[1..]| ==> s[1..][i] == s[i + 1];
      NoDigits(s[1..]);
    }
  }

  lemma {:induction false} OnlyDigitsPrefix(a: string, b: string)
    ensures OnlyDigits(a + b) == OnlyDigits(a) + OnlyDigits(b)
  {
    if a != [] {
      assert (a + b)[1..] == a[1..] + b;
      OnlyDigitsPrefix(a[1..], b);
    } else {
      assert a + b == b;
    }
  }

  // ---------------------------------------------------------------------------
  // Ticket helpers
  // ---------------------------------------------------------------------------

  /** `pedido.id.toString().padStart(6, '0')` for a non-negative id. */
  function Barcode(id: nat): string {
    PadStart(NatToString(id), 6, '0')
  }

  /**
   * The barcode is at least six decimal digits, exactly six for ids below a
   * million, and reads back as the id.
   */
  lemma BarcodeShape(id: nat)
    ensures var b := Barcode(id);
      |b| >= 6 && AllDigits(b) && DecimalValue(b) == id &&
      (id < 1000000 ==> |b| == 6)
  {
    var s := NatToString(id);
    DecimalRoundTrip(id);
    NatToStringLength(id);
    if |s| < 6 {
      LeadingZeros(6 - |s|, s);
    }
  }

  /** Numbers below 10^k take at most k digits. */
  lemma {:induction false} NatToStringLength(n: nat)
    ensures n < 1000000 ==> |NatToString(n)| <= 6
    ensures |NatToString(n)| <= 1 + n
    decreases n
  {
    if n >= 10 {
      NatToStringLength(n / 10);
      if n < 1000000 {
        ShortNumbers(n / 10);
      }
    }
  }

  lemma {:induction false} ShortNumbers(n: nat)
    requires n < 100000
    ensures |NatToString(n)| <= 5
    decreases n
  {
    if n >= 10 {
      ShortNumbersBelow(n / 10);
    }
  }

  lemma {:induction false} ShortNumbersBelow(n: nat)
    requires n < 10000
    ensures |NatToString(n)| <= 4
    decreases n
  {
    if n >= 1000 {
      assert n / 10 < 1000;
      assert |NatToString(n / 10 / 10 / 10)| == 1;
    } else if n >= 100 {
      assert |NatToString(n / 10 / 10)| == 1;
    }
  }

  /** `ingredientes.split(',').map(ing => ing.trim())`: the ticket's ingredient lines. */
  function IngredientLines(s: string): (r: seq<string>)
    ensures |r| == |Split(s, ',')| >= 1
  {
    TrimmedPieces(s, ',')
  }

  /**
   * A comma-joined list of items without commas or surrounding white space
   * prints back as exactly those items, one per line.
   */
  lemma IngredientLinesOfJoin(items: seq<string>)
    requires |items| >= 1
    requires forall i :: 0 <= i < |items| ==> ',' !in items[i] && Trim(items[i]) == items[i]
    ensures IngredientLines(Join(items, ',')) == items
  {
    SplitJoin(items, ',');
    TrimAllTrimmed(items);
  }

  // ---------------------------------------------------------------------------
  // List updates
  // ---------------------------------------------------------------------------

  /** `prev.filter(p => p.id !== id)`. */
  function WithoutPedido(ps: seq<Pedido>, id: int): (r: seq<Pedido>)
    ensures forall p :: p in r <==> p in ps && p.id != id
    ensures |r| <= |ps|
  {
    if ps == [] then [] else (if ps[0].id == id then [] else [ps[0]]) + WithoutPedido(ps[1..], id)
  }

  /** Deleting from a concatenation deletes from each part: the surviving rows keep their order. */
  lemma {:induction false} WithoutPedidoAppend(a: seq<Pedido>, b: seq<Pedido>, id: int)
    ensures WithoutPedido(a + b, id) == WithoutPedido(a, id) + WithoutPedido(b, id)
  {
    if a == [] {
      assert a + b == b;
    } else {
      assert (a + b)[1..] == a[1..] + b;
      WithoutPedidoAppend(a[1..], b, id);
    }
  }

  /** Deleting an id that no row has leaves the list as it was. */
  lemma {:induction false} WithoutAbsentPedido(ps: seq<Pedido>, id: int)
    requires forall i :: 0 <= i < |ps| ==> ps[i].id != id
    ensures WithoutPedido(ps, id) == ps
  {
    if ps != [] {
      WithoutAbsentPedido(ps[1..], id);
      assert ps == [ps[0]] + ps[1..];
    }
  }

  /** `prev.map(p => p.id === editado.id ? editado : p)`. */
  function Replaced(ps: seq<Pedido>, editado: Pedido): (r: seq<Pedido>)
    ensures |r| == |ps|
  {
    seq(|ps|, i requires 0 <= i < |ps| => if ps[i].id == editado.id then editado else ps[i])
  }

  /**
   * An edit keeps the length and the id of every row in place, makes every
   * row with the edited id equal to the edited record, leaves every other row
   * as it was, and applying it twice is the same as once.
   */
  lemma ReplacedEffect(ps: seq<Pedido>, e: Pedido)
    ensures var r := Replaced(ps, e);
      |r| == |ps| &&
      (forall i :: 0 <= i < |ps| ==> r[i].id == ps[i].id) &&
      (forall i :: 0 <= i < |ps| && ps[i].id == e.id ==> r[i] == e) &&
      (forall i :: 0 <= i < |ps| && ps[i].id != e.id ==> r[i] == ps[i]) &&
      Replaced(r, e) == r
  {
  }

  /** Deleting an order after editing it is the same as deleting it unedited. */
  lemma {:induction false} DeleteAfterEdit(ps: seq<Pedido>, e: Pedido)
    ensures WithoutPedido(Replaced(ps, e), e.id) == WithoutPedido(ps, e.id)
  {
    if ps != [] {
      DeleteAfterEdit(ps[1..], e);
      assert Replaced(ps, e)[1..] == Replaced(ps[1..], e);
    }
  }

  // ---------------------------------------------------------------------------
  // The panel
  // ---------------------------------------------------------------------------

  class AdminPanel {
    var loading: bool
    var error: Option<string>
    var pedidos: seq<Pedido>
    var editandoPedido: Option<Pedido>
    var mostrarModalEdicao: bool
    var processando: bool

    /** Mounting: loading, no orders, no error, no modal. */
    constructor()
      ensures loading && error.None? && pedidos == [] && editandoPedido.None?
      ensures !mostrarModalEdicao && !processando
    {
      loading := true;
      error := None;
      pedidos := [];
      editandoPedido := None;
      mostrarModalEdicao := false;
      processando := false;
    }

    /** `fetchPedidos` with the outcome of `getPedidos()`. */
    method CarregarPedidos(carga: Carga)
      modifies this
      ensures !loading
      ensures carga.Carregado? ==> pedidos == carga.data && error == old(error)
      ensures carga.FalhaCarga? ==> pedidos == old(pedidos) && error == Some("Erro ao carregar pedidos: " + carga.message)
      ensures editandoPedido == old(editandoPedido) && mostrarModalEdicao == old(mostrarModalEdicao)
      ensures processando == old(processando)
    {
      match carga {
      case Carregado(data) =>
        pedidos := data;
      case FalhaCarga(message) =>
        error := Some("Erro ao carregar pedidos: " + message);
      }
      loading := false;
    }

    /**
     * `handleExcluirPedido(id)`: `confirmado` is the answer to the
     * confirmation dialog and `resultado` the outcome of the delete request.
     * Only a confirmed, successful delete changes the list, and then it drops
     * exactly the rows with that id; a failure records the error.
     */
    method HandleExcluirPedido(id: int, confirmado: bool, resultado: Settled)
      modifies this
      ensures !confirmado ==> unchanged(this)
      ensures confirmado ==> !processando
      ensures pedidos == if confirmado && resultado.Fulfilled? then WithoutPedido(old(pedidos), id) else old(pedidos)
      ensures error == if confirmado && resultado.Rejected? then Some("Erro ao excluir pedido: " + resultado.message) else old(error)
      ensures loading == old(loading) && editandoPedido == old(editandoPedido) && mostrarModalEdicao == old(mostrarModalEdicao)
    {
      if confirmado {
        processando := true;
        match resultado {
        case Fulfilled =>
          pedidos := WithoutPedido(pedidos, id);
        case Rejected(message) =>
          error := Some("Erro ao excluir pedido: " + message);
        }
        processando := false;
      }
    }

    /** `handleEditarPedido`: opens the modal on a copy of the order. */
    method HandleEditarPedido(pedido: Pedido)
      modifies this
      ensures editandoPedido == Some(pedido) && mostrarModalEdicao
      ensures pedidos == old(pedidos) && error == old(error) && processando == old(processando) && loading == old(loading)
    {
      editandoPedido := Some(pedido);
      mostrarModalEdicao := true;
    }

    /**
     * `handleSubmitEdicao` with the outcome of the update request. With no
     * order being edited nothing happens. On success the rows with the
     * edited id become the edited record and the modal closes; on failure
     * the list and the modal stay as they were and the error is recorded.
     */
    method HandleSubmitEdicao(resultado: Settled)
      modifies this
      ensures old(editandoPedido).None? ==> unchanged(this)
      ensures old(editandoPedido).Some? ==> !processando
      ensures old(editandoPedido).Some? && resultado.Fulfilled? ==>
        pedidos == Replaced(old(pedidos), old(editandoPedido).value) &&
        !mostrarModalEdicao && editandoPedido.None? && error == old(error)
      ensures old(editandoPedido).Some? && resultado.Rejected? ==>
        pedidos == old(pedidos) && mostrarModalEdicao == old(mostrarModalEdicao) &&
        editandoPedido == old(editandoPedido) &&
        error == Some("Erro ao atualizar pedido: " + resultado.message)
      ensures loading == old(loading)
    {
      if editandoPedido.None? {
        return;
      }
      var editado := editandoPedido.value;
      processando := true;
      match resultado {
      case Fulfilled =>
        pedidos := Replaced(pedidos, editado);
        mostrarModalEdicao := false;
        editandoPedido := None;
      case Rejected(message) =>
        error := Some("Erro ao atualizar pedido: " + message);
      }
      processando := false;
    }
  }
}
