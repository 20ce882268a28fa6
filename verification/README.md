# Pizzaria IA: the order and cart rules, in Dafny

This project models the order-taking core of the Pizzaria IA app and proves
properties of it. The app is a React chat widget with a shopping cart, a React
admin panel with an order table, and a Flask backend over SQLite. The model
covers four parts:

- **The chat widget** (`PizzaRecommender`), in two layers.
  - `chat_spec.dfy` gives every event handler as a function from the
    component state before to the state after. That covers registration, the
    add-to-cart dialog, add/remove/update of cart lines, checkout with its
    one-request-per-unit fan-out, the structured action dispatch, and the
    keyword dispatch of free text.
  - `chat.dfy` is a class with one field per `useState` cell. Each of its
    methods updates those fields step by step and is proved to end in the
    state the function computes.
  - The cart itself (`cart.dfy`) is an ordered list of lines. Its merge key is
    the pizza name plus the ordered extras list, and it carries the derived
    totals.
- **The admin panel** (`admin.dfy`):
  - the order list and how a confirmed delete or a submitted edit changes it;
  - WhatsApp phone normalisation;
  - the two string helpers of the kitchen ticket: barcode zero-padding and
    one ingredient per line.
- **The backend** (`backend.dfy`, `recommender.dfy`):
  - The `pedidos` table is a map from row id to row, with an `AUTOINCREMENT`
    counter. Insert, partial update and delete act on it.
  - `salvar_pedido` computes price and ingredient text with an accumulation
    loop.
  - `is_vegetariano` looks for meat in the ingredient history.
  - `recomendar` contributes two rules: the same-weekday, ±2-hour context window, and the
    answer for an empty table.
- **The cold-weather rule** (`clima.dfy`): `is_frio` as a predicate of weekday
  and hour.

`integration.dfy` connects the two sides. The orders a priced cart submits at
checkout are stored by the backend at exactly the cart total. The ingredient
text the backend stores reads back on the admin ticket as the base
ingredients followed by the chosen extras.

Modelling choices:

- **Prices** are whole centavos (`nat`). The concrete catalog (`Catalog.Cardapio`,
  `Catalog.Extras`) is the one in `frontend/src/cardapio-data.ts`. Every
  operation takes the catalog as a parameter, and both sides are assumed to
  use the same one.
- **Clock readings** (`Date.now()`, `datetime.now()`) are parameters.
- **Outside answers** are parameters: the recommendation service's reply, the
  settled outcome of every order request (`Promise.allSettled`), the admin's
  confirmation dialog, and the outcome of each admin request.

Two details of the code that the model keeps:

- **Extras are compared as ordered lists.** The merge test compares
  `JSON.stringify` of the two arrays (PizzaRecommender.tsx:261). So "Bacon,
  Milho" and "Milho, Bacon" make two separate cart lines.
- **Normalised WhatsApp numbers have 13 digits** ("55" + 11 digits), as
  AdminPanel.tsx:484-487 builds them.

Behaviours of the code worth knowing, which the model keeps and proves:

- **Client id 0.** `clienteInfo.id || 1` treats a registered id of 0 as
  missing, so such a client is recommended for as client 1
  (`ChatSpec.ZeroIdIsRecommendedAsClientOne`).
- **Keywords are substrings.** "pizza de cebola" is answered as a greeting,
  because "cebola" contains "ola" (`ChatSpec.CebolaReadsAsGreeting`).
- **A price edit does not re-price.** An update that changes the pizza keeps
  the stored value unless a value is supplied too (`Backend.PatchedValor`).

## Model

| member | source | states |
|---|---|---|
| Text.OnlyDigits | frontend/src/components/AdminPanel.tsx:481 | the result is all digits and no longer than the input |
| Text.OnlyDigitsOfDigits | frontend/src/components/AdminPanel.tsx:481 | filtering a digit string is the identity |
| Text.NatToString | frontend/src/components/AdminPanel.tsx:170 | the decimal rendering is never empty (its meaning is `Text.DecimalRoundTrip`) |
| Text.DecimalRoundTrip | frontend/src/components/AdminPanel.tsx:170 | reading the decimal rendering back gives the number |
| Text.PadStart | frontend/src/components/AdminPanel.tsx:170 | padding gives length max(width, length of s) and ends with the original string, preceded only by the fill character |
| Text.LeadingZeros | frontend/src/components/AdminPanel.tsx:170 | zeros in front of a decimal string do not change its value |
| Text.Split | frontend/src/components/AdminPanel.tsx:196 | the pieces never contain the separator and there is always at least one |
| Text.SplitAround | frontend/src/components/AdminPanel.tsx:196 | splitting a + sep + b is the pieces of a followed by the pieces of b |
| Text.JoinSplit | frontend/src/components/AdminPanel.tsx:196 | joining the pieces of a split gives back the string |
| Text.SplitJoin | frontend/src/components/AdminPanel.tsx:196 | splitting a join of separator-free pieces gives back the pieces |
| Text.NoSeparator | frontend/src/components/AdminPanel.tsx:196 | a string without the separator splits into itself alone |
| Text.LeadingBlanks | backend/core/pizza_recommender.py:68 | the count covers only white space, and the next character (if any) is not white space |
| Text.TrailingBlanks | backend/core/pizza_recommender.py:68 | the mirror image at the end of the string |
| Text.Trim | frontend/src/components/AdminPanel.tsx:196 | `trim()`/`strip()`: the result neither starts nor ends with white space and is no longer than the input |
| Text.TrimIsSlice | backend/core/pizza_recommender.py:68 | the trim is a contiguous slice of the string with only white space outside it |
| Text.BlankIffAllSpace | frontend/src/components/PizzaRecommender.tsx:293 | a string trims to "" exactly when it is all white space |
| Text.TrimOfTrimmed | frontend/src/components/AdminPanel.tsx:196 | a string with no white space at either end is its own trim |
| Text.TrimLeadingSpace | frontend/src/components/AdminPanel.tsx:196 | a white-space character in front does not survive the trim |
| Text.TrimAllAt | frontend/src/components/AdminPanel.tsx:196 | the i-th trimmed piece is the trim of the i-th piece |
| Text.TrimAllAppend | frontend/src/components/AdminPanel.tsx:196 | trimming piece by piece distributes over concatenation |
| Text.TrimAllTrimmed | frontend/src/components/AdminPanel.tsx:196 | pieces that are already trimmed come back unchanged |
| Text.TrimmedPieces | backend/core/pizza_recommender.py:86 | as many pieces as the split gives, at least one (their contents: `Text.TrimAllAt`) |
| Text.Lower | backend/core/pizza_recommender.py:68 | lower-casing keeps the length and maps each character by itself |
| Text.ContainsIffOccurs | frontend/src/components/PizzaRecommender.tsx:315-327 | the keyword test holds exactly when the keyword starts at some position of the text |
| Text.ReplaceAll | frontend/src/components/PizzaRecommender.tsx:197 | every occurrence of the character is replaced, every other character kept, length unchanged |
| Catalog.Lookup | frontend/src/components/PizzaRecommender.tsx:226 | `CARDAPIO[nome]`: the result, when present, is an entry of the menu with that name; absent exactly when no entry has it |
| Catalog.LookupFindsEntry | backend/core/pizza_recommender.py:192 | in a menu with unique names, looking up an entry's name finds that entry |
| Catalog.KnownExtras | backend/core/pizza_recommender.py:200-201 | every element is a listed extra the table knows, and every listed extra the table knows appears |
| Catalog.ExtrasPriceAppend | frontend/src/components/PizzaRecommender.tsx:257 | the extras price of a concatenation is the sum of the parts' prices |
| Catalog.UnknownExtrasAreFree | backend/core/pizza_recommender.py:200-202 | unknown extras add nothing: the price equals that of the known extras alone |
| Catalog.RepeatedExtraPaysTwice | backend/core/pizza_recommender.py:200-202 | listing a known extra twice pays its price twice |
| Catalog.Money | backend/core/pizza_recommender.py:212 | `valor:.2f` / `toFixed(2)` of an amount in centavos: the digits before the point read the whole reais (c / 100), the two digits after it the remaining centavos (c % 100) |
| Catalog.ShippedCatalogWellFormed | frontend/src/cardapio-data.ts:2-18 | the shipped menu has seven pizzas with unique names, starting with Margherita, and no extra name holds a comma |
| Catalog.ShippedExtrasAtMostBacon | frontend/src/cardapio-data.ts:12-18 | with the shipped extras table, any list of extras costs at most Bacon's 500 centavos per listed extra |
| Clima.ColdHoursOfTheWeek | backend/core/clima.py:5-6 | of the 7 × 24 (weekday, hour) readings of a week the cold ones are exactly Friday (weekday 4) at hours 18 through 23, six in all |
| Cart.TotalsAppend | frontend/src/components/PizzaRecommender.tsx:59-60 | `totalCarrinho` and `totalItens` add up over a concatenation of carts |
| Cart.TotalsAfterQuantityChange | frontend/src/components/PizzaRecommender.tsx:59-60 | changing one line's quantity moves the totals by exactly the difference |
| Cart.FindLine | frontend/src/components/PizzaRecommender.tsx:260-262 | `findIndex`: -1 exactly when no line has the merge key, otherwise the first line that has it |
| Cart.AddMergesMatchingLine | frontend/src/components/PizzaRecommender.tsx:260-267 | with a matching line, only that line's quantity grows by q; length and every other line unchanged |
| Cart.AddMergesByKey | frontend/src/components/PizzaRecommender.tsx:260-267 | in a cart with unique keys that has a line for the key, that line's quantity grows by q and every other line is kept |
| Cart.AddItemEffect | frontend/src/components/PizzaRecommender.tsx:255-278 | one add in full: the totals rise by q units at the unit price, and the cart merges into the matching line or gains one new line at the end |
| Cart.AddAppendsNewLine | frontend/src/components/PizzaRecommender.tsx:268-277 | with no matching line, exactly one line (new id, name, base price, extras, unit price, q) is appended at the end |
| Cart.AddRaisesTotals | frontend/src/components/PizzaRecommender.tsx:59-60 | adding q units at unit price p raises the item count by q and the total by p × q |
| Cart.AddKeepsLinesUnique | frontend/src/components/PizzaRecommender.tsx:260-278 | adding never creates two lines with the same pizza and ordered extras |
| Cart.AddKeepsCartInvariant | frontend/src/components/PizzaRecommender.tsx:255-278 | adding a menu pizza at its menu price keeps keys unique, quantities positive and lines priced |
| Cart.AddCountsMatching | frontend/src/components/PizzaRecommender.tsx:260-278 | after one add the key has one line if it had none, and q more units |
| Cart.RepeatedAddsMakeOneLine | frontend/src/components/PizzaRecommender.tsx:260-278 | any series of adds of one key to a cart without it leaves exactly one line holding the sum of the quantities |
| Cart.WithoutId | frontend/src/components/PizzaRecommender.tsx:286 | `filter`: no surviving line has the id, and every line without the id survives |
| Cart.WithoutIdAppend | frontend/src/components/PizzaRecommender.tsx:286 | removal works piecewise over a concatenation, so the survivors keep their order |
| Cart.WithoutAbsentId | frontend/src/components/PizzaRecommender.tsx:286 | removing an id no line has leaves the cart unchanged |
| Cart.WithoutIdKeepsLinesUnique | frontend/src/components/PizzaRecommender.tsx:286 | removal keeps merge keys unique |
| Cart.SetQuantity | frontend/src/components/PizzaRecommender.tsx:289 | `map` keeps the length (which lines change: `Cart.UpdateChangesOnlyQuantity`) |
| Cart.UpdateChangesOnlyQuantity | frontend/src/components/PizzaRecommender.tsx:287-290 | a quantity of at least 1 changes only the quantity of the lines with that id |
| Cart.UpdateBelowOneRemoves | frontend/src/components/PizzaRecommender.tsx:288 | a quantity below 1 is the removal of that id |
| Cart.UpdateKeepsCartInvariant | frontend/src/components/PizzaRecommender.tsx:286-290 | quantity changes keep keys unique, quantities positive and prices intact |
| ChatSpec.InitialSatisfiesInv | frontend/src/components/PizzaRecommender.tsx:37-51 | the mounted state satisfies the widget invariant |
| ChatSpec.RegistrationGate | frontend/src/components/PizzaRecommender.tsx:98-121 | registration succeeds exactly when name, phone and address are non-empty, then sets an id in [0, 9999], hides the form and appends a bot message and a three-option action message; otherwise nothing changes |
| ChatSpec.Unticked | frontend/src/components/PizzaRecommender.tsx:447 | `filter(e => e !== extra)`: an element survives exactly when it was there and differs from the extra |
| ChatSpec.UntickedKeepsNoRepeats | frontend/src/components/PizzaRecommender.tsx:445-447 | unticking keeps the selection free of repeats |
| ChatSpec.ToggleTwiceRestores | frontend/src/components/PizzaRecommender.tsx:445-447 | ticking then unticking an extra restores the state |
| ChatSpec.DialogKeepsInv | frontend/src/components/PizzaRecommender.tsx:436-447 | opening the dialog, ticking, the stepper and cancel keep the invariant (quantity ≥ 1, no repeated extra) |
| ChatSpec.AddToCartEffect | frontend/src/components/PizzaRecommender.tsx:255-284 | with no pending pizza nothing changes; otherwise the dialog resets, the message "✅ {q}x {nome} adicionada ao carrinho!" is appended, no other field changes, and the cart gains q units at base + Σ extras: the matching line's quantity grows by q with every other line kept, or one new line is appended |
| ChatSpec.AddToCartKeepsInv | frontend/src/components/PizzaRecommender.tsx:255-284 | adding to the cart keeps the invariant |
| ChatSpec.UpdateBelowOneIsRemove | frontend/src/components/PizzaRecommender.tsx:287-288 | an update below 1 is the remove button |
| ChatSpec.CartEditsKeepInv | frontend/src/components/PizzaRecommender.tsx:286-290 | remove and update keep the invariant |
| ChatSpec.SubmissionCount | frontend/src/components/PizzaRecommender.tsx:138-148 | the fan-out issues exactly `totalItens` requests |
| ChatSpec.SubmissionsComeFromLines | frontend/src/components/PizzaRecommender.tsx:138-148 | every request carries the client and the pizza and extras of some cart line |
| ChatSpec.CheckoutRefusesEarly | frontend/src/components/PizzaRecommender.tsx:125-132 | an empty cart or a missing client id appends one message, sends nothing and changes nothing else |
| ChatSpec.CheckoutFanOut | frontend/src/components/PizzaRecommender.tsx:134-173 | otherwise Σ quantidade orders go out, two messages are appended, and the cart is emptied exactly when all succeed and kept unchanged on any failure |
| ChatSpec.CheckoutFrame | frontend/src/components/PizzaRecommender.tsx:124-174 | checkout leaves the add dialog alone and either keeps or empties the cart |
| ChatSpec.CheckoutKeepsInv | frontend/src/components/PizzaRecommender.tsx:124-174 | checkout keeps the invariant |
| ChatSpec.MenuCards | frontend/src/components/PizzaRecommender.tsx:202-208 | one card per menu pizza (their contents: `ChatSpec.MenuCardsOpenTheirPizza`) |
| ChatSpec.ZeroIdIsRecommendedAsClientOne | frontend/src/components/PizzaRecommender.tsx:213 | a registered id of 0 is falsy, so the recommendation is asked for client 1 |
| ChatSpec.LiteralsAreNotAdditions | frontend/src/components/PizzaRecommender.tsx:199-236 | no fixed action code starts with "adicionar_", so the branch order does not matter for them |
| ChatSpec.ParseAction | frontend/src/components/PizzaRecommender.tsx:199-249 | the action code selects checkout exactly for "finalizar_pedido" and an add exactly for the "adicionar_" prefix, with the name after it |
| ChatSpec.MenuCardsOpenTheirPizza | frontend/src/components/PizzaRecommender.tsx:202-231 | pressing the i-th card's button opens the dialog for that pizza at its menu price and leaves the cart alone |
| ChatSpec.DispatchKeepsInv | frontend/src/components/PizzaRecommender.tsx:199-250 | every branch of the action dispatch keeps the invariant |
| ChatSpec.OptionClickKeepsInv | frontend/src/components/PizzaRecommender.tsx:195-253 | `handleOptionClick` keeps the invariant |
| ChatSpec.AppendExtends | frontend/src/components/PizzaRecommender.tsx:62-64 | `addMessage` only appends to the chat |
| ChatSpec.CheckoutExtends | frontend/src/components/PizzaRecommender.tsx:124-174 | checkout only appends to the chat |
| ChatSpec.DispatchAppends | frontend/src/components/PizzaRecommender.tsx:199-250 | every dispatch branch only appends to the chat |
| ChatSpec.OptionClickAppendsOnly | frontend/src/components/PizzaRecommender.tsx:195-253 | a structured action only appends messages, the first being the echo with underscores as spaces, and ends with loading off |
| ChatSpec.FirstMatch | frontend/src/components/PizzaRecommender.tsx:315-331 | the result is the first keyword group that matches, or the number of groups when none does |
| ChatSpec.ClassifyIsFirstMatch | frontend/src/components/PizzaRecommender.tsx:299-331 | a group's intent wins exactly when one of its keywords occurs in the lower-cased text and no earlier group's does; the fallback exactly when no group matches |
| ChatSpec.GreetingComesFirst | frontend/src/components/PizzaRecommender.tsx:315-320 | a greeting wins over a menu request in the same text |
| ChatSpec.CebolaReadsAsGreeting | frontend/src/components/PizzaRecommender.tsx:315 | the substring test reads "cebola" as a greeting |
| ChatSpec.OpcoesSaudacao | frontend/src/components/PizzaRecommender.tsx:303 | the greeting reply offers three options |
| ChatSpec.OpcoesAjuda | frontend/src/components/PizzaRecommender.tsx:331 | the fallback reply offers four options |
| ChatSpec.BlankOrBusyInputIgnored | frontend/src/components/PizzaRecommender.tsx:293 | blank input, or input while loading, changes nothing and sends nothing |
| ChatSpec.UnregisteredGetsPrompt | frontend/src/components/PizzaRecommender.tsx:294-314 | before registration every accepted text gets the echo and the "complete your registration" prompt, and nothing else changes |
| ChatSpec.UnregisteredAccept | frontend/src/components/PizzaRecommender.tsx:294-314 | the same, for the part of the handler after the blank and busy checks |
| ChatSpec.FallbackOffersFourOptions | frontend/src/components/PizzaRecommender.tsx:329-331 | text matching no group gets the echo, the fallback message and a four-option action message; input cleared, nothing sent |
| ChatSpec.FallbackReply | frontend/src/components/PizzaRecommender.tsx:310 | the fallback reply is the apology followed by the four options |
| ChatSpec.SendMessageInText | frontend/src/components/PizzaRecommender.tsx:292-334 | a registered client's text answered in text gets the echo then the reply for its intent, and nothing is sent |
| ChatSpec.AcceptRegistered | frontend/src/components/PizzaRecommender.tsx:294-297 | an accepted text of a registered client is echoed, the input cleared, then answered by its intent |
| ChatSpec.AnswerInText | frontend/src/components/PizzaRecommender.tsx:300-311 | greeting, thanks, price and fallback append their reply and send nothing |
| ChatSpec.AnswerKeepsInv | frontend/src/components/PizzaRecommender.tsx:300-332 | every reply keeps the invariant |
| ChatSpec.SendMessageKeepsInv | frontend/src/components/PizzaRecommender.tsx:292-334 | `handleSendMessage` keeps the invariant |
| Chat.PizzaRecommender.constructor | frontend/src/components/PizzaRecommender.tsx:37-72 | the mounted component is `ChatSpec.Initial` (welcome message, form shown, empty cart) and satisfies the invariant |
| Chat.PizzaRecommender.AddMessage | frontend/src/components/PizzaRecommender.tsx:62-64 | appends one message, nothing else changes |
| Chat.PizzaRecommender.AddMessages | frontend/src/components/PizzaRecommender.tsx:318 | appends the messages in order, nothing else changes |
| Chat.PizzaRecommender.EditarCadastro | frontend/src/components/PizzaRecommender.tsx:349-351 | ends in `ChatSpec.EditarCadastro` of the old state (name, phone and address set), keeping the invariant |
| Chat.PizzaRecommender.SetInputText | frontend/src/components/PizzaRecommender.tsx:467 | only `inputText` changes, keeping the invariant |
| Chat.PizzaRecommender.HandleClienteSubmit | frontend/src/components/PizzaRecommender.tsx:98-121 | ends in the state `ChatSpec.ClienteSubmit` computes, keeping the invariant |
| Chat.PizzaRecommender.ToggleExtra | frontend/src/components/PizzaRecommender.tsx:445-447 | ends in the state `ChatSpec.ToggleExtra` computes, keeping the invariant |
| Chat.PizzaRecommender.IncrementQuantidade | frontend/src/components/PizzaRecommender.tsx:438 | ends in `ChatSpec.IncrementQuantidade` (quantity up by one), keeping the invariant |
| Chat.PizzaRecommender.DecrementQuantidade | frontend/src/components/PizzaRecommender.tsx:436 | ends in `ChatSpec.DecrementQuantidade` (down by one, never below 1), keeping the invariant |
| Chat.PizzaRecommender.CancelarAdicao | frontend/src/components/PizzaRecommender.tsx:457 | ends in `ChatSpec.CancelarAdicao` (no pending pizza, nothing else changed), keeping the invariant |
| Chat.PizzaRecommender.SetShowCarrinho | frontend/src/components/PizzaRecommender.tsx:376-422 | only `showCarrinho` changes, keeping the invariant |
| Chat.PizzaRecommender.HandleAdicionarAoCarrinho | frontend/src/components/PizzaRecommender.tsx:255-284 | ends in the state `ChatSpec.AdicionarAoCarrinho` computes, keeping the invariant |
| Chat.PizzaRecommender.HandleRemoverDoCarrinho | frontend/src/components/PizzaRecommender.tsx:286 | the cart becomes `WithoutId` of the old cart, nothing else changes |
| Chat.PizzaRecommender.HandleAtualizarQuantidade | frontend/src/components/PizzaRecommender.tsx:287-290 | the cart becomes `UpdateQuantity` of the old cart, nothing else changes |
| Chat.PizzaRecommender.HandleFinalizarPedido | frontend/src/components/PizzaRecommender.tsx:124-174 | returns the submitted orders and ends in the state `ChatSpec.FinalizarPedido` computes |
| Chat.PizzaRecommender.MostrarCardapio | frontend/src/components/PizzaRecommender.tsx:199-209 | appends exactly `ChatSpec.MenuReply` (the introduction, then the menu cards) and changes nothing else |
| Chat.PizzaRecommender.MostrarRecomendacao | frontend/src/components/PizzaRecommender.tsx:211-222 | appends exactly `ChatSpec.RecommendReply` (the suggestion with its two options, or the error text) and changes nothing else |
| Chat.PizzaRecommender.Executar | frontend/src/components/PizzaRecommender.tsx:199-250 | ends in the state `ChatSpec.Dispatch` computes and returns its requests |
| Chat.PizzaRecommender.HandleOptionClick | frontend/src/components/PizzaRecommender.tsx:195-253 | ends in the state `ChatSpec.OptionClick` computes and returns its requests |
| Chat.PizzaRecommender.Responder | frontend/src/components/PizzaRecommender.tsx:300-332 | ends in the state `ChatSpec.Answer` computes for the intent |
| Chat.PizzaRecommender.HandleSendMessage | frontend/src/components/PizzaRecommender.tsx:292-334 | ends in the state `ChatSpec.SendMessage` computes and returns its requests |
| Chat.PizzaRecommender.Aceitar | frontend/src/components/PizzaRecommender.tsx:294-333 | ends in the state `ChatSpec.Accept` computes |
| Admin.FormatarNumeroWhatsApp | frontend/src/components/AdminPanel.tsx:480-492 | 10 digits become "55" + area code + "9" + the other eight, 11 digits become "55" + the digits, any other count is refused (no link) |
| Admin.WhatsAppNumberShape | frontend/src/components/AdminPanel.tsx:484-492 | a digit string is accepted exactly when it has 10 or 11 digits, and every accepted number is 13 digits starting with "55" |
| Admin.TenDigitsGainNine | frontend/src/components/AdminPanel.tsx:484-487 | a 10-digit number goes to the same address as the 11-digit number with "9" after its area code |
| Admin.PunctuatedNumbers | frontend/src/components/AdminPanel.tsx:481-487 | "(DD) NNNN-NNNN" and "(DD) 9NNNN-NNNN" with any punctuation normalise to the same 55 DD 9 NNNN NNNN |
| Admin.BarcodeShape | frontend/src/components/AdminPanel.tsx:170 | the barcode is at least six digits, exactly six below a million, and reads back as the id |
| Admin.IngredientLines | frontend/src/components/AdminPanel.tsx:196 | one line per comma-separated piece, at least one |
| Admin.IngredientLinesOfJoin | frontend/src/components/AdminPanel.tsx:196 | a comma-joined list of trimmed, comma-free items prints back as exactly those items |
| Admin.WithoutPedido | frontend/src/components/AdminPanel.tsx:506 | no surviving row has the id, and every row without it survives |
| Admin.WithoutPedidoAppend | frontend/src/components/AdminPanel.tsx:506 | deletion works piecewise, so the survivors keep their order |
| Admin.WithoutAbsentPedido | frontend/src/components/AdminPanel.tsx:506 | deleting an id no row has leaves the list unchanged |
| Admin.Replaced | frontend/src/components/AdminPanel.tsx:531 | `map` keeps the length (contents: `Admin.ReplacedEffect`) |
| Admin.ReplacedEffect | frontend/src/components/AdminPanel.tsx:531 | an edit keeps the length and every row's id, makes the rows with the edited id equal to the record, leaves the others as they were, and is idempotent |
| Admin.DeleteAfterEdit | frontend/src/components/AdminPanel.tsx:506-531 | deleting after editing is deleting the unedited list |
| Admin.AdminPanel.constructor | frontend/src/components/AdminPanel.tsx:23-28 | mounts loading, with no orders, no error and no modal |
| Admin.AdminPanel.CarregarPedidos | frontend/src/components/AdminPanel.tsx:43-51 | the loaded list, or the error text on failure; loading ends either way |
| Admin.AdminPanel.HandleExcluirPedido | frontend/src/components/AdminPanel.tsx:501-515 | a declined dialog changes nothing; a confirmed successful delete drops exactly the rows with the id; a failure keeps the list and records the error |
| Admin.AdminPanel.HandleEditarPedido | frontend/src/components/AdminPanel.tsx:518-521 | opens the modal on the order |
| Admin.AdminPanel.HandleSubmitEdicao | frontend/src/components/AdminPanel.tsx:524-541 | with nothing being edited nothing changes; success replaces the rows with the id and closes the modal; failure keeps list and modal and records the error |
| Backend.PrecoEIngredientes | backend/core/pizza_recommender.py:196-203 | the loop ends with value = base price + Σ known extras and text = base ingredients + ", extra" per known extra, in list order |
| Backend.ExtrasStep | backend/core/pizza_recommender.py:199-203 | one more extra adds its price and, when known, its ", extra" text |
| Backend.ExtrasSuffixPieces | backend/core/pizza_recommender.py:196-203 | split at commas, the stored text is the base pieces followed by one " extra" piece per known extra |
| Backend.Assignments | backend/core/pizza_recommender.py:258-274 | no assignment exactly when no field is supplied, and at most five |
| Backend.MontarAtualizacoes | backend/core/pizza_recommender.py:258-274 | the loop of appends builds exactly `Assignments(p)` |
| Backend.UpdateSetsSuppliedFields | backend/core/pizza_recommender.py:258-283 | running the SET clause gives the row with exactly the supplied fields replaced; client id and date never change |
| Backend.PatchIdempotent | backend/core/pizza_recommender.py:279-283 | sending the same update twice is the same as once |
| Backend.PatchedValor | backend/core/pizza_recommender.py:249-274 | the stored value changes only when a value is supplied, even when the pizza changes |
| Backend.MeatSurvivesMorePieces | backend/core/pizza_recommender.py:68-69 | adding comma pieces never removes a meat |
| Backend.MeatExtraOrder | backend/core/pizza_recommender.py:61-71 | an order with a known extra that is a meat stores a meat ingredient text |
| Backend.BaconIsMeat | backend/core/pizza_recommender.py:62-69 | any stored order with the shipped Bacon extra counts as meat |
| Backend.PedidoTable.constructor | backend/core/pizza_recommender.py:30-45 | a fresh table is empty and hands out id 1 first |
| Backend.PedidoTable.SalvarPedido | backend/core/pizza_recommender.py:183-214 | an unknown pizza answers 400 and inserts nothing; otherwise exactly one row with a fresh id and the computed value and text is inserted |
| Backend.PedidoTable.AtualizarPedido | backend/core/pizza_recommender.py:244-290 | no supplied field answers 400, an unknown id 404, both without change; otherwise only that row gets the supplied fields |
| Backend.PedidoTable.DeletarPedido | backend/core/pizza_recommender.py:292-302 | removes exactly the row with the id, or answers 404 and changes nothing |
| Backend.PedidoTable.IsVegetariano | backend/core/pizza_recommender.py:61-73 | true exactly when no row of the client has a trimmed, lower-cased meat piece (no rows gives true); a failed query gives false |
| Backend.DeleteThenUpdate | backend/core/pizza_recommender.py:285-299 | updating a deleted row reports not found |
| Recommender.WindowWithinDay | backend/core/pizza_recommender.py:101-105 | for a clock hour, the window lies within 0..23, holds the hour and spans at most four hours |
| Recommender.ContextIsTwoHoursAround | backend/core/pizza_recommender.py:101-105 | between clock hours the filter keeps exactly the orders of the same weekday at most two hours away |
| Recommender.ContextIsSymmetric | backend/core/pizza_recommender.py:101-105 | being in each other's context (same weekday, hours at most two apart) is symmetric |
| Recommender.RecomendarSemPedidos | backend/core/pizza_recommender.py:82-88 | an empty table suggests the first menu pizza with its trimmed ingredient pieces; an empty menu gives the generic error |
| Recommender.SuggestionIsOnTheMenu | backend/core/pizza_recommender.py:82-88 | the suggestion is a pizza the menu prices |
| Integration.AsRequest | frontend/src/components/PizzaRecommender.tsx:140-146 | the body posted carries the submission's client, pizza and extras |
| Integration.ChargedAppend | backend/core/pizza_recommender.py:196-210 | the stored values of a concatenation add up |
| Integration.ChargedCopies | frontend/src/components/PizzaRecommender.tsx:138-148 | q copies of an order store q times its value |
| Integration.CheckoutChargesCartTotal | frontend/src/components/PizzaRecommender.tsx:59-148 | the rows a priced cart's checkout inserts add up to the cart total the widget showed |
| Integration.CheckoutPizzasAreOnTheMenu | backend/core/pizza_recommender.py:192-194 | a priced cart never sends a pizza the backend refuses as not found |
| Integration.StoredIngredientsOnTicket | frontend/src/components/AdminPanel.tsx:196 | the stored ingredient text reads on the ticket as the base lines followed by the known extras, in order |
| Integration.TrimAllSpaced | backend/core/pizza_recommender.py:203 | the " extra" pieces trim back to the extra names |

## Left out

- The recommendation cascade of `recomendar` (pizza_recommender.py:90-151) is not modelled. It is built on pandas DataFrames: datetime parsing, most-common counts, similar clients, and the vegetarian and cold-weather overrides. Only the hour window and the empty-table answer are modelled.
- `encontrar_clientes_similares` (cosine similarity) and the machine-learning files `modelo_avancado.py` and `preparar_dados.py` are not modelled. They are floating-point and library code.
- `listar_pedidos`, `obter_pedido`, the SQL text, connection handling and schema migration are not modelled. The table is a map from id to row.
- Database exceptions: the `except Exception` 500 replies of `salvar_pedido`, `atualizar_pedido` and `deletar_pedido` are not modelled. Only `is_vegetariano`'s bare `except`, which answers false, is.
- Backend.PedidoTable.AtualizarPedido: the second "no valid field" check (pizza_recommender.py:276-277) is left out. It can never fire after the first check.
- Backend.PedidoTable.AtualizarPedido: ids are `nat`, as the `<int:id>` route allows. The backend stores whatever JSON `valor` a body supplies (negative, fractional or not a number at all); the model has only whole, non-negative centavos, as `Row.valor`, `Patch.valor` and `Admin.Pedido.valor` are `nat`.
- Backend.PedidoTable.SalvarPedido: `round(valor, 2)` and float money are not modelled. Prices are whole centavos.
- Backend.PedidoTable.SalvarPedido: a body without `cliente_id` or `pizza`, or one that is not JSON, raises before the `try` (pizza_recommender.py:185-189) and Flask answers 500. `OrderRequest` always carries both fields, so that reply is not modelled.
- Backend.PedidoTable.SalvarPedido: the timestamp is the parameter `dataHora` rather than a formatted `datetime.now()`.
- Float money and `toFixed(2)` are not modelled. `Catalog.Money` renders whole centavos.
- The `localStorage` mirror of the cart (PizzaRecommender.tsx:74-95) is not modelled.
- `handleWhatsAppClick`, `window.open`, `alert` and the HTML and PDF ticket templates are not modelled. The confirmation dialog is the parameter `confirmado`.
- `handleChangeEdicao` is not modelled. The edited record arrives whole in `HandleEditarPedido`.
- `Date.now()` ids and timestamps are the parameter `now`. Message timestamps are not modelled.
- `Promise.allSettled` is a sequence of per-request outcomes. Asynchronous interleaving of handlers (a click while an `await` is pending) is not modelled: each handler runs to completion.
- The recommendation request is a parameter `Recomendacao`, whose three cases are the reply, the error payload and the thrown error.
- Chat.PizzaRecommender.HandleFinalizarPedido: the `loading = true` state between the progress message and the outcome is not visible in the final state. The model sets `loading` false at the end.
- The generic `catch` of `handleFinalizarPedido` (PizzaRecommender.tsx:168-170) is not modelled. It is unreachable once the outcomes are given, because `allSettled` never rejects.
- Chat.PizzaRecommender.HandleAdicionarAoCarrinho: the `+=` at PizzaRecommender.tsx:266 mutates a line object shared with the previous state. The model builds a new line value, so that aliasing is not captured.
- Catalog.Lookup: only the menu's own entries are modelled. `CARDAPIO[nome]` is a plain-object read, so a name such as `constructor` or `toString` finds an inherited property: the dialog then opens with no price and the line's total becomes NaN. The model answers `None` for such names, and nothing happens.
- Text.Lower: lower-casing covers ASCII and the Latin-1 capitals only. Full Unicode case mapping is out of scope.
- Text.Trim: trimming removes ASCII white space only, not the other Unicode white-space characters that `trim()` and `strip()` also remove.
- `backend/core/cardapio.py` is not part of this model. Both sides are assumed to use the catalog of `frontend/src/cardapio-data.ts`.
