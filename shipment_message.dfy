/** The notification composer: the chat text announcing a shipment, built
    from the order's buyer and the shipment. */
module ShipmentMessage {
  import opened Wrappers
  import opened Text

  /** `order.buyer`: each name part may be missing. */
  datatype Buyer = Buyer(firstName: Option<string>, lastName: Option<string>, nickname: Option<string>)

  datatype ShippingItem = ShippingItem(quantity: int, description: string)

  /** `shipment.receiver_address`; `cityName`/`stateName` stand for
      `city?.name` and `state?.name`. */
  datatype ReceiverAddress = ReceiverAddress(
    addressLine: string,
    receiverName: string,
    cityName: Option<string>,
    stateName: Option<string>)

  datatype Shipment = Shipment(
    logisticType: Option<string>,
    shippingItems: seq<ShippingItem>,
    receiverAddress: Option<ReceiverAddress>)

  const FulfillmentHeader: string := "MercadoLibre ha enviado desde Full"
  const PrepareHeader: string := "Debes preparar el siguiente pedido"
  const DefaultBuyerLabel: string := "Cliente"
  const MissingAddressLine: string := "Dirección no disponible"

  /** JavaScript truthiness of an optional string (`Boolean(s)`): present
      and non-empty. `Json.Truthy` is the same test on decoded JSON values. */
  predicate NonEmpty(s: Option<string>) {
    s.Some? && s.value != ""
  }

  /** `order.buyer ?? {}` */
  function BuyerOrEmpty(buyer: Option<Buyer>): Buyer {
    buyer.GetOr(Buyer(None, None, None))
  }

  /** `[first_name, last_name].filter(Boolean)` */
  function NameParts(b: Buyer): seq<string> {
    (if NonEmpty(b.firstName) then [b.firstName.value] else [])
    + (if NonEmpty(b.lastName) then [b.lastName.value] else [])
  }

  /** `fullName`: the truthy name parts joined with one space, then trimmed. */
  function FullName(buyer: Option<Buyer>): (name: string)
    ensures name == [] || (!IsWhitespace(name[0]) && !IsWhitespace(name[|name| - 1]))
  {
    Trim(Join(NameParts(BuyerOrEmpty(buyer)), " "))
  }

  /** `buyerName` */
  function BuyerLabel(buyer: Option<Buyer>): (name: string)
    ensures name != ""
  {
    var fullName := FullName(buyer);
    var nickname := BuyerOrEmpty(buyer).nickname;
    if fullName != "" && NonEmpty(nickname) then fullName + " (" + nickname.value + ")"
    else if fullName != "" then fullName
    else if NonEmpty(nickname) then nickname.value
    else DefaultBuyerLabel
  }

  /** `shipment.receiver_address ?? {…}`: the address, or the placeholder
      addressed to the buyer label. */
  function Address(buyer: Option<Buyer>, shipment: Shipment): ReceiverAddress {
    match shipment.receiverAddress
    case Some(address) => address
    case None => ReceiverAddress(MissingAddressLine, BuyerLabel(buyer), Some(""), Some(""))
  }

  /** `logisticMessage` */
  function Header(shipment: Shipment): string {
    if shipment.logisticType == Some("fulfillment") then FulfillmentHeader else PrepareHeader
  }

  /** `• ${quantity}× ${description}` */
  function ItemLine(item: ShippingItem): string {
    "• " + IntToString(item.quantity) + "× " + item.description
  }

  /** `shipping_items.map(…)` */
  function ItemLines(items: seq<ShippingItem>): seq<string> {
    seq(|items|, i requires 0 <= i < |items| => ItemLine(items[i]))
  }

  /** `${city?.name ?? ""}, ${state?.name ?? ""}` */
  function CityStateLine(address: ReceiverAddress): string {
    address.cityName.GetOr("") + ", " + address.stateName.GetOr("")
  }

  /** The array literal, blank separators included, before filtering. */
  function DraftLines(buyer: Option<Buyer>, shipment: Shipment): (lines: seq<string>)
    ensures |lines| == 9 + |shipment.shippingItems|
    ensures lines[0] == Header(shipment) != ""
  {
    var address := Address(buyer, shipment);
    [ Header(shipment),
      "",
      "Cliente: " + BuyerLabel(buyer),
      "Recibe: " + address.receiverName,
      "",
      "Dirección: " + address.addressLine,
      CityStateLine(address),
      "",
      "Productos:" ]
    + ItemLines(shipment.shippingItems)
  }

  /** `lines.filter(Boolean)` */
  function DropBlank(lines: seq<string>): (kept: seq<string>)
    ensures forall i :: 0 <= i < |kept| ==> kept[i] != ""
  {
    if lines == [] then []
    else if lines[0] == "" then DropBlank(lines[1..])
    else [lines[0]] + DropBlank(lines[1..])
  }

  /** Every blank line goes and every other line stays, as often as it
      occurred (`DropBlankAppend` adds that the order is kept). */
  lemma {:induction false} DropBlankRemovesOnlyBlanks(lines: seq<string>)
    ensures multiset(DropBlank(lines)) == multiset(lines)["" := 0]
  {
    if lines != [] {
      assert lines == [lines[0]] + lines[1..];
      DropBlankRemovesOnlyBlanks(lines[1..]);
    }
  }

  /** `getShipmentMessage({order, shipment})`, where `buyer` is `order.buyer`,
      the only part of the order it reads. The text opens with the header;
      `MessageIsLines` gives the rest, line by line. */
  function GetShipmentMessage(buyer: Option<Buyer>, shipment: Shipment): (text: string)
    ensures |text| >= |Header(shipment)| && text[..|Header(shipment)|] == Header(shipment)
  {
    var draft := DraftLines(buyer, shipment);
    assert DropBlank(draft)[0] == draft[0];
    Join(DropBlank(draft), "\n")
  }

  // ---------------------------------------------------------------------
  // The message as the lines it promises

  /** The lines of the message, in order: header, buyer, receiver, address,
      city and state, the products title, then one line per item. */
  function MessageLines(buyer: Option<Buyer>, shipment: Shipment): (lines: seq<string>)
    ensures |lines| == 6 + |shipment.shippingItems|
  {
    LinesOf(Header(shipment), BuyerLabel(buyer), Address(buyer, shipment), ItemLines(shipment.shippingItems))
  }

  /** The promised lines, from their already computed parts. */
  function LinesOf(header: string, buyerLabel: string, address: ReceiverAddress, itemLines: seq<string>): (lines: seq<string>)
    ensures |lines| == 6 + |itemLines|
    ensures lines[0] == header && lines[1] == "Cliente: " + buyerLabel
    ensures lines[2] == "Recibe: " + address.receiverName && lines[3] == "Dirección: " + address.addressLine
    ensures lines[4] == CityStateLine(address) && lines[5] == "Productos:"
    ensures lines[6..] == itemLines
  {
    [ header,
      "Cliente: " + buyerLabel,
      "Recibe: " + address.receiverName,
      "Dirección: " + address.addressLine,
      CityStateLine(address),
      "Productos:" ]
    + itemLines
  }

  lemma {:induction false} DropBlankAppend(a: seq<string>, b: seq<string>)
    ensures DropBlank(a + b) == DropBlank(a) + DropBlank(b)
  {
    if a != [] {
      assert (a + b)[0] == a[0];
      assert (a + b)[1..] == a[1..] + b;
      DropBlankAppend(a[1..], b);
    } else {
      assert a + b == b;
    }
  }

  lemma {:induction false} DropBlankKeepsNonBlank(lines: seq<string>)
    requires forall i :: 0 <= i < |lines| ==> lines[i] != ""
    ensures DropBlank(lines) == lines
  {
    if lines != [] {
      DropBlankKeepsNonBlank(lines[1..]);
    }
  }

  /** The nine entries of the array literal lose exactly their three blanks. */
  lemma {:induction false} DropBlankOfDraftHead(header: string, buyerLine: string, receiverLine: string,
                                                addressLine: string, placeLine: string)
    requires header != "" && buyerLine != "" && receiverLine != "" && addressLine != "" && placeLine != ""
    ensures DropBlank([header, "", buyerLine, receiverLine, "", addressLine, placeLine, "", "Productos:"])
         == [header, buyerLine, receiverLine, addressLine, placeLine, "Productos:"]
  {
    var head := [header, "", buyerLine, receiverLine, "", addressLine, placeLine, "", "Productos:"];
    assert DropBlank(head[8..]) == ["Productos:"];
    assert DropBlank(head[7..]) == ["Productos:"];
    assert DropBlank(head[6..]) == [placeLine, "Productos:"];
    assert DropBlank(head[5..]) == [addressLine, placeLine, "Productos:"];
    assert DropBlank(head[4..]) == DropBlank(head[5..]);
    assert DropBlank(head[3..]) == [receiverLine] + DropBlank(head[5..]);
    assert DropBlank(head[2..]) == [buyerLine] + DropBlank(head[3..]);
    assert DropBlank(head[1..]) == DropBlank(head[2..]);
  }

  /** Filtering removes exactly the three blank separators: the message is
      the promised lines joined with newlines, 6 + |items| of them. */
  lemma MessageIsLines(buyer: Option<Buyer>, shipment: Shipment)
    ensures DropBlank(DraftLines(buyer, shipment)) == MessageLines(buyer, shipment)
    ensures GetShipmentMessage(buyer, shipment) == Join(MessageLines(buyer, shipment), "\n")
  {
    var address := Address(buyer, shipment);
    var items := ItemLines(shipment.shippingItems);
    var header, buyerLine, receiverLine, addressLine, placeLine :=
      Header(shipment), "Cliente: " + BuyerLabel(buyer), "Recibe: " + address.receiverName,
      "Dirección: " + address.addressLine, CityStateLine(address);
    var head := [header, "", buyerLine, receiverLine, "", addressLine, placeLine, "", "Productos:"];
    assert DraftLines(buyer, shipment) == head + items;
    DropBlankAppend(head, items);
    forall i | 0 <= i < |items| ensures items[i] != "" {
      assert items[i][0] == '•';
    }
    DropBlankKeepsNonBlank(items);
    assert |header| > 0;
    assert placeLine[|address.cityName.GetOr("")|] == ',';
    DropBlankOfDraftHead(header, buyerLine, receiverLine, addressLine, placeLine);
  }

  /** The first six lines of the message. */
  lemma MessageLinesHead(buyer: Option<Buyer>, shipment: Shipment)
    ensures MessageLines(buyer, shipment)[0] == Header(shipment)
    ensures MessageLines(buyer, shipment)[1] == "Cliente: " + BuyerLabel(buyer)
    ensures MessageLines(buyer, shipment)[2] == "Recibe: " + Address(buyer, shipment).receiverName
    ensures MessageLines(buyer, shipment)[3] == "Dirección: " + Address(buyer, shipment).addressLine
    ensures MessageLines(buyer, shipment)[4] == CityStateLine(Address(buyer, shipment))
    ensures MessageLines(buyer, shipment)[5] == "Productos:"
  {
  }

  /** When no part contains a newline, splitting the text on newlines gives
      back exactly the promised lines, so it has 6 + |items| lines. */
  lemma LineCount(buyer: Option<Buyer>, shipment: Shipment)
    requires forall i :: 0 <= i < |MessageLines(buyer, shipment)| ==> '\n' !in MessageLines(buyer, shipment)[i]
    ensures Split(GetShipmentMessage(buyer, shipment), '\n') == MessageLines(buyer, shipment)
    ensures |Split(GetShipmentMessage(buyer, shipment), '\n')| == 6 + |shipment.shippingItems|
  {
    MessageIsLines(buyer, shipment);
    SplitJoin(MessageLines(buyer, shipment), '\n');
  }

  // ---------------------------------------------------------------------
  // Properties of the parts

  /** The buyer label is never empty, and is chosen in this order: full name
      with nickname, full name, nickname, then the default label. */
  lemma BuyerLabelChoice(buyer: Option<Buyer>)
    ensures BuyerLabel(buyer) != ""
    ensures var fullName := FullName(buyer);
      var nickname := BuyerOrEmpty(buyer).nickname;
      && (fullName != "" && NonEmpty(nickname) ==> BuyerLabel(buyer) == fullName + " (" + nickname.value + ")")
      && (fullName != "" && !NonEmpty(nickname) ==> BuyerLabel(buyer) == fullName)
      && (fullName == "" && NonEmpty(nickname) ==> BuyerLabel(buyer) == nickname.value)
      && (fullName == "" && !NonEmpty(nickname) ==> BuyerLabel(buyer) == DefaultBuyerLabel)
  {
  }

  /** The full name carries no surrounding whitespace; with a first and a
      last name already free of it, it is those two joined by one space; a
      missing buyer has no full name. */
  lemma FullNameShape(buyer: Option<Buyer>, first: string, last: string, nickname: Option<string>)
    ensures FullName(buyer) == "" ||
      (!IsWhitespace(FullName(buyer)[0]) && !IsWhitespace(FullName(buyer)[|FullName(buyer)| - 1]))
    ensures FullName(None) == ""
    ensures first != "" && last != "" && !IsWhitespace(first[0]) && !IsWhitespace(last[|last| - 1]) ==>
      FullName(Some(Buyer(Some(first), Some(last), nickname))) == first + " " + last
  {
    if first != "" && last != "" && !IsWhitespace(first[0]) && !IsWhitespace(last[|last| - 1]) {
      assert NameParts(Buyer(Some(first), Some(last), nickname)) == [first, last];
      JoinTwo(first, last, " ");
      var joined := first + " " + last;
      assert joined[0] == first[0] && joined[|joined| - 1] == last[|last| - 1];
      TrimKeeps(joined);
    }
  }

  /** The first line is the fulfillment phrase exactly for fulfillment
      shipments, and the "please prepare" phrase otherwise. */
  lemma HeaderChoice(buyer: Option<Buyer>, shipment: Shipment)
    ensures MessageLines(buyer, shipment)[0] == FulfillmentHeader <==> shipment.logisticType == Some("fulfillment")
    ensures MessageLines(buyer, shipment)[0] == PrepareHeader <==> shipment.logisticType != Some("fulfillment")
  {
    MessageLinesHead(buyer, shipment);
  }

  /** The receiver line is always there, even when it repeats the buyer label. */
  lemma ReceiverLineAlwaysPresent(buyer: Option<Buyer>, shipment: Shipment, address: ReceiverAddress)
    requires shipment.receiverAddress == Some(address)
    ensures MessageLines(buyer, shipment)[2] == "Recibe: " + address.receiverName
    ensures MessageLines(buyer, shipment)[1] == "Cliente: " + BuyerLabel(buyer)
  {
    MessageLinesHead(buyer, shipment);
  }

  /** Without a receiver address the placeholder address is shown, the
      buyer label stands in for the receiver, and the place line is ", ". */
  lemma MissingAddressDefaults(buyer: Option<Buyer>, shipment: Shipment)
    requires shipment.receiverAddress.None?
    ensures MessageLines(buyer, shipment)[2] == "Recibe: " + BuyerLabel(buyer)
    ensures MessageLines(buyer, shipment)[3] == "Dirección: " + MissingAddressLine
    ensures MessageLines(buyer, shipment)[4] == ", "
  {
    MessageLinesHead(buyer, shipment);
    var address := Address(buyer, shipment);
    assert address == ReceiverAddress(MissingAddressLine, BuyerLabel(buyer), Some(""), Some(""));
    assert CityStateLine(address) == "" + ", " + "";
  }

  /** A missing city or state name renders as the empty string. */
  lemma MissingPlaceNames(buyer: Option<Buyer>, shipment: Shipment, address: ReceiverAddress)
    requires shipment.receiverAddress == Some(address)
    ensures address.cityName.None? ==> MessageLines(buyer, shipment)[4] == ", " + address.stateName.GetOr("")
    ensures address.stateName.None? ==> MessageLines(buyer, shipment)[4] == address.cityName.GetOr("") + ", "
  {
    MessageLinesHead(buyer, shipment);
    assert Address(buyer, shipment) == address;
    CityStateLineMissing(address);
  }

  /** A missing city or state name leaves its side of the comma empty. */
  lemma CityStateLineMissing(address: ReceiverAddress)
    ensures address.cityName.None? ==> CityStateLine(address) == ", " + address.stateName.GetOr("")
    ensures address.stateName.None? ==> CityStateLine(address) == address.cityName.GetOr("") + ", "
  {
    assert address.cityName.None? ==> CityStateLine(address) == "" + ", " + address.stateName.GetOr("");
    assert address.stateName.None? ==> CityStateLine(address) == address.cityName.GetOr("") + ", " + "";
  }

  /** The item lines follow the items, in their order. */
  lemma ItemLinesInOrder(buyer: Option<Buyer>, shipment: Shipment, i: nat)
    requires i < |shipment.shippingItems|
    ensures MessageLines(buyer, shipment)[6 + i] ==
      "• " + IntToString(shipment.shippingItems[i].quantity) + "× " + shipment.shippingItems[i].description
  {
  }

  // ---------------------------------------------------------------------
  // The two worked examples of the test suite

  /** The lines follow from the header, the buyer label and the item lines
      alone, whatever their values. */
  lemma MessageLinesOfParts(buyer: Option<Buyer>, shipment: Shipment, header: string, buyerLabel: string, itemLines: seq<string>)
    requires Header(shipment) == header && BuyerLabel(buyer) == buyerLabel
    requires ItemLines(shipment.shippingItems) == itemLines
    ensures MessageLines(buyer, shipment) == LinesOf(header, buyerLabel, Address(buyer, shipment), itemLines)
  {
  }

  lemma LinesOfIs(header: string, buyerLabel: string, address: ReceiverAddress, itemLines: seq<string>, expected: seq<string>)
    requires |expected| == 6 + |itemLines| && expected[6..] == itemLines
    requires expected[0] == header && expected[1] == "Cliente: " + buyerLabel
    requires expected[2] == "Recibe: " + address.receiverName && expected[3] == "Dirección: " + address.addressLine
    requires expected[4] == CityStateLine(address) && expected[5] == "Productos:"
    ensures LinesOf(header, buyerLabel, address, itemLines) == expected
  {
    var lines := LinesOf(header, buyerLabel, address, itemLines);
    forall k | 0 <= k < |lines| ensures lines[k] == expected[k] {
      if k >= 6 {
        assert lines[k] == lines[6..][k - 6];
      }
    }
  }

  /** A buyer with a first name, a last name and a nickname. The buyer is a
      parameter fixed by the precondition, so that the verifier does not
      evaluate `Trim` on the literal names eagerly. */
  lemma FulfillmentBuyerLabel(buyer: Option<Buyer>)
    requires buyer == Some(Buyer(Some("Ana"), Some("Perez"), Some("anita")))
    ensures BuyerLabel(buyer) == "Ana Perez (anita)"
  {
    FullBuyerLabel(buyer, "Ana", "Perez", "anita");
    FulfillmentLabelText(BuyerLabel(buyer));
  }

  /** The label of `FulfillmentBuyerLabel`, spelled out; kept apart so that
      the concatenation is checked without the buyer in scope. */
  lemma FulfillmentLabelText(buyerLabel: string)
    requires buyerLabel == "Ana" + " " + "Perez" + " (" + "anita" + ")"
    ensures buyerLabel == "Ana Perez (anita)"
  {
  }

  /** A buyer with first name, last name and nickname, the names free of
      surrounding whitespace, is labelled `first last (nickname)`. */
  lemma FullBuyerLabel(buyer: Option<Buyer>, first: string, last: string, nickname: string)
    requires buyer == Some(Buyer(Some(first), Some(last), Some(nickname)))
    requires first != "" && last != "" && nickname != ""
    requires !IsWhitespace(first[0]) && !IsWhitespace(last[|last| - 1])
    ensures BuyerLabel(buyer) == first + " " + last + " (" + nickname + ")"
  {
    FullNameShape(buyer, first, last, Some(nickname));
  }

  lemma FulfillmentItemLines()
    ensures ItemLines([ShippingItem(2, "Producto A"), ShippingItem(1, "Producto B")])
      == ["• 2× Producto A", "• 1× Producto B"]
  {
    var items := [ShippingItem(2, "Producto A"), ShippingItem(1, "Producto B")];
    assert IntToString(2) == "2" && IntToString(1) == "1";
    assert ItemLine(items[0]) == "• 2× Producto A";
    assert ItemLine(items[1]) == "• 1× Producto B";
    var lines := ItemLines(items);
    assert |lines| == 2 && lines[0] == ItemLine(items[0]) && lines[1] == ItemLine(items[1]);
  }

  lemma FulfillmentPlaceLine()
    ensures CityStateLine(ReceiverAddress("Calle 123", "Ana Perez", Some("CDMX"), Some("CDMX"))) == "CDMX, CDMX"
  {
  }

  const FulfillmentAddress := ReceiverAddress("Calle 123", "Ana Perez", Some("CDMX"), Some("CDMX"))

  lemma FulfillmentLinesOfParts()
    ensures LinesOf("MercadoLibre ha enviado desde Full", "Ana Perez (anita)", FulfillmentAddress,
                    ["• 2× Producto A", "• 1× Producto B"])
      == [ "MercadoLibre ha enviado desde Full",
           "Cliente: Ana Perez (anita)",
           "Recibe: Ana Perez",
           "Dirección: Calle 123",
           "CDMX, CDMX",
           "Productos:",
           "• 2× Producto A",
           "• 1× Producto B" ]
  {
    FulfillmentPlaceLine();
    LinesOfIs("MercadoLibre ha enviado desde Full", "Ana Perez (anita)", FulfillmentAddress,
      ["• 2× Producto A", "• 1× Producto B"],
      [ "MercadoLibre ha enviado desde Full",
        "Cliente: Ana Perez (anita)",
        "Recibe: Ana Perez",
        "Dirección: Calle 123",
        "CDMX, CDMX",
        "Productos:",
        "• 2× Producto A",
        "• 1× Producto B" ]);
  }

  /** The example's lines. Buyer and shipment are parameters fixed by the
      precondition, so that the verifier does not evaluate the message
      functions on the literal values eagerly. */
  lemma FulfillmentLines(buyer: Option<Buyer>, shipment: Shipment)
    requires buyer == Some(Buyer(Some("Ana"), Some("Perez"), Some("anita")))
    requires shipment == Shipment(Some("fulfillment"),
               [ShippingItem(2, "Producto A"), ShippingItem(1, "Producto B")], Some(FulfillmentAddress))
    ensures MessageLines(buyer, shipment)
      == LinesOf("MercadoLibre ha enviado desde Full", "Ana Perez (anita)", FulfillmentAddress,
                 ["• 2× Producto A", "• 1× Producto B"])
  {
    FulfillmentBuyerLabel(buyer);
    FulfillmentItemLines();
    MessageLinesOfParts(buyer, shipment, "MercadoLibre ha enviado desde Full", "Ana Perez (anita)",
                        ["• 2× Producto A", "• 1× Producto B"]);
  }

  /** A fulfillment shipment with two items, for a buyer with full name and
      nickname: the text the test suite expects, line for line. */
  lemma FulfillmentExample()
    ensures GetShipmentMessage(
      Some(Buyer(Some("Ana"), Some("Perez"), Some("anita"))),
      Shipment(Some("fulfillment"),
               [ShippingItem(2, "Producto A"), ShippingItem(1, "Producto B")],
               Some(ReceiverAddress("Calle 123", "Ana Perez", Some("CDMX"), Some("CDMX")))))
      == Join([ "MercadoLibre ha enviado desde Full",
                "Cliente: Ana Perez (anita)",
                "Recibe: Ana Perez",
                "Dirección: Calle 123",
                "CDMX, CDMX",
                "Productos:",
                "• 2× Producto A",
                "• 1× Producto B" ], "\n")
  {
    var buyer := Some(Buyer(Some("Ana"), Some("Perez"), Some("anita")));
    var shipment := Shipment(Some("fulfillment"),
                             [ShippingItem(2, "Producto A"), ShippingItem(1, "Producto B")],
                             Some(ReceiverAddress("Calle 123", "Ana Perez", Some("CDMX"), Some("CDMX"))));
    FulfillmentLines(buyer, shipment);
    FulfillmentLinesOfParts();
    MessageIsLines(buyer, shipment);
  }

  /** A buyer object with no name parts and no nickname. */
  lemma PrepareBuyerLabel(buyer: Option<Buyer>)
    requires buyer == Some(Buyer(None, None, None))
    ensures BuyerLabel(buyer) == DefaultBuyerLabel
  {
    assert NameParts(BuyerOrEmpty(buyer)) == [];
    assert Join([], " ") == "";
    assert FullName(buyer) == "";
    BuyerLabelChoice(buyer);
  }

  lemma PrepareItemLines()
    ensures ItemLines([ShippingItem(1, "Widget")]) == ["• 1× Widget"]
  {
    var items := [ShippingItem(1, "Widget")];
    assert IntToString(1) == "1";
    assert ItemLine(items[0]) == "• 1× Widget";
    var lines := ItemLines(items);
    assert |lines| == 1 && lines[0] == ItemLine(items[0]);
  }

  const PrepareAddress := ReceiverAddress("Calle Falsa 123", "Destinatario", Some("Springfield"), Some("State"))

  lemma PreparePlaceLine()
    ensures CityStateLine(PrepareAddress) == "Springfield, State"
  {
  }

  lemma PrepareLinesOfParts()
    ensures LinesOf("Debes preparar el siguiente pedido", "Cliente", PrepareAddress, ["• 1× Widget"])
      == [ "Debes preparar el siguiente pedido",
           "Cliente: Cliente",
           "Recibe: Destinatario",
           "Dirección: Calle Falsa 123",
           "Springfield, State",
           "Productos:",
           "• 1× Widget" ]
  {
    PreparePlaceLine();
    LinesOfIs("Debes preparar el siguiente pedido", "Cliente", PrepareAddress, ["• 1× Widget"],
      [ "Debes preparar el siguiente pedido",
        "Cliente: Cliente",
        "Recibe: Destinatario",
        "Dirección: Calle Falsa 123",
        "Springfield, State",
        "Productos:",
        "• 1× Widget" ]);
  }

  /** The example's lines; the parameters are fixed by the precondition for
      the same reason as in `FulfillmentLines`. */
  lemma PrepareLines(buyer: Option<Buyer>, shipment: Shipment)
    requires buyer == Some(Buyer(None, None, None))
    requires shipment == Shipment(Some("xd_drop_off"), [ShippingItem(1, "Widget")], Some(PrepareAddress))
    ensures MessageLines(buyer, shipment)
      == LinesOf("Debes preparar el siguiente pedido", "Cliente", PrepareAddress, ["• 1× Widget"])
  {
    PrepareBuyerLabel(buyer);
    PrepareItemLines();
    MessageLinesOfParts(buyer, shipment, "Debes preparar el siguiente pedido", "Cliente", ["• 1× Widget"]);
  }

  /** A non-fulfillment shipment with one item, for a buyer with no name and
      no nickname: the text the test suite expects, line for line. */
  lemma PrepareExample()
    ensures GetShipmentMessage(
      Some(Buyer(None, None, None)),
      Shipment(Some("xd_drop_off"),
               [ShippingItem(1, "Widget")],
               Some(ReceiverAddress("Calle Falsa 123", "Destinatario", Some("Springfield"), Some("State")))))
      == Join([ "Debes preparar el siguiente pedido",
                "Cliente: Cliente",
                "Recibe: Destinatario",
                "Dirección: Calle Falsa 123",
                "Springfield, State",
                "Productos:",
                "• 1× Widget" ], "\n")
  {
    var buyer := Some(Buyer(None, None, None));
    var shipment := Shipment(Some("xd_drop_off"),
                             [ShippingItem(1, "Widget")],
                             Some(ReceiverAddress("Calle Falsa 123", "Destinatario", Some("Springfield"), Some("State"))));
    PrepareLines(buyer, shipment);
    PrepareLinesOfParts();
    MessageIsLines(buyer, shipment);
  }
}
