/**
 * The three exchange calls of backpack.py: the ticker read
 * (`get_market_price`, lines 54-70), order placement (`place_order`, lines
 * 71-92) and bulk cancel (`cancel_all_orders`, lines 95-118). The HTTP
 * round trip itself is not modelled: a call is the signed request it sends,
 * and what comes back is an abstract `Response`.
 */
module ExchangeClient {
  import opened Wrappers
  import opened Bytes
  import opened FormEncoding
  import opened Dicts
  import opened Sorting
  import opened Signer

  /** `MARKET` */
  const SOL_USDC: Text := Ascii("SOL_USDC")

  const ORDER_EXECUTE: Text := Ascii("orderExecute")
  const ORDER_CANCEL_ALL: Text := Ascii("orderCancelAll")

  const SYMBOL: Text := Ascii("symbol")
  const ORDER_TYPE: Text := Ascii("orderType")
  const SIDE: Text := Ascii("side")
  const PRICE: Text := Ascii("price")
  const QUANTITY: Text := Ascii("quantity")
  const LIMIT: Text := Ascii("Limit")

  /** The window `cancel_all_orders` writes into its headers by hand. */
  const CANCEL_WINDOW: int := 5000

  datatype Side = Bid | Ask {
    function Name(): Text {
      match this
      case Bid => Ascii("Bid")
      case Ask => Ascii("Ask")
    }
  }

  /** The API key and the Ed25519-then-base64 signer, both loaded at start-up. */
  datatype Credentials = Credentials(apiKey: Text, sign: Text -> Text)

  /** A signed call as sent: its headers and the parameters it signs and sends as its JSON body. */
  datatype Request = Request(headers: map<Text, Text>, payload: seq<Pair>)

  /**
   * What comes back: the status code, the raw text, and what
   * `response.json()` yields (`None` when it raises `ValueError`).
   */
  datatype Response<J> = Response(status: int, text: Text, json: Option<J>)

  /**
   * How a call ends: the parsed body, or one of the two failures the source
   * logs (an unwanted status with the body text, or a body that is not JSON).
   */
  datatype Reply<J> = Parsed(body: J) | BadStatus(status: int, text: Text) | NoJson(status: int) {

    /** What the Python function returns: the body, or `None`. */
    function Returned(): Option<J> {
      if Parsed? then Some(body) else None
    }
  }

  // ---------------------------------------------------------------------
  // place_order
  // ---------------------------------------------------------------------

  /** The statuses `place_order` accepts. */
  const PLACE_ACCEPTED: set<int> := {200, 201, 202}

  /** `order_data`, in the order the source writes its keys. */
  function OrderData(side: Side, priceText: Text, quantity: Text): (data: seq<Pair>)
    ensures DistinctKeys(data)
    ensures INSTRUCTION !in Keys(data)
  {
    var d4 := [(QUANTITY, quantity)];
    var d3 := [(PRICE, priceText)] + d4;
    var d2 := [(SIDE, side.Name())] + d3;
    var d1 := [(ORDER_TYPE, LIMIT)] + d2;
    var d := [(SYMBOL, SOL_USDC)] + d1;
    assert d[1..] == d1 && d1[1..] == d2 && d2[1..] == d3 && d3[1..] == d4 && d4[1..] == [];
    assert Keys(d4) == {QUANTITY};
    assert Keys(d3) == {PRICE, QUANTITY};
    assert Keys(d2) == {SIDE, PRICE, QUANTITY};
    assert Keys(d1) == {ORDER_TYPE, SIDE, PRICE, QUANTITY};
    assert Keys(d) == {SYMBOL, ORDER_TYPE, SIDE, PRICE, QUANTITY};
    assert DistinctKeys(d4);
    assert DistinctKeys(d3);
    assert DistinctKeys(d2);
    assert DistinctKeys(d1);
    assert d == [(SYMBOL, SOL_USDC), (ORDER_TYPE, LIMIT), (SIDE, side.Name()), (PRICE, priceText), (QUANTITY, quantity)];
    [(SYMBOL, SOL_USDC), (ORDER_TYPE, LIMIT), (SIDE, side.Name()), (PRICE, priceText), (QUANTITY, quantity)]
  }

  /** The request `place_order` posts: `order_data` signed as `orderExecute` with the default window. */
  function PlaceOrderRequest(creds: Credentials, side: Side, priceText: Text, quantity: Text, timestamp: int): (r: Request)
    ensures r.headers == GetHeaders(creds.apiKey, creds.sign, ORDER_EXECUTE, r.payload, timestamp)
    ensures DistinctKeys(r.payload) && INSTRUCTION !in Keys(r.payload)
    ensures SignedItems(ORDER_EXECUTE, r.payload) == SortedOrderItems(side, priceText, quantity)
  {
    var data := OrderData(side, priceText, quantity);
    PlaceOrderSignedItems(side, priceText, quantity);
    Request(GetHeaders(creds.apiKey, creds.sign, ORDER_EXECUTE, data, timestamp), data)
  }

  /** The status and JSON checks of `place_order`. */
  function PlaceOrderReply<J>(r: Response<J>): (reply: Reply<J>)
    ensures reply.BadStatus? <==> r.status !in PLACE_ACCEPTED
    ensures reply.BadStatus? ==> reply.status == r.status && reply.text == r.text
    ensures reply.NoJson? <==> r.status in PLACE_ACCEPTED && r.json.None?
    ensures reply.Returned() == if r.status in PLACE_ACCEPTED then r.json else None
  {
    if r.status !in PLACE_ACCEPTED then BadStatus(r.status, r.text)
    else if r.json.None? then NoJson(r.status)
    else Parsed(r.json.value)
  }

  // ---------------------------------------------------------------------
  // cancel_all_orders
  // ---------------------------------------------------------------------

  /**
   * The request `cancel_all_orders` sends: `{'symbol': symbol}` signed as
   * `orderCancelAll`, under a header block the function writes out itself.
   */
  function CancelAllRequest(creds: Credentials, symbol: Text, timestamp: int): (r: Request)
    ensures r.payload == [(SYMBOL, symbol)]
    ensures r.headers == GetHeaders(creds.apiKey, creds.sign, ORDER_CANCEL_ALL, r.payload, timestamp)
    ensures SignedItems(ORDER_CANCEL_ALL, r.payload) == [(INSTRUCTION, ORDER_CANCEL_ALL), (SYMBOL, symbol)]
  {
    var payload := [(SYMBOL, symbol)];
    CancelAllSignedItems(symbol);
    var signature := GenerateSignature(creds.sign, ORDER_CANCEL_ALL, payload, timestamp);
    var headers := map[X_API_KEY := creds.apiKey,
                       X_TIMESTAMP := Decimal(timestamp),
                       X_WINDOW := Decimal(CANCEL_WINDOW),
                       X_SIGNATURE := signature,
                       CONTENT_TYPE := APPLICATION_JSON];
    Request(headers, payload)
  }

  /** The status and JSON checks of `cancel_all_orders`: only 200 is success. */
  function CancelAllReply<J>(r: Response<J>): (reply: Reply<J>)
    ensures reply.BadStatus? <==> r.status != 200
    ensures reply.BadStatus? ==> reply.status == r.status && reply.text == r.text
    ensures reply.NoJson? <==> r.status == 200 && r.json.None?
    ensures reply.Returned() == if r.status == 200 then r.json else None
  {
    if r.status == 200 then
      if r.json.Some? then Parsed(r.json.value) else NoJson(r.status)
    else BadStatus(r.status, r.text)
  }

  /**
   * The two checks differ only in the statuses they accept: whatever cancel
   * accepts, placement accepts too, and 201 and 202 are the statuses that
   * separate them.
   */
  lemma CancelStricterThanPlace<J>(r: Response<J>)
    ensures CancelAllReply(r).Returned() == if r.status == 200 then PlaceOrderReply(r).Returned() else None
    ensures CancelAllReply(r).Parsed? ==> PlaceOrderReply(r) == CancelAllReply(r)
    ensures PlaceOrderReply(r).Parsed? && !CancelAllReply(r).Parsed? <==> r.status in {201, 202} && r.json.Some?
  {
  }

  /** The window `cancel_all_orders` writes into its own header block is 5000 milliseconds. */
  lemma CancelWindowHeader(creds: Credentials, symbol: Text, timestamp: int)
    ensures ParseDecimal(CancelAllRequest(creds, symbol, timestamp).headers[X_WINDOW]) == Some(5000)
  {
    DecimalRoundTrip(CANCEL_WINDOW);
  }

  // ---------------------------------------------------------------------
  // What the two signed calls sign
  // ---------------------------------------------------------------------

  /** The signed keys of an order, in byte order. */
  lemma OrderKeysAscending()
    ensures Below(INSTRUCTION, ORDER_TYPE) && Below(ORDER_TYPE, PRICE) && Below(PRICE, QUANTITY)
    ensures Below(QUANTITY, SIDE) && Below(SIDE, SYMBOL)
  {
  }

  /** The six pairs an order signs, in the order `sorted` puts them. */
  function SortedOrderItems(side: Side, priceText: Text, quantity: Text): (items: seq<Pair>)
    ensures Sorted(items)
  {
    var e5 := [(SYMBOL, SOL_USDC)];
    var e4 := [(SIDE, side.Name())] + e5;
    var e3 := [(QUANTITY, quantity)] + e4;
    var e2 := [(PRICE, priceText)] + e3;
    var e1 := [(ORDER_TYPE, LIMIT)] + e2;
    OrderKeysAscending();
    assert e1[1..] == e2 && e2[1..] == e3 && e3[1..] == e4 && e4[1..] == e5;
    assert Sorted(e4);
    assert Sorted(e3);
    assert Sorted(e2);
    assert Sorted(e1);
    var items := [(INSTRUCTION, ORDER_EXECUTE)] + e1;
    assert items[1..] == e1;
    assert items == [(INSTRUCTION, ORDER_EXECUTE), (ORDER_TYPE, LIMIT), (PRICE, priceText),
                     (QUANTITY, quantity), (SIDE, side.Name()), (SYMBOL, SOL_USDC)];
    [(INSTRUCTION, ORDER_EXECUTE), (ORDER_TYPE, LIMIT), (PRICE, priceText),
     (QUANTITY, quantity), (SIDE, side.Name()), (SYMBOL, SOL_USDC)]
  }

  /**
   * `orderExecute` signs six pairs, in this order: the instruction, then
   * orderType, price, quantity, side and symbol.
   */
  lemma PlaceOrderSignedItems(side: Side, priceText: Text, quantity: Text)
    ensures SignedItems(ORDER_EXECUTE, OrderData(side, priceText, quantity)) == SortedOrderItems(side, priceText, quantity)
  {
    OrderMergedPairs(side, priceText, quantity);
    SortedUnique(SignedItems(ORDER_EXECUTE, OrderData(side, priceText, quantity)), SortedOrderItems(side, priceText, quantity));
  }

  lemma OrderMergedPairs(side: Side, priceText: Text, quantity: Text)
    ensures multiset(WithInstruction(ORDER_EXECUTE, OrderData(side, priceText, quantity)))
         == multiset(SortedOrderItems(side, priceText, quantity))
  {
    WithInstructionPairs(ORDER_EXECUTE, OrderData(side, priceText, quantity));
    OrderItemsPermuted(side, priceText, quantity);
  }

  lemma OrderItemsPermuted(side: Side, priceText: Text, quantity: Text)
    ensures multiset(SortedOrderItems(side, priceText, quantity))
         == multiset(OrderData(side, priceText, quantity)) + multiset{(INSTRUCTION, ORDER_EXECUTE)}
  {
  }

  /** `orderCancelAll` signs two pairs: the instruction, then the symbol. */
  lemma CancelAllSignedItems(symbol: Text)
    ensures SignedItems(ORDER_CANCEL_ALL, [(SYMBOL, symbol)]) == [(INSTRUCTION, ORDER_CANCEL_ALL), (SYMBOL, symbol)]
  {
    var expected := [(INSTRUCTION, ORDER_CANCEL_ALL), (SYMBOL, symbol)];
    assert DistinctKeys([(SYMBOL, symbol)]);
    WithInstructionPairs(ORDER_CANCEL_ALL, [(SYMBOL, symbol)]);
    assert Below(INSTRUCTION, SYMBOL);
    assert Sorted(expected);
    SortedUnique(SignedItems(ORDER_CANCEL_ALL, [(SYMBOL, symbol)]), expected);
  }

  // ---------------------------------------------------------------------
  // get_market_price
  // ---------------------------------------------------------------------

  /**
   * The ticker fields the price is chosen from: present or absent, with the
   * number `float(...)` reads from each, taken as an exact real.
   */
  datatype Ticker = Ticker(lastPrice: Option<real>, high: Option<real>, low: Option<real>)

  function Min(a: real, b: real): real { if a <= b then a else b }
  function Max(a: real, b: real): real { if a <= b then b else a }

  /**
   * The price `get_market_price` returns: `lastPrice` if present, else the
   * midpoint of `high` and `low` if both are present, else `None`.
   */
  function MarketPrice(t: Ticker): (price: Option<real>)
    ensures t.lastPrice.Some? ==> price == t.lastPrice
    ensures price.None? <==> t.lastPrice.None? && (t.high.None? || t.low.None?)
    ensures t.lastPrice.None? && price.Some? ==>
              && Min(t.high.value, t.low.value) <= price.value <= Max(t.high.value, t.low.value)
              && price.value - t.low.value == t.high.value - price.value
  {
    if t.lastPrice.Some? then t.lastPrice
    else if t.high.Some? && t.low.Some? then Some((t.high.value + t.low.value) / 2.0)
    else None
  }
}
