/**
 * One quoting cycle of the bot (`market_maker_cycle`, backpack.py:120-139):
 * read the mid price, cancel every open order, then try a bid below the mid
 * and an ask above it. The exchange is abstract: a `World` scripts what
 * each call returns or whether it raises, and the cycle records the calls
 * it makes, in order, as a trace.
 */
module MarketMaker {
  import opened Wrappers
  import opened Bytes
  import opened FormEncoding
  import opened Sorting
  import opened Signer
  import opened ExchangeClient

  /** `BID_SPREAD` and `ASK_SPREAD`, as exact reals. */
  const BID_SPREAD: real := 0.0005
  const ASK_SPREAD: real := 0.0005

  /** `POSITION_SIZE`, as `str` renders it when it is signed. */
  const POSITION_SIZE: Text := Ascii("0.1")

  /** `mid_price * (1 - BID_SPREAD)`, over the reals. */
  function BidPrice(mid: real): (bid: real)
    ensures mid > 0.0 ==> 0.0 < bid < mid
    ensures mid - bid == mid * BID_SPREAD
  {
    mid * (1.0 - BID_SPREAD)
  }

  /** `mid_price * (1 + ASK_SPREAD)`, over the reals. */
  function AskPrice(mid: real): (ask: real)
    ensures mid > 0.0 ==> mid < ask
    ensures ask - mid == mid * ASK_SPREAD
  {
    mid * (1.0 + ASK_SPREAD)
  }

  /** A positive mid is straddled by the two quotes, which sit the two spreads apart. */
  lemma QuotesStraddleMid(mid: real)
    requires mid > 0.0
    ensures BidPrice(mid) < mid < AskPrice(mid)
    ensures AskPrice(mid) - BidPrice(mid) == mid * (BID_SPREAD + ASK_SPREAD)
  {
  }

  /**
   * A call the cycle makes to the exchange, with its arguments and, for a
   * signed call, the millisecond timestamp it signs. `RequestOf` gives what
   * a signed call sends.
   */
  datatype Call =
    | FetchTicker(symbol: Text)
    | CancelAll(symbol: Text, timestamp: int)
    | PlaceOrder(side: Side, price: real, quantity: Text, timestamp: int)

  /** How a call the exchange answers ends: with a value, or by raising. */
  datatype Attempt<T> = Returned(value: T) | Raised

  /**
   * The exchange as one cycle meets it: the ticker read, and for each signed
   * call the millisecond clock when it is made and what it comes back with.
   */
  datatype World<J> = World(ticker: Attempt<Ticker>,
                            cancelAt: int, cancel: Attempt<Response<J>>,
                            bidAt: int, bid: Attempt<Response<J>>,
                            askAt: int, ask: Attempt<Response<J>>)

  /** The credentials, and `f"{price:.2f}"` as an uninterpreted price formatter. */
  datatype Config = Config(creds: Credentials, formatPrice: real -> Text)

  /** What makes a cycle end by raising. */
  datatype Fault =
    | TickerRaised   // the ticker request or its JSON decoding raised
    | NoPrice        // `None * (1 - BID_SPREAD)` raises `TypeError`
    | CancelRaised   // the cancel request raised; it is not inside a `try`
    | UnboundOrder   // a placement raised, so its local is unbound at the report

  /**
   * How a cycle ends: it reports the two orders (what `place_order`
   * returned for each), it skips the round for want of a price, or it raises.
   */
  datatype CycleEnd<J> = Reported(bidOrder: Option<J>, askOrder: Option<J>) | Skipped | Aborted(fault: Fault)

  /** The price the ticker gives, if the ticker read returned. */
  function Mid(world: World): (mid: Option<real>)
    ensures world.ticker.Raised? ==> mid.None?
    ensures world.ticker.Returned? && world.ticker.value.lastPrice.Some? ==> mid == world.ticker.value.lastPrice
    ensures mid.None? <==> world.ticker.Raised? || (world.ticker.value.lastPrice.None? &&
                                                   (world.ticker.value.high.None? || world.ticker.value.low.None?))
  {
    if world.ticker.Returned? then MarketPrice(world.ticker.value) else None
  }

  /** `cancel_all_orders(MARKET)`, made at `timestamp`. */
  function CancelCall(timestamp: int): Call {
    CancelAll(SOL_USDC, timestamp)
  }

  /** `place_order(side, price, POSITION_SIZE)`, made at `timestamp`. */
  function QuoteCall(side: Side, price: real, timestamp: int): Call {
    PlaceOrder(side, price, POSITION_SIZE, timestamp)
  }

  /** The instruction a cancel or placement call signs. */
  function Instruction(c: Call): Text
    requires !c.FetchTicker?
  {
    if c.CancelAll? then ORDER_CANCEL_ALL else ORDER_EXECUTE
  }

  /** The signed request a cancel or placement call sends. */
  function RequestOf(cfg: Config, c: Call): (req: Request)
    requires !c.FetchTicker?
    ensures req.headers == GetHeaders(cfg.creds.apiKey, cfg.creds.sign, Instruction(c), req.payload, c.timestamp)
    ensures c.CancelAll? ==>
              SignedItems(ORDER_CANCEL_ALL, req.payload) == [(INSTRUCTION, ORDER_CANCEL_ALL), (SYMBOL, c.symbol)]
    ensures c.PlaceOrder? ==>
              SignedItems(ORDER_EXECUTE, req.payload) == SortedOrderItems(c.side, cfg.formatPrice(c.price), c.quantity)
  {
    match c
    case CancelAll(symbol, timestamp) => CancelAllRequest(cfg.creds, symbol, timestamp)
    case PlaceOrder(side, price, quantity, timestamp) =>
      PlaceOrderRequest(cfg.creds, side, cfg.formatPrice(price), quantity, timestamp)
  }

  /** The four calls of a full cycle, in the order the source makes them. */
  function PlannedCalls(world: World, mid: real): seq<Call> {
    [FetchTicker(SOL_USDC),
     CancelCall(world.cancelAt),
     QuoteCall(Bid, BidPrice(mid), world.bidAt),
     QuoteCall(Ask, AskPrice(mid), world.askAt)]
  }

  /** Where a call stands in a cycle: ticker, cancel, bid, ask. */
  function Stage(c: Call): nat {
    match c
    case FetchTicker(_) => 0
    case CancelAll(_, _) => 1
    case PlaceOrder(side, _, _, _) => if side == Bid then 2 else 3
  }

  /** Every call is made at a later stage than the calls before it. */
  predicate InCycleOrder(calls: seq<Call>) {
    forall i, j | 0 <= i < j < |calls| :: Stage(calls[i]) < Stage(calls[j])
  }

  /** Every prefix of a full cycle's calls is in cycle order. */
  lemma PlanInOrder(plan: seq<Call>)
    requires |plan| == 4 && forall k | 0 <= k < 4 :: Stage(plan[k]) == k
    ensures forall n | 0 <= n <= 4 :: InCycleOrder(plan[..n])
  {
  }

  /** What `place_order` hands back to the cycle, when it returns. */
  function Placed<J>(r: Response<J>): Option<J> {
    PlaceOrderReply(r).Returned()
  }

  /** A Python local that a `try` block may or may not have bound. */
  datatype Local<T> = Unbound | Bound(value: T)

  /**
   * One `try: order = place_order(...) except: pass` block: the call is made
   * and appended to the trace; the local is bound only if `place_order`
   * returned, and then to what it returned.
   */
  method TryPlace<J>(side: Side, price: real, timestamp: int, attempt: Attempt<Response<J>>, trace: seq<Call>)
    returns (calls: seq<Call>, order: Local<Option<J>>)
    ensures calls == trace + [QuoteCall(side, price, timestamp)]
    ensures order.Bound? <==> attempt.Returned?
    ensures attempt.Returned? ==> order.value == Placed(attempt.value)
  {
    calls := trace + [QuoteCall(side, price, timestamp)];
    order := Unbound;
    if attempt.Returned? {
      var reply := PlaceOrderReply(attempt.value);
      order := Bound(reply.Returned());
    }
  }

  /**
   * The two `try` blocks after the cancel (backpack.py:131-138): the bid is
   * attempted, then the ask, whatever became of the bid.
   */
  method QuoteBothSides<J>(world: World<J>, mid: real, trace: seq<Call>)
    returns (calls: seq<Call>, bidOrder: Local<Option<J>>, askOrder: Local<Option<J>>)
    ensures calls == trace + [QuoteCall(Bid, BidPrice(mid), world.bidAt),
                              QuoteCall(Ask, AskPrice(mid), world.askAt)]
    ensures bidOrder.Bound? <==> world.bid.Returned?
    ensures askOrder.Bound? <==> world.ask.Returned?
    ensures world.bid.Returned? ==> bidOrder.value == Placed(world.bid.value)
    ensures world.ask.Returned? ==> askOrder.value == Placed(world.ask.value)
  {
    calls, bidOrder := TryPlace(Bid, BidPrice(mid), world.bidAt, world.bid, trace);
    calls, askOrder := TryPlace(Ask, AskPrice(mid), world.askAt, world.ask, calls);
  }

  /**
   * `market_maker_cycle` as written. The ticker comes first, then the
   * cancel, then the bid, then the ask. The cancel's result is ignored, so
   * once it returns both placements are made whatever it returned, and a
   * bid that raises does not stop the ask. There is no guard on the price:
   * with none the cycle raises before any order call. Nor is any order local
   * bound before its `try`: if either placement raised, the report line
   * raises.
   */
  method MarketMakerCycle<J>(world: World<J>) returns (calls: seq<Call>, end: CycleEnd<J>)
    ensures InCycleOrder(calls)
    ensures 1 <= |calls| <= 4 && calls[0] == FetchTicker(SOL_USDC)
    ensures Mid(world).None? ==> calls == [FetchTicker(SOL_USDC)]
    ensures world.ticker.Raised? ==> end == Aborted(TickerRaised)
    ensures world.ticker.Returned? && Mid(world).None? ==> end == Aborted(NoPrice)
    ensures Mid(world).Some? ==>
              && calls == PlannedCalls(world, Mid(world).value)[..|calls|]
              && (world.cancel.Raised? ==> |calls| == 2 && end == Aborted(CancelRaised))
              && (world.cancel.Returned? ==> |calls| == 4)
    ensures end.Reported? <==>
              Mid(world).Some? && world.cancel.Returned? && world.bid.Returned? && world.ask.Returned?
    ensures end.Reported? ==> end.bidOrder == Placed(world.bid.value) && end.askOrder == Placed(world.ask.value)
    ensures Mid(world).Some? && world.cancel.Returned? && (world.bid.Raised? || world.ask.Raised?) ==>
              end == Aborted(UnboundOrder)
    ensures !end.Skipped?
  {
    calls := [FetchTicker(SOL_USDC)];
    if world.ticker.Raised? {
      end := Aborted(TickerRaised);
      return;
    }
    var midPrice := MarketPrice(world.ticker.value);
    if midPrice.None? {
      end := Aborted(NoPrice);
      return;
    }
    ghost var plan := PlannedCalls(world, midPrice.value);
    PlanInOrder(plan);

    calls := calls + [CancelCall(world.cancelAt)];
    assert calls == plan[..2];
    if world.cancel.Raised? {
      end := Aborted(CancelRaised);
      return;
    }

    var bidOrder, askOrder;
    calls, bidOrder, askOrder := QuoteBothSides(world, midPrice.value, calls);
    assert calls == plan[..4];
    if bidOrder.Unbound? || askOrder.Unbound? {
      end := Aborted(UnboundOrder);
    } else {
      end := Reported(bidOrder.value, askOrder.value);
    }
  }

  /**
   * A ticker with neither `lastPrice` nor both of `high` and `low` makes the
   * as-written cycle raise instead of skipping the round.
   */
  method NoPriceCounterexample() returns (world: World<int>, end: CycleEnd<int>)
    ensures world.ticker == Returned(Ticker(None, Some(1.0), None))
    ensures end == Aborted(NoPrice)
  {
    var ticker := Ticker(None, Some(1.0), None);
    world := World(Returned(ticker), 0, Raised, 0, Raised, 0, Raised);
    var calls;
    calls, end := MarketMakerCycle(world);
  }

  /**
   * A bid whose request raises makes the as-written cycle raise at its
   * report, although the ask was placed and answered.
   */
  method UnboundBidCounterexample() returns (world: World<int>, calls: seq<Call>, end: CycleEnd<int>)
    ensures world.bid.Raised? && world.ask.Returned?
    ensures |calls| == 4 && calls[3].PlaceOrder? && calls[3].side == Ask
    ensures end == Aborted(UnboundOrder)
  {
    var ticker := Ticker(Some(150.0), None, None);
    world := World(Returned(ticker), 0, Returned(Response(200, [], None)), 1, Raised, 2,
                   Returned(Response(201, [], Some(7))));
    calls, end := MarketMakerCycle(world);
  }

  /** A placement's result as the repaired cycle reports it: `None` if it raised. */
  function BoundOrNone<J>(order: Local<Option<J>>): Option<J> {
    if order.Bound? then order.value else None
  }

  /**
   * The cycle with both latent faults repaired: no price skips the round
   * after the ticker read, and a placement that raised is reported as
   * `None`, like one the exchange refused.
   */
  method GuardedCycle<J>(world: World<J>) returns (calls: seq<Call>, end: CycleEnd<J>)
    ensures InCycleOrder(calls)
    ensures 1 <= |calls| <= 4 && calls[0] == FetchTicker(SOL_USDC)
    ensures world.ticker.Raised? ==> calls == [FetchTicker(SOL_USDC)] && end == Aborted(TickerRaised)
    ensures world.ticker.Returned? && Mid(world).None? ==> calls == [FetchTicker(SOL_USDC)] && end == Skipped
    ensures Mid(world).Some? ==>
              && calls == PlannedCalls(world, Mid(world).value)[..|calls|]
              && (world.cancel.Raised? ==> |calls| == 2 && end == Aborted(CancelRaised))
              && (world.cancel.Returned? ==> |calls| == 4)
    ensures end.Reported? <==> Mid(world).Some? && world.cancel.Returned?
    ensures end.Reported? ==>
              && end.bidOrder == (if world.bid.Returned? then Placed(world.bid.value) else None)
              && end.askOrder == (if world.ask.Returned? then Placed(world.ask.value) else None)
    ensures end.Aborted? ==> end.fault in {TickerRaised, CancelRaised}
  {
    calls := [FetchTicker(SOL_USDC)];
    if world.ticker.Raised? {
      end := Aborted(TickerRaised);
      return;
    }
    var midPrice := MarketPrice(world.ticker.value);
    if midPrice.None? {
      end := Skipped;
      return;
    }
    ghost var plan := PlannedCalls(world, midPrice.value);
    PlanInOrder(plan);

    calls := calls + [CancelCall(world.cancelAt)];
    assert calls == plan[..2];
    if world.cancel.Raised? {
      end := Aborted(CancelRaised);
      return;
    }

    var bidOrder, askOrder;
    calls, bidOrder, askOrder := QuoteBothSides(world, midPrice.value, calls);
    assert calls == plan[..4];
    end := Reported(BoundOrNone(bidOrder), BoundOrNone(askOrder));
  }
}
