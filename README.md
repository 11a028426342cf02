# Backpack market maker: a Dafny model

This project models the core of `backpack.py`. That file is a market-making bot for the SOL_USDC pair on
the Backpack exchange. Each cycle it reads the ticker, cancels every open order, and places a limit bid
just below the mid price and a limit ask just above it. Every order call is signed with Ed25519. The model covers:

- **Request signing** (`generate_signature`, `get_headers`). The bot merges an `instruction` entry into
  the parameters and sorts the pairs. It form-encodes them and appends
  `&timestamp=…&window=…`, and the headers carry the same timestamp and window.
  Module `Signer`, with its building blocks:
  - `Bytes`: Python `str` as UTF-8 bytes, its code-point order, `str(int)`.
  - `FormEncoding`: `urlencode` and `quote_plus`, with a strict inverse.
  - `Dicts`: a `dict` as its ordered items, with `d[k] = v` and `**` unpacking.
  - `Sorting`: `sorted` on (key, value) tuples.
- **The exchange calls** (`place_order`, `cancel_all_orders`, `get_market_price`), module `ExchangeClient`.
  It covers the request each signed call sends and how a response is classified. It also covers how the
  price is chosen from the ticker fields.
- **One cycle** (`market_maker_cycle`), module `MarketMaker`. The cycle is a method over a scripted
  exchange (`World`). It returns the trace of calls it made and how it ended: a report of both orders,
  or the exception that escaped.

Python values map to Dafny as follows:
- Text is a sequence of bytes, and Python's order on `str` is byte-lexicographic order (`Below`).
- A `dict` is its list of items in insertion order, with distinct keys.
- `sorted` is insertion sort. Python compares the tuples by key and then by value, and `SortedUnique`
  shows that every correct sort gives the same result.
- Prices are exact reals.

Features a market maker of this kind often has, which this code lacks and the model therefore lacks too:
- **Tick and step rounding, minimum-quantity gate:** none. The price is only formatted with
  `f"{price:.2f}"`, and the size is the fixed `POSITION_SIZE` 0.1.
- **Skipping a round without a price:** none. `get_market_price` returns `None` and the cycle then
  raises `TypeError` (see Findings).
- **Recovery after a failure:** none. Any exception that escapes `market_maker_cycle` also escapes the
  `while True` driver and ends the process.
- **Typed errors per call:** none. The code returns `None` for every failure. `Reply` keeps the
  distinction between a refused status and an unparseable body only for the proofs, and
  `Reply.Returned` is what the Python function returns.

## Model

| member | source | states |
|---|---|---|
| `Bytes.Decimal` | backpack.py:49-50 | `str(n)` is non-empty, starts with `-` exactly when `n` is negative, and is otherwise digits only |
| `Bytes.DecimalRoundTrip` | backpack.py:49-50 | `str(n)` of any int parses back to `n`: the decimal text in a header or in the signing string determines the number |
| `Bytes.BelowTotal` | backpack.py:40 | the order `sorted` uses on keys is total: any two distinct texts are ordered one way or the other |
| `FormEncoding.QuotePlus` | backpack.py:40 | every byte of `quote_plus`'s output is unreserved, `+` or `%`, so none is `&` or `=` |
| `FormEncoding.UnquoteQuote` | backpack.py:40 | decoding undoes `quote_plus`, so two different keys or values never encode alike |
| `FormEncoding.QuotePlusUnreserved` | backpack.py:40 | text made of unreserved bytes (digits, `timestamp`, `window`) is left unchanged by `quote_plus` |
| `FormEncoding.UrlEncode` | backpack.py:40 | `urlencode` gives the empty string exactly for no pairs (its inverse is `UrlEncodeRoundTrip`) |
| `FormEncoding.UrlEncodeRoundTrip` | backpack.py:40 | `urlencode` of a list of pairs parses back to exactly those pairs, in order |
| `FormEncoding.UrlEncodeAppend` | backpack.py:40-41 | encoding two non-empty lists of pairs is encoding each and joining them with `&` |
| `Dicts.Put` | backpack.py:39 | `d[k] = v` leaves the keys of `d` plus `k` |
| `Dicts.PutAll` | backpack.py:39 | `{**d, **ps}` has the keys of both dicts |
| `Dicts.PutAllPairs` | backpack.py:39 | `{**d, **ps}` holds every pair of `ps` and exactly those pairs of `d` whose key `ps` does not override |
| `Dicts.SamePairsSameMultiset` | backpack.py:39 | two dicts holding the same pairs have the same items with the same multiplicities, whatever their insertion order |
| `Sorting.Insert` | backpack.py:40 | inserting into a sorted list keeps it sorted and adds exactly the new pair |
| `Sorting.SortItems` | backpack.py:40 | `sorted(items)` is in ascending tuple order and is a permutation of `items` |
| `Sorting.SortedUnique` | backpack.py:40 | two sorted permutations of the same pairs are equal, so the result does not depend on how `sorted` works |
| `Sorting.SortPermutationInvariant` | backpack.py:40 | the sorted items depend only on which pairs there are, not on their order |
| `Sorting.SortKeys` | backpack.py:40 | sorting a dict's items keeps its keys, each exactly once |
| `Sorting.SortedDictAscending` | backpack.py:40 | the sorted items of a dict have strictly ascending keys |
| `Signer.WithInstructionPairs` | backpack.py:39 | the merged dict holds every pair of `params`, plus `('instruction', instruction)` exactly when `params` has no `instruction` key |
| `Signer.WithInstruction` | backpack.py:39 | `{'instruction': instruction, **params}` has distinct keys: those of `params` plus `instruction` |
| `Signer.SigningString` | backpack.py:39-41 | the signing string ends with the `&timestamp=…&window=…` suffix, after a non-empty encoded part (what it parses to: `Signer.SigningStringParses`) |
| `Signer.GenerateSignature` | backpack.py:38-43 | the signature is `sign` applied to the signing string, and that string parses to the signed pairs followed by `timestamp` and `window` with their decimal values |
| `Signer.GetHeaders` | backpack.py:45-53 | exactly the five headers; `X-Timestamp` and `X-Window` are `str(timestamp)` and `str(window)`; `X-Signature` signs the signing string of the same arguments; `X-API-Key` is the key and `Content-Type` is `application/json` |
| `Signer.SignedItemsShape` | backpack.py:39-40 | the signed pairs have strictly ascending, distinct keys: the keys of `params` plus `instruction`, and exactly the merged dict's pairs |
| `Signer.InstructionSigned` | backpack.py:39 | exactly one `instruction` pair is signed; its value comes from `params` when `params` has that key, and from the argument otherwise |
| `Signer.SigningStringOrderIndependent` | backpack.py:38-41 | two dicts with the same pairs in any insertion order give the same signing string |
| `Signer.SignedItemsNonEmpty` | backpack.py:39-40 | at least one pair is always signed, so the encoded part is never empty |
| `Signer.TimeWindowEncoded` | backpack.py:41 | the fixed suffix is `&` followed by the encoding of `timestamp` and `window` with their decimal values |
| `Signer.SigningStringParses` | backpack.py:38-41 | the signing string parses to the signed pairs in order, followed by `timestamp` and `window` carrying the values passed in |
| `Signer.SigningStringInjective` | backpack.py:38-41 | equal signing strings come from the same signed pairs, timestamp and window |
| `Signer.DefaultWindowText` | backpack.py:38 | the default window renders as `5000` |
| `Signer.DefaultWindowSigned` | backpack.py:38-41 | without a window argument the string signs `window=5000` |
| `Signer.SignedHeadersLookup` | backpack.py:47-53 | the header map has exactly the five names, each with its value; `Content-Type` is `application/json` |
| `Signer.HeadersMatchSignedValues` | backpack.py:45-53 | `get_headers` gives exactly five headers; `X-Timestamp` and `X-Window` parse to the signed timestamp and window and equal the values in the signing string; `X-Signature` signs that string |
| `Signer.HeaderNamesDistinct` | backpack.py:47-52 | the five header names are pairwise distinct |
| `ExchangeClient.PlaceOrderReply` | backpack.py:84-92 | a status outside {200, 201, 202} is refused with its status and text; an accepted status whose body is not JSON gives no body; the function returns the parsed body exactly when both checks pass |
| `ExchangeClient.CancelAllReply` | backpack.py:110-118 | only status 200 is accepted; the function returns the parsed body exactly when the status is 200 and the body is JSON |
| `ExchangeClient.CancelStricterThanPlace` | backpack.py:84-118 | whatever cancel accepts, placement accepts the same way; they differ exactly on 201 and 202 with a JSON body |
| `ExchangeClient.PlaceOrderRequest` | backpack.py:72-82 | the order carries the headers `get_headers` builds for its own payload and timestamp; the payload is a dict without an `instruction` key, and it signs the six pairs of `SortedOrderItems` in that order |
| `ExchangeClient.CancelAllRequest` | backpack.py:96-108 | the payload is `{'symbol': symbol}`; the inline header block equals what `get_headers` builds for it with its default window; it signs `instruction=orderCancelAll` and then the symbol |
| `ExchangeClient.CancelWindowHeader` | backpack.py:104 | the `X-Window` that `cancel_all_orders` writes parses to 5000 |
| `ExchangeClient.OrderData` | backpack.py:74-80 | `order_data` has distinct keys, none of them `instruction` |
| `ExchangeClient.SortedOrderItems` | backpack.py:74-81 | the six pairs an order signs, listed in ascending order |
| `ExchangeClient.OrderMergedPairs` | backpack.py:39-81 | merging `orderExecute` into `order_data` gives exactly those six pairs |
| `ExchangeClient.OrderItemsPermuted` | backpack.py:73-80 | the six pairs are `order_data` plus the instruction pair |
| `ExchangeClient.PlaceOrderSignedItems` | backpack.py:73-81 | an order signs `instruction`, `orderType`, `price`, `quantity`, `side`, `symbol`, in that order |
| `ExchangeClient.CancelAllSignedItems` | backpack.py:97-100 | a cancel signs `instruction=orderCancelAll` and then the symbol |
| `ExchangeClient.MarketPrice` | backpack.py:60-70 | `lastPrice` wins whenever present; otherwise the price is equidistant from `high` and `low` and lies between them; there is no price exactly when `lastPrice` is absent and `high` or `low` is missing |
| `MarketMaker.Mid` | backpack.py:121 | `lastPrice` is the mid whenever the ticker read returned it; there is no mid exactly when the read raised, or `lastPrice` is absent and `high` or `low` is missing |
| `MarketMaker.BidPrice` | backpack.py:122 | the bid sits `mid * BID_SPREAD` below the mid, and is positive and below a positive mid |
| `MarketMaker.AskPrice` | backpack.py:123 | the ask sits `mid * ASK_SPREAD` above the mid |
| `MarketMaker.QuotesStraddleMid` | backpack.py:122-123 | for a positive mid, bid < mid < ask, and the two quotes are the sum of the spreads apart |
| `MarketMaker.TryPlace` | backpack.py:131-138 | a `try` block makes the placement call, and binds its local exactly when `place_order` returned, to what it returned |
| `MarketMaker.QuoteBothSides` | backpack.py:131-138 | the bid is attempted and then the ask, whatever became of the bid; each local is bound exactly when its call returned |
| `MarketMaker.MarketMakerCycle` | backpack.py:120-139 | the calls follow the order ticker, cancel, bid, ask. With a price and a cancel that returned, all four calls are made whatever cancel returned and whichever placement raised. The cycle reports both orders exactly when every call returned. Otherwise it raises, naming where. |
| `MarketMaker.NoPriceCounterexample` | backpack.py:121-122 | a ticker with only `high` makes the cycle raise instead of skipping the round |
| `MarketMaker.UnboundBidCounterexample` | backpack.py:131-139 | a bid that raises makes the report line raise, although the ask was placed and answered |
| `MarketMaker.GuardedCycle` | backpack.py:120-139 | the same call order, but without a price it skips after the ticker read; with a price and a cancel that returned it always reports, with `None` for a placement that raised |
| `MarketMaker.RequestOf` | backpack.py:71-107 | each cancel or placement in the trace sends the headers `get_headers` builds for its own instruction, payload and timestamp; a cancel signs `instruction` and `symbol`, an order its six pairs in key order with the price as formatted |

## Left out

- HTTP: the ticker GET, order POST and cancel DELETE are not modelled. The ticker read is an abstract
  `Ticker`, and each signed call is the `Request` it would send. A call's outcome is a scripted
  `Attempt` holding a `Response` (status, text, and the body if it parses as JSON). URLs are not modelled.
- Ed25519 signing and base64 encoding are foreign cryptography. The signature is the uninterpreted
  function `Credentials.sign`, applied to the signing string.
- Environment and key loading (`load_dotenv`, `os.getenv`, `base64.b64decode` of the secret), logging
  setup, and every `print` and log message are configuration and I/O. The model does not reach them.
- The clock: each `time.time()` timestamp is a parameter, or a field of `World`.
- The `run_market_maker` driver is a `while True` loop with `sleep`, and it is not modelled. An
  exception that escapes the cycle also escapes that loop.
- Floating point: `float(...)` of ticker fields, `(high + low) / 2` and `mid * (1 ± spread)` are exact
  reals. `f"{price:.2f}"` is the uninterpreted `Config.formatPrice`, and `str(0.1)` is the literal text `0.1`.
- MarketMaker.BidPrice: the contract is over exact reals, so it does not capture float rounding of `mid * (1 - BID_SPREAD)`.
- MarketMaker.AskPrice: the contract is over exact reals, so it does not capture float rounding of `mid * (1 + ASK_SPREAD)`.
- ExchangeClient.MarketPrice: `(high + low) / 2` is exact, so the midpoint equalities ignore float rounding.
  A ticker field that is present but does not parse as a number makes the ticker read raise. That is
  `Attempt.Raised`.
- JSON: the body serialisation is not modelled. `Request.payload` is the signed text pairs, although
  the posted JSON has the number 0.1 as its quantity.
- Exceptions other than `ValueError` from `response.json()` are not modelled. So are the
  `KeyboardInterrupt` and `SystemExit` that a bare `except:` also swallows.
- Python `str` beyond UTF-8 bytes: there is no normalisation or surrogate handling, and keys and values
  are arbitrary byte strings.

## Findings

| source | as written | input that shows it | evidently intended | confidence | as-written member | corrected member |
|---|---|---|---|---|---|---|
| backpack.py:121-122 | `get_market_price` returns `None` when the ticker has no `lastPrice` and lacks `high` or `low`, and the cycle multiplies it at once, raising `TypeError` and ending the bot | ticker with only `high` present | skip the round: the `None` return with its comment "Or handle as appropriate" means the caller should handle it | medium, not executed | `MarketMaker.NoPriceCounterexample` | `MarketMaker.GuardedCycle` |
| backpack.py:131-139 | `bid_order` and `ask_order` are bound only inside their `try` blocks, so after a placement raises, the report line raises `UnboundLocalError` | ticker with `lastPrice`, cancel returns, bid request raises, ask answered 201 | report the failed side as `None`, as `place_order` itself does for any refusal | medium, not executed | `MarketMaker.UnboundBidCounterexample` | `MarketMaker.GuardedCycle` |
