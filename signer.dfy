/**
 * Request signing (backpack.py:38-53). The signing string is built from the
 * request's parameters, the instruction, the timestamp and the window; the
 * Ed25519 signature over it and its base64 text are an uninterpreted function
 * `sign`, standing for the private key loaded at start-up.
 */
module Signer {
  import opened Wrappers
  import opened Bytes
  import opened FormEncoding
  import opened Dicts
  import opened Sorting

  const INSTRUCTION: Text := Ascii("instruction")
  const TIMESTAMP: Text := Ascii("timestamp")
  const WINDOW: Text := Ascii("window")

  /** The `window=5000` default of `generate_signature` and `get_headers`. */
  const DEFAULT_WINDOW: int := 5000

  /** `{'instruction': instruction, **params}`: an `instruction` key in `params` wins. */
  function WithInstruction(instruction: Text, params: seq<Pair>): (merged: seq<Pair>)
    ensures Keys(merged) == Keys(params) + {INSTRUCTION}
    ensures DistinctKeys(merged)
  {
    PutAllDistinct([(INSTRUCTION, instruction)], params);
    PutAll([(INSTRUCTION, instruction)], params)
  }

  /** `sorted(params_with_instruction.items())` */
  function SignedItems(instruction: Text, params: seq<Pair>): seq<Pair> {
    SortItems(WithInstruction(instruction, params))
  }

  /** `f"{urlencode(...)}&timestamp={timestamp}&window={window}"`, as bytes. */
  function SigningString(instruction: Text, params: seq<Pair>, timestamp: int, window: int := DEFAULT_WINDOW): (s: Text)
    ensures |s| > |TimeWindow(timestamp, window)|
    ensures s[|s| - |TimeWindow(timestamp, window)|..] == TimeWindow(timestamp, window)
  {
    SignedItemsNonEmpty(instruction, params);
    UrlEncode(SignedItems(instruction, params)) + TimeWindow(timestamp, window)
  }

  /** `&timestamp={timestamp}&window={window}` */
  function TimeWindow(timestamp: int, window: int): Text {
    [AMP] + (TIMESTAMP + [EQUALS] + Decimal(timestamp)) + [AMP] + (WINDOW + [EQUALS] + Decimal(window))
  }

  /** `generate_signature`: `sign` is Ed25519 with the bot's key, then base64. */
  function GenerateSignature(sign: Text -> Text, instruction: Text, params: seq<Pair>, timestamp: int,
                             window: int := DEFAULT_WINDOW): (signature: Text)
    ensures signature == sign(SigningString(instruction, params, timestamp, window))
    ensures ParseQuery(SigningString(instruction, params, timestamp, window))
         == Some(SignedItems(instruction, params) + [(TIMESTAMP, Decimal(timestamp)), (WINDOW, Decimal(window))])
  {
    SigningStringParses(instruction, params, timestamp, window);
    sign(SigningString(instruction, params, timestamp, window))
  }

  const X_API_KEY: Text := Ascii("X-API-Key")
  const X_TIMESTAMP: Text := Ascii("X-Timestamp")
  const X_WINDOW: Text := Ascii("X-Window")
  const X_SIGNATURE: Text := Ascii("X-Signature")
  const CONTENT_TYPE: Text := Ascii("Content-Type")
  const APPLICATION_JSON: Text := Ascii("application/json")

  /** The five header names every signed call sends. */
  const HEADER_NAMES: set<Text> := {X_API_KEY, X_TIMESTAMP, X_WINDOW, X_SIGNATURE, CONTENT_TYPE}

  /** The header block every signed call sends, with the signature it carries. */
  function SignedHeaders(apiKey: Text, timestamp: int, window: int, signature: Text): map<Text, Text> {
    map[X_API_KEY := apiKey,
        X_TIMESTAMP := Decimal(timestamp),
        X_WINDOW := Decimal(window),
        X_SIGNATURE := signature,
        CONTENT_TYPE := APPLICATION_JSON]
  }

  /** `get_headers` */
  function GetHeaders(apiKey: Text, sign: Text -> Text, instruction: Text, params: seq<Pair>, timestamp: int,
                      window: int := DEFAULT_WINDOW): (headers: map<Text, Text>)
    ensures headers.Keys == HEADER_NAMES
    ensures headers[X_TIMESTAMP] == Decimal(timestamp) && headers[X_WINDOW] == Decimal(window)
    ensures headers[X_SIGNATURE] == sign(SigningString(instruction, params, timestamp, window))
    ensures headers[X_API_KEY] == apiKey && headers[CONTENT_TYPE] == APPLICATION_JSON
  {
    var signature := GenerateSignature(sign, instruction, params, timestamp, window);
    SignedHeadersLookup(apiKey, timestamp, window, signature);
    SignedHeaders(apiKey, timestamp, window, signature)
  }

  // ---------------------------------------------------------------------
  // What gets signed
  // ---------------------------------------------------------------------

  /**
   * The merged dict holds every pair of `params`, plus `instruction` under
   * the key `instruction` unless `params` already has that key.
   */
  lemma WithInstructionPairs(instruction: Text, params: seq<Pair>)
    requires DistinctKeys(params)
    ensures DistinctKeys(WithInstruction(instruction, params))
    ensures multiset(WithInstruction(instruction, params))
         == multiset(params) + (if INSTRUCTION in Keys(params) then multiset{} else multiset{(INSTRUCTION, instruction)})
  {
    var d := [(INSTRUCTION, instruction)];
    assert DistinctKeys(d);
    PutAllDistinct(d, params);
    PutAllPairs(d, params);
    assert Drop(d, Keys(params)) == if INSTRUCTION in Keys(params) then [] else d;
  }

  /**
   * The signed pairs are the merged dict's pairs, one per key, in strictly
   * ascending key order; their keys are those of `params` and `instruction`.
   */
  lemma SignedItemsShape(instruction: Text, params: seq<Pair>)
    requires DistinctKeys(params)
    ensures StrictlyAscendingKeys(SignedItems(instruction, params))
    ensures DistinctKeys(SignedItems(instruction, params))
    ensures Keys(SignedItems(instruction, params)) == Keys(params) + {INSTRUCTION}
    ensures forall x :: x in SignedItems(instruction, params) <==>
                        x in params || (x == (INSTRUCTION, instruction) && INSTRUCTION !in Keys(params))
  {
    var merged := WithInstruction(instruction, params);
    var r := SignedItems(instruction, params);
    WithInstructionPairs(instruction, params);
    SortKeys(merged);
    SortedDictAscending(r);
    forall x ensures x in r <==> x in params || (x == (INSTRUCTION, instruction) && INSTRUCTION !in Keys(params)) {
      assert x in r <==> x in multiset(r);
    }
  }

  /**
   * Exactly one `instruction` pair is signed. Its value is the one in
   * `params` when `params` has that key (dict unpacking overrides the
   * argument), and the `instruction` argument otherwise.
   */
  lemma InstructionSigned(instruction: Text, params: seq<Pair>)
    requires DistinctKeys(params)
    ensures (INSTRUCTION, Get(params, INSTRUCTION).GetOr(instruction)) in SignedItems(instruction, params)
    ensures forall v :: (INSTRUCTION, v) in SignedItems(instruction, params) ==> v == Get(params, INSTRUCTION).GetOr(instruction)
  {
    SignedItemsShape(instruction, params);
    var r := SignedItems(instruction, params);
    if INSTRUCTION in Keys(params) {
      KeyAt(params, INSTRUCTION);
      var i :| 0 <= i < |params| && params[i].0 == INSTRUCTION;
      GetMember(params, INSTRUCTION, params[i].1);
      assert params[i] in r;
      forall v | (INSTRUCTION, v) in r ensures v == params[i].1 {
        GetMember(params, INSTRUCTION, v);
      }
    } else {
      GetAbsent(params, INSTRUCTION);
      forall v | (INSTRUCTION, v) in r ensures v == instruction {
        if (INSTRUCTION, v) in params {
          KeyOfMember(params, (INSTRUCTION, v));
        }
      }
    }
  }

  /**
   * Order independence: two dicts with the same pairs, inserted in any
   * order, give the same signing string, hence the same signature.
   */
  lemma SigningStringOrderIndependent(instruction: Text, p: seq<Pair>, q: seq<Pair>, timestamp: int, window: int)
    requires DistinctKeys(p) && DistinctKeys(q)
    requires forall x :: x in p <==> x in q
    ensures SigningString(instruction, p, timestamp, window) == SigningString(instruction, q, timestamp, window)
  {
    SamePairsSameMultiset(p, q);
    SameMembersSameKeys(p, q);
    WithInstructionPairs(instruction, p);
    WithInstructionPairs(instruction, q);
    SortPermutationInvariant(WithInstruction(instruction, p), WithInstruction(instruction, q));
  }

  lemma DecimalUnreserved(n: int)
    ensures AllUnreserved(Decimal(n))
  {
  }

  lemma SignedItemsNonEmpty(instruction: Text, params: seq<Pair>)
    ensures SignedItems(instruction, params) != []
  {
    var merged := WithInstruction(instruction, params);
    assert INSTRUCTION in Keys(merged);
    assert merged != [];
    assert |multiset(SignedItems(instruction, params))| == |merged|;
  }

  lemma NamesUnreserved()
    ensures AllUnreserved(TIMESTAMP) && AllUnreserved(WINDOW)
  {
  }

  lemma FieldOfUnreserved(k: Text, v: Text)
    requires AllUnreserved(k) && AllUnreserved(v)
    ensures Field((k, v)) == k + [EQUALS] + v
  {
    QuotePlusUnreserved(k);
    QuotePlusUnreserved(v);
  }

  lemma ConcatAssociative(a: Text, b: Text, c: Text)
    ensures a + (b + c) == a + b + c
  {
  }

  /** The fixed suffix is itself `urlencode` of the two pairs it names. */
  lemma TimeWindowEncoded(timestamp: int, window: int)
    ensures TimeWindow(timestamp, window) == [AMP] + UrlEncode([(TIMESTAMP, Decimal(timestamp)), (WINDOW, Decimal(window))])
  {
    var tail := [(TIMESTAMP, Decimal(timestamp)), (WINDOW, Decimal(window))];
    NamesUnreserved();
    DecimalUnreserved(timestamp);
    DecimalUnreserved(window);
    var f0 := TIMESTAMP + [EQUALS] + Decimal(timestamp);
    var f1 := WINDOW + [EQUALS] + Decimal(window);
    FieldOfUnreserved(TIMESTAMP, Decimal(timestamp));
    FieldOfUnreserved(WINDOW, Decimal(window));
    assert Fields(tail) == [f0, f1];
    assert Join([f0, f1], AMP) == f0 + [AMP] + f1;
    assert [AMP] + f0 + [AMP] + f1 == [AMP] + (f0 + [AMP] + f1);
  }

  /**
   * The signing string is a well-formed query string: decoding it gives back
   * the signed pairs, in order, followed by `timestamp` and `window` with the
   * decimal text of the values passed in.
   */
  lemma SigningStringParses(instruction: Text, params: seq<Pair>, timestamp: int, window: int)
    ensures ParseQuery(SigningString(instruction, params, timestamp, window))
         == Some(SignedItems(instruction, params) + [(TIMESTAMP, Decimal(timestamp)), (WINDOW, Decimal(window))])
  {
    var items := SignedItems(instruction, params);
    var tail := [(TIMESTAMP, Decimal(timestamp)), (WINDOW, Decimal(window))];
    SignedItemsNonEmpty(instruction, params);
    UrlEncodeAppend(items, tail);
    TimeWindowEncoded(timestamp, window);
    var u, v := UrlEncode(items), UrlEncode(tail);
    assert SigningString(instruction, params, timestamp, window) == u + ([AMP] + v);
    ConcatAssociative(u, [AMP], v);
    UrlEncodeRoundTrip(items + tail);
  }

  /**
   * The signing string determines everything that went into it: the signed
   * pairs, the timestamp and the window. Changing any of them changes it.
   */
  lemma SigningStringInjective(i1: Text, p1: seq<Pair>, t1: int, w1: int, i2: Text, p2: seq<Pair>, t2: int, w2: int)
    requires SigningString(i1, p1, t1, w1) == SigningString(i2, p2, t2, w2)
    ensures SignedItems(i1, p1) == SignedItems(i2, p2)
    ensures t1 == t2 && w1 == w2
  {
    SigningStringParses(i1, p1, t1, w1);
    SigningStringParses(i2, p2, t2, w2);
    var a := SignedItems(i1, p1) + [(TIMESTAMP, Decimal(t1)), (WINDOW, Decimal(w1))];
    var b := SignedItems(i2, p2) + [(TIMESTAMP, Decimal(t2)), (WINDOW, Decimal(w2))];
    assert a == b;
    assert SignedItems(i1, p1) == a[..|a| - 2] == b[..|b| - 2] == SignedItems(i2, p2);
    assert a[|a| - 2] == b[|b| - 2] && a[|a| - 1] == b[|b| - 1];
    DecimalInjective(t1, t2);
    DecimalInjective(w1, w2);
  }

  /** Without a `window` argument, the string signs `window=5000`. */
  lemma DefaultWindowSigned(instruction: Text, params: seq<Pair>, timestamp: int)
    ensures ParseQuery(SigningString(instruction, params, timestamp))
         == Some(SignedItems(instruction, params) + [(TIMESTAMP, Decimal(timestamp)), (WINDOW, Ascii("5000"))])
  {
    SigningStringParses(instruction, params, timestamp, DEFAULT_WINDOW);
    DefaultWindowText();
  }

  lemma DefaultWindowText()
    ensures Decimal(DEFAULT_WINDOW) == Ascii("5000")
  {
  }

  // ---------------------------------------------------------------------
  // Headers
  // ---------------------------------------------------------------------

  /**
   * `get_headers` sends exactly the five headers; `X-Timestamp` and
   * `X-Window` are the decimal texts of the very values that were signed,
   * as they appear in the signing string, and `X-Signature` is the signature
   * over that string.
   */
  lemma HeadersMatchSignedValues(apiKey: Text, sign: Text -> Text, instruction: Text, params: seq<Pair>,
                                 timestamp: int, window: int)
    ensures var h := GetHeaders(apiKey, sign, instruction, params, timestamp, window);
            && h.Keys == HEADER_NAMES
            && h[X_API_KEY] == apiKey
            && h[CONTENT_TYPE] == APPLICATION_JSON
            && h[X_SIGNATURE] == sign(SigningString(instruction, params, timestamp, window))
            && ParseDecimal(h[X_TIMESTAMP]) == Some(timestamp)
            && ParseDecimal(h[X_WINDOW]) == Some(window)
            && ParseQuery(SigningString(instruction, params, timestamp, window))
               == Some(SignedItems(instruction, params) + [(TIMESTAMP, h[X_TIMESTAMP]), (WINDOW, h[X_WINDOW])])
  {
    SignedHeadersLookup(apiKey, timestamp, window, GenerateSignature(sign, instruction, params, timestamp, window));
    SigningStringParses(instruction, params, timestamp, window);
    DecimalRoundTrip(timestamp);
    DecimalRoundTrip(window);
  }

  /** The header block holds the five names, each with the value it was built from. */
  lemma SignedHeadersLookup(apiKey: Text, timestamp: int, window: int, signature: Text)
    ensures var h := SignedHeaders(apiKey, timestamp, window, signature);
            && h.Keys == HEADER_NAMES
            && h[X_API_KEY] == apiKey
            && h[X_TIMESTAMP] == Decimal(timestamp)
            && h[X_WINDOW] == Decimal(window)
            && h[X_SIGNATURE] == signature
            && h[CONTENT_TYPE] == APPLICATION_JSON
  {
    HeaderNamesDistinct();
  }

  lemma HeaderNamesDistinct()
    ensures X_API_KEY != X_TIMESTAMP && X_API_KEY != X_WINDOW && X_API_KEY != X_SIGNATURE && X_API_KEY != CONTENT_TYPE
    ensures X_TIMESTAMP != X_WINDOW && X_TIMESTAMP != X_SIGNATURE && X_TIMESTAMP != CONTENT_TYPE
    ensures X_WINDOW != X_SIGNATURE && X_WINDOW != CONTENT_TYPE
    ensures X_SIGNATURE != CONTENT_TYPE
  {
    assert X_TIMESTAMP[2] != X_SIGNATURE[2];
  }
}
