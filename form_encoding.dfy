/**
 * `urllib.parse.urlencode` on a list of pairs, with its default `quote_plus`
 * escaping and `safe=''`: every byte outside the unreserved set of section 2.3
 * of RFC 3986 becomes `%XX` (section 2.1, upper-case hex), except the space,
 * which becomes `+` (HTML form encoding). `ParseQuery` is the inverse, used to
 * show that the encoding loses nothing and that pairs and separators cannot be
 * confused.
 */
module FormEncoding {
  import opened Wrappers
  import opened Bytes

  type Pair = (Text, Text)

  const SPACE: byte := 0x20
  const PLUS: byte := 0x2B
  const PERCENT: byte := 0x25
  const AMP: byte := 0x26
  const EQUALS: byte := 0x3D

  /** ALPHA / DIGIT / "-" / "." / "_" / "~" */
  predicate Unreserved(b: byte) {
    || 0x41 <= b <= 0x5A || 0x61 <= b <= 0x7A || IsDigit(b)
    || b == 0x2D || b == 0x2E || b == 0x5F || b == 0x7E
  }

  predicate AllUnreserved(t: Text) {
    forall i | 0 <= i < |t| :: Unreserved(t[i])
  }

  /** A byte that can appear in the output of `QuotePlus`. */
  predicate Encoded(b: byte) {
    Unreserved(b) || b == PLUS || b == PERCENT
  }

  function HexDigit(n: nat): (b: byte)
    requires n < 16
    ensures Unreserved(b)
  {
    if n < 10 then (0x30 + n) as byte else (0x41 + n - 10) as byte
  }

  function HexValue(b: byte): Option<nat> {
    if IsDigit(b) then Some(b as int - 0x30)
    else if 0x41 <= b <= 0x46 then Some(b as int - 0x41 + 10)
    else None
  }

  /** `quote_plus` on one byte. */
  function Escape(b: byte): (t: Text)
    ensures 0 < |t| && forall i | 0 <= i < |t| :: Encoded(t[i])
  {
    if Unreserved(b) then [b]
    else if b == SPACE then [PLUS]
    else [PERCENT, HexDigit(b as int / 16), HexDigit(b as int % 16)]
  }

  /** `quote_plus(s, safe='')` on the UTF-8 bytes of `s`. */
  function QuotePlus(s: Text): (t: Text)
    ensures forall i | 0 <= i < |t| :: Encoded(t[i])
  {
    if s == [] then [] else Escape(s[0]) + QuotePlus(s[1..])
  }

  /** `unquote_plus`, strict: refuses any byte `QuotePlus` never produces. */
  function UnquotePlus(t: Text): Option<Text>
    decreases |t|
  {
    if t == [] then Some([])
    else if t[0] == PLUS then Prepend(SPACE, UnquotePlus(t[1..]))
    else if t[0] == PERCENT then
      if |t| >= 3 && HexValue(t[1]).Some? && HexValue(t[2]).Some? then
        Prepend((HexValue(t[1]).value * 16 + HexValue(t[2]).value) as byte, UnquotePlus(t[3..]))
      else None
    else if Unreserved(t[0]) then Prepend(t[0], UnquotePlus(t[1..]))
    else None
  }

  function Prepend(b: byte, o: Option<Text>): Option<Text> {
    if o.Some? then Some([b] + o.value) else None
  }

  lemma EscapeThenUnquote(b: byte, rest: Text)
    ensures UnquotePlus(Escape(b) + rest) == Prepend(b, UnquotePlus(rest))
  {
    var t := Escape(b) + rest;
    if !Unreserved(b) && b != SPACE {
      var hi, lo := b as int / 16, b as int % 16;
      assert HexValue(HexDigit(hi)) == Some(hi);
      assert HexValue(HexDigit(lo)) == Some(lo);
      assert t[3..] == rest;
    } else {
      assert t[1..] == rest;
    }
  }

  /** Decoding undoes `quote_plus`: no two texts share an encoding. */
  lemma {:induction false} UnquoteQuote(s: Text)
    ensures UnquotePlus(QuotePlus(s)) == Some(s)
  {
    if s != [] {
      EscapeThenUnquote(s[0], QuotePlus(s[1..]));
      UnquoteQuote(s[1..]);
      assert [s[0]] + s[1..] == s;
    }
  }

  /** Texts made only of unreserved bytes pass through `quote_plus` unchanged. */
  lemma {:induction false} QuotePlusUnreserved(s: Text)
    requires AllUnreserved(s)
    ensures QuotePlus(s) == s
  {
    if s != [] {
      QuotePlusUnreserved(s[1..]);
      assert [s[0]] + s[1..] == s;
    }
  }

  // ---------------------------------------------------------------------
  // Joining and splitting
  // ---------------------------------------------------------------------

  /** `sep.join(parts)` */
  function Join(parts: seq<Text>, sep: byte): Text {
    if parts == [] then []
    else if |parts| == 1 then parts[0]
    else parts[0] + [sep] + Join(parts[1..], sep)
  }

  /** `t.split(sep)`: always at least one part. */
  function Split(t: Text, sep: byte): (parts: seq<Text>)
    ensures |parts| > 0
  {
    if t == [] then [[]]
    else
      var rest := Split(t[1..], sep);
      if t[0] == sep then [[]] + rest else [[t[0]] + rest[0]] + rest[1..]
  }

  predicate Avoids(t: Text, sep: byte) {
    forall i | 0 <= i < |t| :: t[i] != sep
  }

  lemma {:induction false} SplitAvoiding(a: Text, sep: byte)
    requires Avoids(a, sep)
    ensures Split(a, sep) == [a]
  {
    if a != [] {
      SplitAvoiding(a[1..], sep);
      assert [a[0]] + a[1..] == a;
    }
  }

  /** Splitting at a separator that `a` does not contain peels `a` off. */
  lemma {:induction false} SplitAfter(a: Text, sep: byte, b: Text)
    requires Avoids(a, sep)
    ensures Split(a + [sep] + b, sep) == [a] + Split(b, sep)
  {
    if a == [] {
      assert a + [sep] + b == [sep] + b;
      assert ([sep] + b)[1..] == b;
    } else {
      var t := a + [sep] + b;
      assert t[1..] == a[1..] + [sep] + b;
      SplitAfter(a[1..], sep, b);
      assert [a[0]] + a[1..] == a;
    }
  }

  lemma {:induction false} SplitJoin(parts: seq<Text>, sep: byte)
    requires |parts| > 0
    requires forall i | 0 <= i < |parts| :: Avoids(parts[i], sep)
    ensures Split(Join(parts, sep), sep) == parts
  {
    if |parts| == 1 {
      SplitAvoiding(parts[0], sep);
    } else {
      SplitJoin(parts[1..], sep);
      SplitAfter(parts[0], sep, Join(parts[1..], sep));
      assert [parts[0]] + parts[1..] == parts;
    }
  }

  // ---------------------------------------------------------------------
  // urlencode and its inverse
  // ---------------------------------------------------------------------

  /** One `key=value` field. */
  function Field(p: Pair): Text {
    QuotePlus(p.0) + [EQUALS] + QuotePlus(p.1)
  }

  function Fields(ps: seq<Pair>): (fs: seq<Text>)
    ensures |fs| == |ps|
    ensures forall i | 0 <= i < |ps| :: fs[i] == Field(ps[i])
  {
    if ps == [] then [] else [Field(ps[0])] + Fields(ps[1..])
  }

  /** `urlencode(ps)`: the fields joined by `&`. */
  function UrlEncode(ps: seq<Pair>): (t: Text)
    ensures t == [] <==> ps == []
  {
    assert ps != [] ==> EQUALS in Field(ps[0]);
    Join(Fields(ps), AMP)
  }

  function ParseField(f: Text): Option<Pair> {
    var kv := Split(f, EQUALS);
    if |kv| != 2 then None
    else
      var k := UnquotePlus(kv[0]);
      var v := UnquotePlus(kv[1]);
      if k.Some? && v.Some? then Some((k.value, v.value)) else None
  }

  function ParseFields(fs: seq<Text>): Option<seq<Pair>> {
    if fs == [] then Some([])
    else
      var p := ParseField(fs[0]);
      var rest := ParseFields(fs[1..]);
      if p.Some? && rest.Some? then Some([p.value] + rest.value) else None
  }

  /** The pairs of a query string, in order: a strict inverse of `UrlEncode` that keeps blank values. */
  function ParseQuery(t: Text): Option<seq<Pair>> {
    if t == [] then Some([]) else ParseFields(Split(t, AMP))
  }

  lemma QuotedAvoids(s: Text, sep: byte)
    requires !Encoded(sep)
    ensures Avoids(QuotePlus(s), sep)
  {
  }

  lemma ParseFieldOfField(p: Pair)
    ensures ParseField(Field(p)) == Some(p)
  {
    QuotedAvoids(p.0, EQUALS);
    QuotedAvoids(p.1, EQUALS);
    SplitAfter(QuotePlus(p.0), EQUALS, QuotePlus(p.1));
    SplitAvoiding(QuotePlus(p.1), EQUALS);
    UnquoteQuote(p.0);
    UnquoteQuote(p.1);
  }

  lemma {:induction false} ParseFieldsOfFields(ps: seq<Pair>)
    ensures ParseFields(Fields(ps)) == Some(ps)
  {
    if ps != [] {
      ParseFieldOfField(ps[0]);
      ParseFieldsOfFields(ps[1..]);
      assert Fields(ps)[1..] == Fields(ps[1..]);
      assert [ps[0]] + ps[1..] == ps;
    }
  }

  /**
   * Round trip: the query string gives back exactly the pairs it was built
   * from, in order. So `urlencode` is injective, and no key or value can
   * smuggle in a separator.
   */
  lemma UrlEncodeRoundTrip(ps: seq<Pair>)
    ensures ParseQuery(UrlEncode(ps)) == Some(ps)
  {
    ParseFieldsOfFields(ps);
    if ps != [] {
      var fs := Fields(ps);
      forall i | 0 <= i < |fs| ensures Avoids(fs[i], AMP) {
        QuotedAvoids(ps[i].0, AMP);
        QuotedAvoids(ps[i].1, AMP);
      }
      SplitJoin(fs, AMP);
      assert |Field(ps[0])| > 0;
    }
  }

  lemma {:induction false} JoinAppend(x: seq<Text>, y: seq<Text>, sep: byte)
    requires x != [] && y != []
    ensures Join(x + y, sep) == Join(x, sep) + [sep] + Join(y, sep)
  {
    assert (x + y)[0] == x[0];
    if |x| == 1 {
      assert (x + y)[1..] == y;
    } else {
      JoinAppend(x[1..], y, sep);
      assert (x + y)[1..] == x[1..] + y;
    }
  }

  /** `urlencode(a + b)` is the two encodings joined by `&`. */
  lemma UrlEncodeAppend(a: seq<Pair>, b: seq<Pair>)
    requires a != [] && b != []
    ensures UrlEncode(a + b) == UrlEncode(a) + [AMP] + UrlEncode(b)
  {
    assert Fields(a + b) == Fields(a) + Fields(b);
    JoinAppend(Fields(a), Fields(b), AMP);
  }
}
