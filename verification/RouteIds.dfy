/** Route identifiers: the exact queue and routing key, length-prefixed, in URL-safe Base64. */
module RouteIds {
  import opened Bytes
  import opened Base64

  const PREFIX := "b64u:"
  const QUEUE_NAME_MAX := 255
  const ROUTING_KEY_MAX := 255
  const RAW_MAX := 4 + QUEUE_NAME_MAX + ROUTING_KEY_MAX

  datatype Route = Route(queue: Bytes, key: Bytes)

  predicate Legal(r: Route) { 0 < |r.queue| <= QUEUE_NAME_MAX && |r.key| <= ROUTING_KEY_MAX }

  function Raw(r: Route): Bytes
    requires Legal(r)
  {
    [|r.queue| % 256, |r.queue| / 256] + r.queue + [|r.key| % 256, |r.key| / 256] + r.key
  }

  /** The identifier a route is listed under. */
  method RouteId(r: Route) returns (text: string)
    requires Legal(r)
    ensures text == IdOf(r)
  {
    var body := EncodeText(Raw(r), true, false);
    text := PREFIX + body;
  }

  function IdOf(r: Route): string
    requires Legal(r)
  {
    PREFIX + Encode(Raw(r), true, false)
  }

  /** Two bytes of length before the queue's name, two before the key, in URL-safe text after the prefix. */
  lemma RouteIdLayout(r: Route)
    requires Legal(r)
    ensures IdOf(r) == "b64u:" + Encode(LE(|r.queue|, 2) + r.queue + LE(|r.key|, 2) + r.key, true, false)
  {
    hide Encode;
    TwoBytes(|r.queue|);
    TwoBytes(|r.key|);
  }

  lemma TwoBytes(n: u16)
    ensures LE(n, 2) == [n % 256, n / 256]
  {
    assert LE(n, 2) == [n % 256] + LE(n / 256, 1);
    assert LE(n / 256, 1) == [n / 256 % 256] + LE(n / 256 / 256, 0);
  }

  /** What the length prefixes say the bytes hold, if they hold exactly that. */
  function ParseRaw(raw: Bytes): Option<Route> {
    if |raw| < 4 then None
    else
      var ql: nat := Num(raw[0], raw[1]);
      if ql == 0 || ql > QUEUE_NAME_MAX || |raw| < 2 + ql + 2 then None
      else
        var kl: nat := Num(raw[2 + ql], raw[3 + ql]);
        if kl > ROUTING_KEY_MAX || |raw| != 4 + ql + kl then None
        else Some(Route(raw[2..2 + ql], raw[4 + ql..4 + ql + kl]))
  }

  function Num(low: byte, high: byte): nat {
    var l: int, h: int := low, high;
    l + 256 * h
  }

  function RouteOf(text: string): Option<Route> {
    if |text| <= |PREFIX| || text[..|PREFIX|] != PREFIX then None
    else
      var raw := Decode(text[|PREFIX|..], true, RAW_MAX);
      if raw.None? then None else ParseRaw(raw.value)
  }

  /** Read an identifier back. */
  method DecodeRouteId(text: string) returns (r: Option<Route>)
    ensures r == RouteOf(text)
  {
    if |text| <= |PREFIX| || text[..|PREFIX|] != PREFIX { return None; }
    var raw := DecodeText(text[|PREFIX|..], true, RAW_MAX);
    if raw.None? { return None; }
    r := ParseRaw(raw.value);
  }

  lemma ParseRawIs(r: Route)
    requires Legal(r)
    ensures |Raw(r)| == 4 + |r.queue| + |r.key| && ParseRaw(Raw(r)) == Some(r)
  {
    var raw, n := Raw(r), |r.queue|;
    assert raw[0] == n % 256 && raw[1] == n / 256;
    assert Num(raw[0], raw[1]) == n;
    assert raw[2..2 + n] == r.queue;
    assert raw[2 + n] == |r.key| % 256 && raw[3 + n] == |r.key| / 256;
    assert Num(raw[2 + n], raw[3 + n]) == |r.key|;
    assert raw[4 + n..4 + n + |r.key|] == r.key;
  }

  /** An identifier names exactly the route it was made for, for every legal queue and routing key. */
  lemma RouteRoundTrip(r: Route)
    requires Legal(r)
    ensures RouteOf(IdOf(r)) == Some(r)
  {
    hide Decode, Encode, ParseRaw, Raw;
    ParseRawIs(r);
    DecodeEncode(Raw(r), true, RAW_MAX);
    var body := Encode(Raw(r), true, false);
    SomeText(Raw(r));
    assert IdOf(r)[..|PREFIX|] == PREFIX && IdOf(r)[|PREFIX|..] == body;
  }

  lemma SomeText(s: Bytes)
    requires s != []
    ensures Encode(s, true, false) != ""
  {
    hide Digit, Sext;
  }

  /** Distinct routes have distinct identifiers. */
  lemma RouteIdsDiffer(a: Route, b: Route)
    requires Legal(a) && Legal(b) && IdOf(a) == IdOf(b)
    ensures a == b
  {
    hide RouteOf, IdOf;
    RouteRoundTrip(a);
    RouteRoundTrip(b);
  }

  /** An identifier that is accepted is the route's own just when its spare bits are zero. */
  lemma RouteIdCanonicalIff(text: string)
    requires RouteOf(text).Some?
    ensures Legal(RouteOf(text).value)
    ensures IdOf(RouteOf(text).value) == text <==> Spare(text[|PREFIX|..]) == 0
  {
    hide Decode, Encode, Spare;
    var body := text[|PREFIX|..];
    var raw := Decode(body, true, RAW_MAX).value;
    CanonicalIff(body, RAW_MAX);
    RawOfParse(raw);
    assert text == PREFIX + body;
    SameTail(PREFIX, Encode(raw, true, false), body);
  }

  lemma RawOfParse(raw: Bytes)
    requires ParseRaw(raw).Some?
    ensures Legal(ParseRaw(raw).value) && Raw(ParseRaw(raw).value) == raw
  {
    var r := ParseRaw(raw).value;
    var n := |r.queue|;
    assert raw == raw[..2] + raw[2..2 + n] + raw[2 + n..4 + n] + raw[4 + n..];
    assert raw[..2] == [n % 256, n / 256];
    assert raw[2 + n..4 + n] == [|r.key| % 256, |r.key| / 256];
  }
}
