/** The address resolver of src/services/geocoding.ts: it turns a postal
    address into a query for the Nominatim search service, spaces outbound
    requests at least one second apart through a process-wide
    `lastRequestTime`, and collapses every failure into "no result".
    The clock and the HTTP exchange are inputs (an `Exchange`); parsing the
    latitude/longitude text as floating point is not modelled. */
module Geocoding {
  import opened Wrappers
  import opened JsStrings

  /** Minimum gap, in milliseconds, between two outbound requests. */
  const RateLimitDelay: nat := 1000

  /** A coordinate as `parseFloat` reads it from one field of the answer:
      the field's text, or `None` when the field is missing (NaN). The
      floating-point value itself is opaque. */
  datatype Coordinate = ParsedFloat(text: Option<string>)

  /** What `geocodeAddress` resolves to; `displayName` is `None` when the
      answer's element has no `display_name`. */
  datatype GeocodeResult = GeocodeResult(latitude: Coordinate, longitude: Coordinate, displayName: Option<string>)

  /** One element of the decoded answer: a value whose `lat`, `lon` and
      `display_name` properties are read (each missing when absent, as for
      any element that is not an object), or `null`/`undefined`, whose
      properties cannot be read at all. */
  datatype Item = Entry(lat: Option<string>, lon: Option<string>, displayName: Option<string>) | Nullish

  /** The decoded response body. `Indexed` is any value with a numeric
      `length` and indexed elements (a JSON array; a string, whose
      characters carry none of the three fields): `data.length === 0`
      exactly when `items` is empty, and `data[0]` is `items[0]`.
      `Unreadable` is a body that fails to decode, or decodes to `null`, a
      number, a boolean or an object without elements, where reading
      `data.length` or `data[0].lat` throws. */
  datatype Body = Indexed(items: seq<Item>) | Unreadable

  /** What `fetch` delivers: a transport failure, or a response. */
  datatype HttpReply = NetworkError | Http(ok: bool, status: int, body: Body)

  /** One outbound call as the environment plays it: the clock when the
      call starts, the clock after the rate-limit wait, and the reply. */
  datatype Exchange = Exchange(now: int, afterWait: int, reply: HttpReply)

  /** A request as it reaches the fetch boundary: the clock when the call
      started, the clock when it was sent (after the rate-limit wait), and
      its query parameters (in `URLSearchParams` order). */
  datatype SearchRequest = SearchRequest(calledAt: int, at: int, params: seq<(string, string)>)

  /** The five address arguments of `geocodeAddress`. */
  datatype Address = Address(street: string, city: string, state: string, zip: string, country: string)

  /** The columns of an `unclaimed_properties` row the resolver reads; a
      column the store leaves empty is `None`. */
  datatype PropertyRecord = PropertyRecord(
    id: string,
    ownerStreet1: Option<string>,
    ownerCity: Option<string>,
    ownerState: Option<string>,
    ownerZip: Option<string>,
    ownerCountryCode: Option<string>,
    holderStreet1: Option<string>,
    holderCity: Option<string>,
    holderState: Option<string>,
    holderZip: Option<string>,
    status: Option<string>)

  /** `xs.filter(Boolean)` on strings: the non-empty ones. */
  function Compact(xs: seq<string>): (r: seq<string>)
    ensures |r| <= |xs|
    ensures forall i :: 0 <= i < |r| ==> r[i] != ""
    ensures forall x :: x in r <==> x in xs && x != ""
  {
    if xs == [] then []
    else if xs[0] == "" then Compact(xs[1..])
    else [xs[0]] + Compact(xs[1..])
  }

  /** `Compact` works element by element, keeping the order of what it keeps. */
  lemma {:induction false} CompactAppend(a: seq<string>, b: seq<string>)
    ensures Compact(a + b) == Compact(a) + Compact(b)
  {
    if a != [] {
      assert (a + b)[1..] == a[1..] + b;
      CompactAppend(a[1..], b);
    } else {
      assert a + b == b;
    }
  }

  /** Compacting a sequence keeps one element per non-empty entry. */
  lemma CompactCons(x: string, xs: seq<string>)
    ensures |Compact([x] + xs)| == (if x == "" then 0 else 1) + |Compact(xs)|
  {
    assert ([x] + xs)[1..] == xs;
  }

  /** The trimmed parts of an address, empty ones dropped, in the order
      street, city, state, zip, country. */
  function AddressParts(a: Address): seq<string> {
    Compact([Trim(a.street), Trim(a.city), Trim(a.state), Trim(a.zip), Trim(a.country)])
  }

  function Blank(s: string): bool {
    Trim(s) == ""
  }

  /** An address yields as many parts as it has non-blank fields. */
  lemma AddressPartsCount(a: Address)
    ensures |AddressParts(a)| ==
      (if Blank(a.street) then 0 else 1) + (if Blank(a.city) then 0 else 1) +
      (if Blank(a.state) then 0 else 1) + (if Blank(a.zip) then 0 else 1) +
      (if Blank(a.country) then 0 else 1)
  {
    CompactFive(Trim(a.street), Trim(a.city), Trim(a.state), Trim(a.zip), Trim(a.country));
  }

  lemma CompactFive(t1: string, t2: string, t3: string, t4: string, t5: string)
    ensures |Compact([t1, t2, t3, t4, t5])| ==
      (if t1 == "" then 0 else 1) + (if t2 == "" then 0 else 1) + (if t3 == "" then 0 else 1) +
      (if t4 == "" then 0 else 1) + (if t5 == "" then 0 else 1)
  {
    CompactCons(t5, []);
    CompactCons(t4, [t5]);
    assert [t4] + [t5] == [t4, t5];
    CompactCons(t3, [t4, t5]);
    assert [t3] + [t4, t5] == [t3, t4, t5];
    CompactCons(t2, [t3, t4, t5]);
    assert [t2] + [t3, t4, t5] == [t2, t3, t4, t5];
    CompactCons(t1, [t2, t3, t4, t5]);
    assert [t1] + [t2, t3, t4, t5] == [t1, t2, t3, t4, t5];
  }

  /** The query parameters sent for an address, in the order the source
      builds them: the joined parts, JSON output, one result, the country
      code (the untrimmed country, lowercased) and address details. */
  function SearchParams(a: Address): (ps: seq<(string, string)>)
    ensures |ps| == 5
    ensures ps[0] == ("q", Join(AddressParts(a), ", "))
    ensures ps[1] == ("format", "json") && ps[2] == ("limit", "1")
    ensures ps[3] == ("countrycodes", Lower(a.country))
    ensures ps[4] == ("addressdetails", "1")
  {
    [("q", Join(AddressParts(a), ", ")), ("format", "json"), ("limit", "1"),
     ("countrycodes", Lower(a.country)), ("addressdetails", "1")]
  }

  /** The result `geocodeAddress` takes from a reply: built from the first
      element of a successful, readable, non-empty answer, whatever fields
      that element lacks; nothing when the reply is a transport failure, not
      ok, unreadable, empty, or its first element is `null`. */
  function Resolution(reply: HttpReply): (r: Option<GeocodeResult>)
    ensures r.Some? <==>
      reply.Http? && reply.ok && reply.body.Indexed? && |reply.body.items| > 0 &&
      reply.body.items[0].Entry?
    ensures r.Some? ==>
      var first := reply.body.items[0];
      r.value == GeocodeResult(ParsedFloat(first.lat), ParsedFloat(first.lon), first.displayName)
  {
    match reply
    case NetworkError => None
    case Http(ok, _, body) =>
      if !ok then None
      else match body
        case Unreadable => None
        case Indexed(items) =>
          if |items| == 0 then None
          else match items[0]
            case Nullish => None
            case Entry(lat, lon, name) => Some(GeocodeResult(ParsedFloat(lat), ParsedFloat(lon), name))
  }

  /** What resolving `a` yields when the service answers `reply`: nothing
      before any request when fewer than two parts survive. */
  function Geocode(a: Address, reply: HttpReply): (r: Option<GeocodeResult>)
    ensures |AddressParts(a)| < 2 ==> r == None
    ensures |AddressParts(a)| >= 2 ==> r == Resolution(reply)
  {
    if |AddressParts(a)| < 2 then None else Resolution(reply)
  }

  /** The requests resolving `a` sends during `call`: one, stamped with the
      clock after the rate-limit wait, when at least two parts survive;
      none otherwise. */
  function RequestsFor(a: Address, call: Exchange): (reqs: seq<SearchRequest>)
    ensures |reqs| <= 1
    ensures reqs != [] <==> |AddressParts(a)| >= 2
    ensures reqs != [] ==> reqs[0] == SearchRequest(call.now, call.afterWait, SearchParams(a))
  {
    if |AddressParts(a)| >= 2 then [SearchRequest(call.now, call.afterWait, SearchParams(a))] else []
  }

  /** The time of the last request in `reqs`, `last` if there is none. */
  function LastAt(last: int, reqs: seq<SearchRequest>): int {
    if reqs == [] then last else reqs[|reqs| - 1].at
  }

  /** A column's value when present and non-empty, `""` otherwise
      (`x || ''`, and `[x].filter(Boolean).join(' ')` for one element). */
  function OrEmpty(x: Option<string>): string {
    match x
    case Some(s) => s
    case None => ""
  }

  /** The owner address: only `owner_street_1` as the street, and the
      country code defaulting to "US" when missing or empty. */
  function OwnerAddress(p: PropertyRecord): (a: Address)
    ensures a.street == OrEmpty(p.ownerStreet1) && a.city == OrEmpty(p.ownerCity)
    ensures a.country == (if OrEmpty(p.ownerCountryCode) == "" then "US" else p.ownerCountryCode.value)
  {
    Address(OrEmpty(p.ownerStreet1), OrEmpty(p.ownerCity), OrEmpty(p.ownerState), OrEmpty(p.ownerZip),
            if OrEmpty(p.ownerCountryCode) == "" then "US" else OrEmpty(p.ownerCountryCode))
  }

  /** The holder address: only `holder_street_1`, and always country "US". */
  function HolderAddress(p: PropertyRecord): (a: Address)
    ensures a.street == OrEmpty(p.holderStreet1) && a.country == "US"
  {
    Address(OrEmpty(p.holderStreet1), OrEmpty(p.holderCity), OrEmpty(p.holderState), OrEmpty(p.holderZip), "US")
  }

  /** Because the holder country is always "US", one non-blank holder field
      is enough to reach the two parts that permit a request. */
  lemma HolderNeedsOneField(p: PropertyRecord)
    ensures |AddressParts(HolderAddress(p))| >= 2 <==>
      !(Blank(OrEmpty(p.holderStreet1)) && Blank(OrEmpty(p.holderCity)) &&
        Blank(OrEmpty(p.holderState)) && Blank(OrEmpty(p.holderZip)))
  {
    var a := HolderAddress(p);
    AddressPartsCount(a);
    UsIsNotBlank();
  }

  /** The same holds for the owner whenever the country column is missing or
      empty (it then defaults to "US"). */
  lemma OwnerNeedsOneFieldByDefault(p: PropertyRecord)
    requires OrEmpty(p.ownerCountryCode) == ""
    ensures |AddressParts(OwnerAddress(p))| >= 2 <==>
      !(Blank(OrEmpty(p.ownerStreet1)) && Blank(OrEmpty(p.ownerCity)) &&
        Blank(OrEmpty(p.ownerState)) && Blank(OrEmpty(p.ownerZip)))
  {
    var a := OwnerAddress(p);
    assert a.country == "US";
    AddressPartsCount(a);
    UsIsNotBlank();
  }

  lemma UsIsNotBlank()
    ensures !Blank("US")
  {
    TrimFacts("US");
    assert !IsWhitespace("US"[0]);
  }

  /** How long `rateLimitedFetch` sleeps when called at `now` after a request
      at `last`: the least wait that puts the request a full delay after `last`. */
  function RequiredWait(now: int, last: int): (w: nat)
    ensures now + w >= last + RateLimitDelay
    ensures w > 0 <==> now - last < RateLimitDelay
    ensures w > 0 ==> now + w == last + RateLimitDelay
  {
    if now - last < RateLimitDelay then RateLimitDelay - (now - last) else 0
  }

  /** The times of the requests in `sent` are at least a full delay apart. */
  ghost predicate Spaced(sent: seq<SearchRequest>) {
    forall i :: 0 < i < |sent| ==> sent[i].at >= sent[i - 1].at + RateLimitDelay
  }

  /** The bookkeeping of a resolver that has sent `sent` and recorded `last`
      as its last request time: the last request sent is the one `last`
      records, and requests are spaced. */
  ghost predicate Consistent(sent: seq<SearchRequest>, last: int) {
    && (sent != [] ==> last == sent[|sent| - 1].at)
    && Spaced(sent)
  }

  /** The time of the request before the `k`-th of `reqs`: `last` for the
      first. */
  function PrevAt(last: int, reqs: seq<SearchRequest>, k: nat): int
    requires k < |reqs|
  {
    if k == 0 then last else reqs[k - 1].at
  }

  /** Each request of `reqs` went out no earlier than the rate limiter asked:
      its send time is at least its call time plus the wait required after
      the request before it. This is what the clock has to honour for the
      sleep to do its job. */
  ghost predicate Paced(last: int, reqs: seq<SearchRequest>) {
    forall k :: 0 <= k < |reqs| ==>
      reqs[k].at >= reqs[k].calledAt + RequiredWait(reqs[k].calledAt, PrevAt(last, reqs, k))
  }

  /** Requests sent at the pace the limiter asks for keep a consistent
      resolver consistent, however many there are. */
  lemma PacedKeepsSpacing(sent: seq<SearchRequest>, last: int, reqs: seq<SearchRequest>)
    requires Consistent(sent, last) && Paced(last, reqs)
    ensures Consistent(sent + reqs, LastAt(last, reqs))
  {
    var all := sent + reqs;
    forall i | 0 < i < |all|
      ensures all[i].at >= all[i - 1].at + RateLimitDelay
    {
      if i >= |sent| {
        var k := i - |sent|;
        var prev := PrevAt(last, reqs, k);
        assert all[i] == reqs[k];
        assert all[i - 1].at == prev;
        assert reqs[k].at >= reqs[k].calledAt + RequiredWait(reqs[k].calledAt, prev);
        assert reqs[k].calledAt + RequiredWait(reqs[k].calledAt, prev) >= prev + RateLimitDelay;
      }
    }
  }

  /** The resolver's process-wide state: the time of the last request, and
      every request that reached the fetch boundary. */
  class GeocodingService {
    var lastRequestTime: int
    var sent: seq<SearchRequest>

    /** The rate-limit bookkeeping is consistent: the last request sent is
        the one `lastRequestTime` records, and requests are spaced. */
    ghost predicate Valid()
      reads this
    {
      Consistent(sent, lastRequestTime)
    }

    constructor ()
      ensures lastRequestTime == 0 && sent == [] && Valid()
    {
      lastRequestTime := 0;
      sent := [];
    }

    /** `rateLimitedFetch`: sleep `RequiredWait(now, lastRequestTime)`, then
        stamp `lastRequestTime` with the clock after the wait and send. When
        the clock after the wait is no earlier than asked for, the spacing of
        requests is kept. */
    method RateLimitedFetch(params: seq<(string, string)>, now: int, afterWait: int) returns (waited: nat)
      modifies this
      ensures waited == RequiredWait(now, old(lastRequestTime))
      ensures lastRequestTime == afterWait
      ensures sent == old(sent) + [SearchRequest(now, afterWait, params)]
      ensures old(Valid()) && afterWait >= now + waited ==> Valid()
    {
      var sinceLast := now - lastRequestTime;
      waited := 0;
      if sinceLast < RateLimitDelay {
        waited := RateLimitDelay - sinceLast;
      }
      lastRequestTime := afterWait;
      sent := sent + [SearchRequest(now, afterWait, params)];
    }

    /** `geocodeAddress`: no request and no state change when fewer than two
        parts survive; otherwise one rate-limited request, whose outcome is
        reduced to its first element or nothing. */
    method GeocodeAddress(a: Address, call: Exchange) returns (r: Option<GeocodeResult>)
      modifies this
      ensures r == Geocode(a, call.reply)
      ensures sent == old(sent) + RequestsFor(a, call)
      ensures lastRequestTime == LastAt(old(lastRequestTime), RequestsFor(a, call))
      ensures old(Valid()) && call.afterWait >= call.now + RequiredWait(call.now, old(lastRequestTime)) ==> Valid()
    {
      var parts := AddressParts(a);
      if |parts| < 2 {
        return None;
      }
      var _ := RateLimitedFetch(SearchParams(a), call.now, call.afterWait);
      r := Resolution(call.reply);
    }

    /** `geocodeOwnerAddress`. */
    method GeocodeOwnerAddress(p: PropertyRecord, call: Exchange) returns (r: Option<GeocodeResult>)
      modifies this
      ensures r == Geocode(OwnerAddress(p), call.reply)
      ensures sent == old(sent) + RequestsFor(OwnerAddress(p), call)
      ensures lastRequestTime == LastAt(old(lastRequestTime), RequestsFor(OwnerAddress(p), call))
      ensures old(Valid()) && call.afterWait >= call.now + RequiredWait(call.now, old(lastRequestTime)) ==> Valid()
    {
      r := GeocodeAddress(OwnerAddress(p), call);
    }

    /** `geocodeHolderAddress`. */
    method GeocodeHolderAddress(p: PropertyRecord, call: Exchange) returns (r: Option<GeocodeResult>)
      modifies this
      ensures r == Geocode(HolderAddress(p), call.reply)
      ensures sent == old(sent) + RequestsFor(HolderAddress(p), call)
      ensures lastRequestTime == LastAt(old(lastRequestTime), RequestsFor(HolderAddress(p), call))
      ensures old(Valid()) && call.afterWait >= call.now + RequiredWait(call.now, old(lastRequestTime)) ==> Valid()
    {
      r := GeocodeAddress(HolderAddress(p), call);
    }
  }
}
