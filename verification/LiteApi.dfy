/** The LiteAPI adapter: from the provider's nested answer to comparable,
    all-in rates. */
module LiteApi {
  import opened Models

  // ---------------------------------------------------------------- the answer's shape

  datatype Fee = Fee(included: bool, amount: Option<real>, currency: Option<string>)

  datatype Total = Total(amount: Option<real>, currency: Option<string>)

  /** One cancellation tier: a dictionary of strings, or something else. */
  datatype Info = NotDict | Dict(fields: map<string, string>)

  /** The tiers arrive as a list, as a single object, or not at all. */
  datatype Infos = NoInfos | Many(infos: seq<Info>) | Single(info: Info)

  datatype Rate = Rate(totals: seq<Total>, fees: seq<Fee>, infos: Infos, refundableTag: Option<string>,
                       name: Option<string>, board: Option<string>, occupancyNumber: Option<int>,
                       maxOccupancy: Option<int>)

  datatype RoomType = RoomType(name: Option<string>, rates: seq<Rate>)

  datatype Hotel = Hotel(hotelId: string, roomTypes: seq<RoomType>)

  /** A rate together with the name of the room type it is listed under. */
  datatype Visit = Visit(roomName: Option<string>, rate: Rate)

  const CANCEL_TIME_KEYS: seq<string> := ["cancelTime", "cancellationTime", "cancel_time", "deadline", "from"]

  /** Python's `a or b` on optional strings. */
  function Or(a: Option<string>, b: Option<string>): Option<string> {
    if Truthy(a) then a else b
  }

  // ---------------------------------------------------------------- the free-cancellation window

  /** A computed boundary, or the exception Python raises when it has to order
      a stamp with an offset and one without. */
  datatype Window = MixedStamps | Until(at: Option<Stamp>)

  function Field(fields: map<string, string>, keys: seq<string>): Option<string> {
    if keys == [] then None
    else if keys[0] in fields && fields[keys[0]] != "" then Some(fields[keys[0]])
    else Field(fields, keys[1..])
  }

  /** The boundary a tier states, if its time has a known key and format. */
  function Recognised(info: Info, parse: string -> Option<Stamp>): Option<Stamp> {
    if info.NotDict? then None
    else
      var raw := Field(info.fields, CANCEL_TIME_KEYS);
      if raw.None? then None else parse(raw.value)
  }

  function Tiers(infos: Infos): seq<Info> {
    match infos
    case NoInfos => []
    case Many(infos) => infos
    case Single(info) => [info]
  }

  function Stamps(infos: seq<Info>, parse: string -> Option<Stamp>): seq<Stamp> {
    if infos == [] then []
    else
      var s := Recognised(infos[|infos| - 1], parse);
      Stamps(infos[..|infos| - 1], parse) + if s.Some? then [s.value] else []
  }

  /** Python's `min` on datetimes: one scan, which raises when it meets a stamp
      of the other kind. */
  function MinStamp(ss: seq<Stamp>): (w: Window)
    requires ss != []
    ensures w.Until? ==> w.at.Some?
  {
    var last := ss[|ss| - 1];
    if |ss| == 1 then Until(Some(last))
    else
      var w := MinStamp(ss[..|ss| - 1]);
      if w.MixedStamps? || w.at.value.Naive? != last.Naive? then MixedStamps
      else if last.at < w.at.value.at then Until(Some(last))
      else w
  }

  function WindowOf(infos: Infos, parse: string -> Option<Stamp>): Window {
    var ss := Stamps(Tiers(infos), parse);
    if ss == [] then Until(None) else MinStamp(ss)
  }

  method FreeCancellationUntil(infos: Infos, parse: string -> Option<Stamp>) returns (w: Window)
    ensures w == WindowOf(infos, parse)
  {
    var tiers := Tiers(infos);
    var stamps: seq<Stamp> := [];
    for i := 0 to |tiers|
      invariant stamps == Stamps(tiers[..i], parse)
    {
      assert tiers[..i + 1][..i] == tiers[..i];
      if tiers[i].NotDict? { continue; }
      var raw := Field(tiers[i].fields, CANCEL_TIME_KEYS);
      if raw.None? { continue; }
      var parsed := parse(raw.value);
      if parsed.None? { continue; }
      stamps := stamps + [parsed.value];
    }
    assert tiers[..|tiers|] == tiers;
    w := if stamps == [] then Until(None) else MinStamp(stamps);
  }

  // ---------------------------------------------------------------- the all-in total

  function Currency(total: Total): string {
    if Truthy(total.currency) then total.currency.value else "EUR"
  }

  /** A fee the quoted total leaves out. */
  predicate Extra(f: Fee) {
    !f.included && f.amount.Some?
  }

  predicate Foreign(f: Fee, currency: string) {
    Extra(f) && Or(f.currency, Some(currency)) != Some(currency)
  }

  function ExtraSum(fees: seq<Fee>): real {
    if fees == [] then 0.0
    else
      var f := fees[|fees| - 1];
      ExtraSum(fees[..|fees| - 1]) + if Extra(f) then f.amount.value else 0.0
  }

  /** The price a rate really costs: the quoted amount plus every fee it leaves
      out. There is none if no amount is quoted, or if a left-out fee is in
      another currency. */
  function AllIn(rate: Rate): Option<real> {
    if rate.totals == [] || rate.totals[0].amount.None? then None
    else if exists f :: f in rate.fees && Foreign(f, Currency(rate.totals[0])) then None
    else Some(rate.totals[0].amount.value + ExtraSum(rate.fees))
  }

  method AllInTotal(rate: Rate) returns (total: Option<real>)
    ensures total == AllIn(rate)
  {
    if rate.totals == [] { return None; }
    var amount := rate.totals[0].amount;
    if amount.None? { return None; }
    var currency := Currency(rate.totals[0]);
    var sum := amount.value;
    var skip := false;
    var i := 0;
    while i < |rate.fees|
      invariant 0 <= i <= |rate.fees|
      invariant !skip
      invariant sum == amount.value + ExtraSum(rate.fees[..i])
      invariant forall k :: 0 <= k < i ==> !Foreign(rate.fees[k], currency)
    {
      var fee := rate.fees[i];
      assert rate.fees[..i + 1][..i] == rate.fees[..i];
      if fee.included || fee.amount.None? {
        i := i + 1;
        continue;
      }
      if Or(fee.currency, Some(currency)) != Some(currency) {
        assert Foreign(fee, currency) && fee in rate.fees;
        skip := true;
        break;
      }
      sum := sum + fee.amount.value;
      i := i + 1;
    }
    if skip { return None; }
    assert rate.fees[..i] == rate.fees;
    total := Some(sum);
  }

  // ---------------------------------------------------------------- candidates

  function Occupancy(rate: Rate): Option<int> {
    var occ := if rate.occupancyNumber.Some? && rate.occupancyNumber.value != 0
               then rate.occupancyNumber else rate.maxOccupancy;
    if occ.Some? && occ.value >= 0 then occ else None
  }

  /** The candidate an accepted rate becomes. The feed is for detection only, so
      it never carries a link. */
  function ToCandidate(v: Visit, total: real, until: Option<Stamp>): Candidate
    requires v.rate.totals != []
  {
    Candidate("LiteAPI", total, Currency(v.rate.totals[0]), v.rate.board, Occupancy(v.rate), None,
              v.rate.refundableTag == Some("RFN"), None, Or(v.rate.name, v.roomName), until)
  }

  /** Rates listed under room types, in order. */
  function RateVisits(room: RoomType, rates: seq<Rate>): seq<Visit> {
    if rates == [] then []
    else RateVisits(room, rates[..|rates| - 1]) + [Visit(room.name, rates[|rates| - 1])]
  }

  function RoomVisits(rooms: seq<RoomType>): seq<Visit> {
    if rooms == [] then []
    else
      var room := rooms[|rooms| - 1];
      RoomVisits(rooms[..|rooms| - 1]) + RateVisits(room, room.rates)
  }

  /** Every rate of the asked hotel, in the order of the answer. */
  function Visits(hotels: seq<Hotel>, hotelId: string): seq<Visit> {
    if hotels == [] then []
    else
      var hotel := hotels[|hotels| - 1];
      Visits(hotels[..|hotels| - 1], hotelId) + if hotel.hotelId == hotelId then RoomVisits(hotel.roomTypes) else []
  }

  /** The rate has a price, and its tiers cannot be ordered. */
  predicate Unorderable(v: Visit, parse: string -> Option<Stamp>) {
    AllIn(v.rate).Some? && WindowOf(v.rate.infos, parse).MixedStamps?
  }

  predicate AllOrderable(vs: seq<Visit>, parse: string -> Option<Stamp>) {
    forall i :: 0 <= i < |vs| ==> !Unorderable(vs[i], parse)
  }

  /** One candidate for every visited rate with a price, none for the others. */
  function CandidatesOf(vs: seq<Visit>, parse: string -> Option<Stamp>): seq<Candidate>
    requires AllOrderable(vs, parse)
  {
    if vs == [] then []
    else
      var v := vs[|vs| - 1];
      var total := AllIn(v.rate);
      CandidatesOf(vs[..|vs| - 1], parse)
        + if total.Some? then [ToCandidate(v, total.value, WindowOf(v.rate.infos, parse).at)] else []
  }

  /** The body of the loops: one more rate has been looked at. */
  method ReadRate(v: Visit, parse: string -> Option<Stamp>, ghost seen: seq<Visit>, candidates: seq<Candidate>)
    returns (raised: bool, more: seq<Candidate>)
    requires AllOrderable(seen, parse) && candidates == CandidatesOf(seen, parse)
    ensures raised <==> Unorderable(v, parse)
    ensures !raised ==> AllOrderable(seen + [v], parse) && more == CandidatesOf(seen + [v], parse)
  {
    assert (seen + [v])[..|seen|] == seen;
    var total := AllInTotal(v.rate);
    if total.None? { return false, candidates; }
    var window := FreeCancellationUntil(v.rate.infos, parse);
    if window.MixedStamps? { return true, candidates; }
    return false, candidates + [ToCandidate(v, total.value, window.at)];
  }

  lemma NothingSeen(parse: string -> Option<Stamp>)
    ensures AllOrderable([], parse) && CandidatesOf([], parse) == []
  {
  }

  lemma OrderableAppend(vs: seq<Visit>, ws: seq<Visit>, parse: string -> Option<Stamp>)
    ensures AllOrderable(vs + ws, parse) <==> AllOrderable(vs, parse) && AllOrderable(ws, parse)
  {
    hide Unorderable;
    if AllOrderable(vs + ws, parse) {
      forall i | 0 <= i < |vs| ensures !Unorderable(vs[i], parse) { assert (vs + ws)[i] == vs[i]; }
      forall i | 0 <= i < |ws| ensures !Unorderable(ws[i], parse) { assert (vs + ws)[|vs| + i] == ws[i]; }
    }
  }

  /** The innermost loop: the rates of one room type. */
  method ReadRoom(room: RoomType, parse: string -> Option<Stamp>, ghost before: seq<Visit>, read: seq<Candidate>)
    returns (raised: bool, candidates: seq<Candidate>)
    requires AllOrderable(before, parse) && read == CandidatesOf(before, parse)
    ensures var seen := before + RateVisits(room, room.rates);
            && (raised <==> !AllOrderable(RateVisits(room, room.rates), parse))
            && (!raised ==> AllOrderable(seen, parse) && candidates == CandidatesOf(seen, parse))
  {
    hide Unorderable, CandidatesOf, AllOrderable;
    candidates := read;
    ghost var seen := before;
    for k := 0 to |room.rates|
      invariant seen == before + RateVisits(room, room.rates[..k])
      invariant AllOrderable(seen, parse) && candidates == CandidatesOf(seen, parse)
    {
      assert room.rates[..k + 1][..k] == room.rates[..k];
      var v := Visit(room.name, room.rates[k]);
      var failed, more := ReadRate(v, parse, seen, candidates);
      if failed {
        RateVisitsAre(room, room.rates);
        UnorderableMember(RateVisits(room, room.rates), v, parse);
        return true, candidates;
      }
      candidates := more;
      seen := seen + [v];
    }
    assert room.rates[..|room.rates|] == room.rates;
    OrderableAppend(before, RateVisits(room, room.rates), parse);
    raised := false;
  }

  lemma UnorderableMember(vs: seq<Visit>, v: Visit, parse: string -> Option<Stamp>)
    requires v in vs && Unorderable(v, parse)
    ensures !AllOrderable(vs, parse)
  {
    hide Unorderable;
    var i :| 0 <= i < |vs| && vs[i] == v;
    assert Unorderable(vs[i], parse);
  }

  /** The whole answer: an exception if some priced rate of the asked hotel has
      tiers that cannot be ordered, otherwise the priced rates in order. */
  method ToCandidates(hotels: seq<Hotel>, hotelId: string, parse: string -> Option<Stamp>)
    returns (raised: bool, candidates: seq<Candidate>)
    ensures raised <==> !AllOrderable(Visits(hotels, hotelId), parse)
    ensures !raised ==> candidates == CandidatesOf(Visits(hotels, hotelId), parse)
  {
    hide Unorderable, CandidatesOf, AllOrderable;
    candidates := [];
    ghost var seen: seq<Visit> := [];
    NothingSeen(parse);
    for h := 0 to |hotels|
      invariant seen == Visits(hotels[..h], hotelId)
      invariant AllOrderable(seen, parse) && candidates == CandidatesOf(seen, parse)
    {
      var hotel := hotels[h];
      assert hotels[..h + 1][..h] == hotels[..h];
      if hotel.hotelId != hotelId { continue; }
      ghost var before := seen;
      for r := 0 to |hotel.roomTypes|
        invariant seen == before + RoomVisits(hotel.roomTypes[..r])
        invariant AllOrderable(seen, parse) && candidates == CandidatesOf(seen, parse)
      {
        var room := hotel.roomTypes[r];
        assert hotel.roomTypes[..r + 1][..r] == hotel.roomTypes[..r];
        var failed, more := ReadRoom(room, parse, seen, candidates);
        if failed {
          RoomIsListed(hotels, hotelId, h, r, parse);
          return true, candidates;
        }
        candidates := more;
        seen := seen + RateVisits(room, room.rates);
      }
      assert hotel.roomTypes[..|hotel.roomTypes|] == hotel.roomTypes;
    }
    assert hotels[..|hotels|] == hotels;
    raised := false;
  }

  // ---------------------------------------------------------------- every rate is visited

  /** Rate k of room type r of hotel h is a rate of the asked hotel. */
  predicate Listed(hotels: seq<Hotel>, hotelId: string, h: nat, r: nat, k: nat) {
    && h < |hotels| && hotels[h].hotelId == hotelId
    && r < |hotels[h].roomTypes|
    && k < |hotels[h].roomTypes[r].rates|
  }

  function VisitAt(hotels: seq<Hotel>, hotelId: string, h: nat, r: nat, k: nat): Visit
    requires Listed(hotels, hotelId, h, r, k)
  {
    var room := hotels[h].roomTypes[r];
    Visit(room.name, room.rates[k])
  }

  /** Where its turn comes. */
  function Turn(hotels: seq<Hotel>, hotelId: string, h: nat, r: nat, k: nat): nat
    requires Listed(hotels, hotelId, h, r, k)
  {
    |Visits(hotels[..h], hotelId)| + |RoomVisits(hotels[h].roomTypes[..r])| + k
  }

  lemma {:induction false} RateVisitsAre(room: RoomType, rates: seq<Rate>)
    ensures |RateVisits(room, rates)| == |rates|
    ensures forall k :: 0 <= k < |rates| ==> RateVisits(room, rates)[k] == Visit(room.name, rates[k])
  {
    if rates != [] { RateVisitsAre(room, rates[..|rates| - 1]); }
  }

  /** The visits of room type r stand between those of the earlier and of the
      later ones. */
  lemma {:induction false} RoomVisitsSplit(rooms: seq<RoomType>, r: nat)
    requires r < |rooms|
    ensures RoomVisits(rooms[..r]) + RateVisits(rooms[r], rooms[r].rates) == RoomVisits(rooms[..r + 1])
    ensures RoomVisits(rooms[..r + 1]) <= RoomVisits(rooms)
  {
    assert rooms[..r + 1][..r] == rooms[..r];
    if r == |rooms| - 1 {
      assert rooms[..r + 1] == rooms;
    } else {
      var front := rooms[..|rooms| - 1];
      RoomVisitsSplit(front, r);
      assert front[..r + 1] == rooms[..r + 1];
    }
  }

  lemma {:induction false} HotelVisitsSplit(hotels: seq<Hotel>, hotelId: string, h: nat)
    requires h < |hotels|
    ensures Visits(hotels[..h + 1], hotelId)
         == Visits(hotels[..h], hotelId)
            + if hotels[h].hotelId == hotelId then RoomVisits(hotels[h].roomTypes) else []
    ensures Visits(hotels[..h + 1], hotelId) <= Visits(hotels, hotelId)
  {
    assert hotels[..h + 1][..h] == hotels[..h];
    if h == |hotels| - 1 {
      assert hotels[..h + 1] == hotels;
    } else {
      var front := hotels[..|hotels| - 1];
      HotelVisitsSplit(front, hotelId, h);
      assert front[..h + 1] == hotels[..h + 1];
    }
  }

  /** Every rate of the asked hotel is visited, at its turn. */
  lemma {:induction false} ListedRateIsVisited(hotels: seq<Hotel>, hotelId: string, h: nat, r: nat, k: nat)
    requires Listed(hotels, hotelId, h, r, k)
    ensures var i := Turn(hotels, hotelId, h, r, k);
            i < |Visits(hotels, hotelId)| && Visits(hotels, hotelId)[i] == VisitAt(hotels, hotelId, h, r, k)
  {
    hide Visits, RoomVisits, RateVisits;
    var rooms := hotels[h].roomTypes;
    HotelVisitsSplit(hotels, hotelId, h);
    RoomVisitsSplit(rooms, r);
    RateVisitsAre(rooms[r], rooms[r].rates);
    var before := |Visits(hotels[..h], hotelId)|;
    var n := |RoomVisits(rooms[..r])|;
    assert RoomVisits(rooms)[n + k] == RoomVisits(rooms[..r + 1])[n + k] == RateVisits(rooms[r], rooms[r].rates)[k];
    assert Visits(hotels, hotelId)[before + n + k] == Visits(hotels[..h + 1], hotelId)[before + n + k]
        == RoomVisits(rooms)[n + k];
  }

  /** An unorderable room of the asked hotel makes the whole answer so. */
  lemma {:induction false} RoomIsListed(hotels: seq<Hotel>, hotelId: string, h: nat, r: nat,
                                        parse: string -> Option<Stamp>)
    requires h < |hotels| && hotels[h].hotelId == hotelId && r < |hotels[h].roomTypes|
    requires var room := hotels[h].roomTypes[r]; !AllOrderable(RateVisits(room, room.rates), parse)
    ensures !AllOrderable(Visits(hotels, hotelId), parse)
  {
    hide Unorderable, Visits, RateVisits;
    var room := hotels[h].roomTypes[r];
    RateVisitsAre(room, room.rates);
    var k: nat :| k < |room.rates| && Unorderable(RateVisits(room, room.rates)[k], parse);
    ListedRateIsVisited(hotels, hotelId, h, r, k);
    assert Unorderable(Visits(hotels, hotelId)[Turn(hotels, hotelId, h, r, k)], parse);
  }
}
