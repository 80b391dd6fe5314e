/** What the LiteAPI adapter guarantees: nothing lost, nothing invented, fee
    order irrelevant, and no cancellation tier hidden from the matching rules. */
module LiteApiLaws {
  import opened Models
  import opened Matching
  import opened LiteApi
  import opened Reordering
  import MatchingLaws

  // ---------------------------------------------------------------- totals

  lemma {:induction false} ExtraSumRemove(fees: seq<Fee>, i: nat)
    requires i < |fees|
    ensures ExtraSum(fees) == ExtraSum(fees[..i] + fees[i + 1..]) + if Extra(fees[i]) then fees[i].amount.value else 0.0
  {
    var n := |fees| - 1;
    var rest := fees[..i] + fees[i + 1..];
    if i == n {
      assert rest == fees[..n];
    } else {
      ExtraSumRemove(fees[..n], i);
      assert fees[..n][..i] + fees[..n][i + 1..] == rest[..n - 1];
    }
  }

  lemma {:induction false} ExtraSumIgnoresOrder(fees: seq<Fee>, fees': seq<Fee>)
    requires multiset(fees) == multiset(fees')
    ensures ExtraSum(fees) == ExtraSum(fees')
    decreases |fees|
  {
    hide ExtraSum, Extra;
    SameLength(fees, fees');
    if fees != [] {
      var i := Partner(fees, fees');
      ExtraSumIgnoresOrder(fees[..0] + fees[1..], fees'[..i] + fees'[i + 1..]);
      ExtraSumRemove(fees, 0);
      ExtraSumRemove(fees', i);
    } else {
      assert fees' == [];
    }
  }

  /** Neither the total nor the rejection of a rate depends on the order its
      fees are listed in, although the scan stops at the first foreign one. */
  lemma {:induction false} FeeOrderIsIrrelevant(rate: Rate, fees: seq<Fee>)
    requires multiset(fees) == multiset(rate.fees)
    ensures AllIn(rate.(fees := fees)) == AllIn(rate)
  {
    ExtraSumIgnoresOrder(fees, rate.fees);
    forall f
      ensures f in fees <==> f in rate.fees
    {
      assert f in multiset(fees) <==> f in multiset(rate.fees);
    }
  }

  // ---------------------------------------------------------------- which fees count

  /** Two settings of one string: missing, or empty. */
  predicate Unstated(s: Option<string>) {
    s.None? || s.value == ""
  }

  /** A rate without a total, or without an amount, has no price. */
  lemma NoAmountNoPrice(rate: Rate)
    ensures rate.totals == [] || rate.totals[0].amount.None? ==> AllIn(rate).None?
  {
  }

  /** Without fees the price is the quote. */
  lemma NoFeesNoChange(rate: Rate)
    requires rate.totals != [] && rate.fees == []
    ensures AllIn(rate) == rate.totals[0].amount
  {
  }

  /** The fees around an inserted one. */
  lemma {:induction false} ExtraSumInsert(xs: seq<Fee>, f: Fee, ys: seq<Fee>)
    ensures ExtraSum(xs + [f] + ys) == ExtraSum(xs + ys) + ExtraSum([f])
  {
    var fees := xs + [f] + ys;
    ExtraSumRemove(fees, |xs|);
    assert fees[..|xs|] + fees[|xs| + 1..] == xs + ys && [f][..0] == [];
  }

  lemma MemberOfInserted(xs: seq<Fee>, f: Fee, ys: seq<Fee>)
    ensures forall x :: x in xs + [f] + ys <==> x == f || x in xs + ys
  {
  }

  /** A fee that is included in the total, or names no amount, changes nothing,
      wherever it is listed. */
  lemma {:induction false} IncludedFeeIsIgnored(rate: Rate, xs: seq<Fee>, f: Fee, ys: seq<Fee>)
    requires f.included || f.amount.None?
    ensures AllIn(rate.(fees := xs + [f] + ys)) == AllIn(rate.(fees := xs + ys))
  {
    ExtraSumInsert(xs, f, ys);
    MemberOfInserted(xs, f, ys);
    assert [f][..0] == [];
    var fees, less := xs + [f] + ys, xs + ys;
    assert forall x :: x in less ==> x in fees;
    assert forall x :: x in fees && Extra(x) ==> x in less;
  }

  /** A fee left out of the total is added to the price, if it is in the currency
      of the total, euros unless stated, or states none. */
  lemma {:induction false} LeftOutFeeIsAdded(rate: Rate, xs: seq<Fee>, f: Fee, ys: seq<Fee>)
    requires !f.included && f.amount.Some? && rate.totals != []
    requires || Unstated(f.currency)
             || f.currency.value == if Unstated(rate.totals[0].currency) then "EUR" else rate.totals[0].currency.value
    ensures var before, after := AllIn(rate.(fees := xs + ys)), AllIn(rate.(fees := xs + [f] + ys));
            after == if before.Some? then Some(before.value + f.amount.value) else None
  {
    ExtraSumInsert(xs, f, ys);
    MemberOfInserted(xs, f, ys);
    assert [f][..0] == [];
    var fees, less, currency := xs + [f] + ys, xs + ys, Currency(rate.totals[0]);
    assert forall x :: x in less ==> x in fees;
    assert forall x :: x in fees && Foreign(x, currency) ==> x in less;
  }

  /** In any other currency it takes the rate out of the answer. */
  lemma {:induction false} ForeignFeeRejects(rate: Rate, f: Fee)
    requires f in rate.fees && !f.included && f.amount.Some? && rate.totals != []
    requires !Unstated(f.currency)
    requires f.currency.value != if Unstated(rate.totals[0].currency) then "EUR" else rate.totals[0].currency.value
    ensures AllIn(rate).None?
  {
    assert Foreign(f, Currency(rate.totals[0]));
  }

  /** For instance: 122.54 EUR, VAT of 14.70 left out, city tax of 3.00 included. */
  lemma VatIsAdded(rate: Rate)
    requires rate.totals == [Total(Some(122.54), Some("EUR"))]
    requires rate.fees == [Fee(false, Some(14.70), Some("EUR")), Fee(true, Some(3.00), Some("EUR"))]
    ensures AllIn(rate) == Some(137.24)
  {
    assert rate.fees[..1][..0] == [];
    assert ExtraSum(rate.fees[..1]) == 14.70;
  }

  /** A total is never below the quoted amount unless a fee is negative. */
  lemma {:induction false} TotalCoversTheQuote(rate: Rate)
    requires AllIn(rate).Some?
    requires forall f :: f in rate.fees && Extra(f) ==> f.amount.value >= 0.0
    ensures rate.totals[0].amount.value <= AllIn(rate).value
    decreases |rate.fees|
  {
    if rate.fees != [] {
      var shorter := rate.(fees := rate.fees[..|rate.fees| - 1]);
      forall f | f in shorter.fees
        ensures f in rate.fees
      {
      }
      TotalCoversTheQuote(shorter);
      assert rate.fees[|rate.fees| - 1] in rate.fees;
    }
  }

  // ---------------------------------------------------------------- which rates are visited

  lemma {:induction false} RoomOfVisit(rooms: seq<RoomType>, n: nat) returns (r: nat, k: nat)
    requires n < |RoomVisits(rooms)|
    ensures r < |rooms| && k < |rooms[r].rates| && n == |RoomVisits(rooms[..r])| + k
  {
    var last := |rooms| - 1;
    if n < |RoomVisits(rooms[..last])| {
      r, k := RoomOfVisit(rooms[..last], n);
      assert rooms[..last][..r] == rooms[..r];
    } else {
      RateVisitsAre(rooms[last], rooms[last].rates);
      r, k := last, n - |RoomVisits(rooms[..last])|;
    }
  }

  /** Whatever is visited is a rate of the asked hotel, at its turn. */
  lemma {:induction false} VisitedRateIsListed(hotels: seq<Hotel>, hotelId: string, i: nat)
    returns (h: nat, r: nat, k: nat)
    requires i < |Visits(hotels, hotelId)|
    ensures Listed(hotels, hotelId, h, r, k) && i == Turn(hotels, hotelId, h, r, k)
    ensures Visits(hotels, hotelId)[i] == VisitAt(hotels, hotelId, h, r, k)
  {
    var last := |hotels| - 1;
    if i < |Visits(hotels[..last], hotelId)| {
      h, r, k := VisitedRateIsListed(hotels[..last], hotelId, i);
      assert hotels[..last][..h] == hotels[..h];
    } else {
      h := last;
      r, k := RoomOfVisit(hotels[last].roomTypes, i - |Visits(hotels[..last], hotelId)|);
      ListedRateIsVisited(hotels, hotelId, h, r, k);
    }
  }

  /** The order in which the answer lists its rates. */
  predicate ListedBefore(h: nat, r: nat, k: nat, h': nat, r': nat, k': nat) {
    h < h' || (h == h' && (r < r' || (r == r' && k < k')))
  }

  lemma {:induction false} EarlierRoomsFit(rooms: seq<RoomType>, r: nat, r': nat)
    requires r < r' <= |rooms|
    ensures |RoomVisits(rooms[..r])| + |rooms[r].rates| <= |RoomVisits(rooms[..r'])|
  {
    RoomVisitsSplit(rooms[..r'], r);
    assert rooms[..r'][..r] == rooms[..r];
    RateVisitsAre(rooms[r], rooms[r].rates);
  }

  lemma {:induction false} EarlierRateComesFirst(hotels: seq<Hotel>, hotelId: string, h: nat, r: nat, k: nat,
                                                 h': nat, r': nat, k': nat)
    requires Listed(hotels, hotelId, h, r, k) && Listed(hotels, hotelId, h', r', k')
    requires ListedBefore(h, r, k, h', r', k')
    ensures Turn(hotels, hotelId, h, r, k) < Turn(hotels, hotelId, h', r', k')
  {
    hide Visits, RoomVisits, RateVisits;
    var rooms := hotels[h].roomTypes;
    if h < h' {
      HotelVisitsSplit(hotels[..h'], hotelId, h);
      assert hotels[..h'][..h] == hotels[..h];
      EarlierRoomsFit(rooms, r, |rooms|);
      assert rooms[..|rooms|] == rooms;
    } else if r < r' {
      EarlierRoomsFit(rooms, r, r');
    }
  }

  /** The rates of the asked hotel are visited in the order of the answer, each
      exactly once. */
  lemma {:induction false} TurnsKeepOrder(hotels: seq<Hotel>, hotelId: string, h: nat, r: nat, k: nat,
                                          h': nat, r': nat, k': nat)
    requires Listed(hotels, hotelId, h, r, k) && Listed(hotels, hotelId, h', r', k')
    ensures ListedBefore(h, r, k, h', r', k') <==> Turn(hotels, hotelId, h, r, k) < Turn(hotels, hotelId, h', r', k')
    ensures (h, r, k) == (h', r', k') <==> Turn(hotels, hotelId, h, r, k) == Turn(hotels, hotelId, h', r', k')
  {
    hide Turn;
    if ListedBefore(h, r, k, h', r', k') {
      EarlierRateComesFirst(hotels, hotelId, h, r, k, h', r', k');
    } else if ListedBefore(h', r', k', h, r, k) {
      EarlierRateComesFirst(hotels, hotelId, h', r', k', h, r, k);
    }
  }

  /** So a visit is one to a rate of the asked hotel, and no such rate is left
      out. */
  lemma {:induction false} VisitsAreTheHotelsRates(hotels: seq<Hotel>, hotelId: string, v: Visit)
    ensures v in Visits(hotels, hotelId) <==>
              exists h: nat, r: nat, k: nat ::
                Listed(hotels, hotelId, h, r, k) && VisitAt(hotels, hotelId, h, r, k) == v
  {
    hide Visits, VisitAt, Turn;
    if v in Visits(hotels, hotelId) {
      var i: nat :| i < |Visits(hotels, hotelId)| && Visits(hotels, hotelId)[i] == v;
      var h, r, k := VisitedRateIsListed(hotels, hotelId, i);
    }
    if h: nat, r: nat, k: nat :| Listed(hotels, hotelId, h, r, k) && VisitAt(hotels, hotelId, h, r, k) == v {
      ListedRateIsVisited(hotels, hotelId, h, r, k);
    }
  }

  // ---------------------------------------------------------------- candidates

  function Rejected(vs: seq<Visit>): nat {
    if vs == [] then 0
    else Rejected(vs[..|vs| - 1]) + if AllIn(vs[|vs| - 1].rate).None? then 1 else 0
  }

  /** Accepted and rejected rates add up to the rates visited. */
  lemma {:induction false} EveryRateIsAccountedFor(vs: seq<Visit>, parse: string -> Option<Stamp>)
    requires AllOrderable(vs, parse)
    ensures |CandidatesOf(vs, parse)| + Rejected(vs) == |vs|
  {
    if vs != [] { EveryRateIsAccountedFor(vs[..|vs| - 1], parse); }
  }

  /** An accepted rate turns up exactly once, at the position given by the
      accepted rates before it, at its all-in price. */
  lemma {:induction false} AcceptedRateTurnsUp(vs: seq<Visit>, parse: string -> Option<Stamp>, i: nat)
    requires AllOrderable(vs, parse) && i < |vs| && AllIn(vs[i].rate).Some?
    ensures var k := i - Rejected(vs[..i]);
            var cs := CandidatesOf(vs, parse);
            && 0 <= k < |cs|
            && cs[k] == ToCandidate(vs[i], AllIn(vs[i].rate).value, WindowOf(vs[i].rate.infos, parse).at)
  {
    hide AllIn, WindowOf, ToCandidate, Unorderable;
    var n := |vs| - 1;
    EveryRateIsAccountedFor(vs[..i], parse);
    if i < n {
      AcceptedRateTurnsUp(vs[..n], parse, i);
      assert vs[..n][..i] == vs[..i];
    }
  }

  /** Every candidate comes from an accepted rate, and later candidates from
      later rates. */
  lemma {:induction false} CandidateHasARate(vs: seq<Visit>, parse: string -> Option<Stamp>, k: nat) returns (i: nat)
    requires AllOrderable(vs, parse) && k < |CandidatesOf(vs, parse)|
    ensures i < |vs| && AllIn(vs[i].rate).Some? && k == i - Rejected(vs[..i])
    ensures CandidatesOf(vs, parse)[k]
         == ToCandidate(vs[i], AllIn(vs[i].rate).value, WindowOf(vs[i].rate.infos, parse).at)
  {
    hide AllIn, WindowOf, ToCandidate, Unorderable;
    var n := |vs| - 1;
    EveryRateIsAccountedFor(vs[..n], parse);
    if k < |CandidatesOf(vs[..n], parse)| {
      i := CandidateHasARate(vs[..n], parse, k);
      assert vs[..n][..i] == vs[..i];
    } else {
      i := n;
    }
  }

  /** What a candidate says of its rate, column by column. It never has a link, and
      never states children. */
  lemma {:induction false} CandidateTellsItsRate(vs: seq<Visit>, parse: string -> Option<Stamp>, k: nat)
    returns (i: nat)
    requires AllOrderable(vs, parse) && k < |CandidatesOf(vs, parse)|
    ensures i < |vs| && AllIn(vs[i].rate).Some? && k == i - Rejected(vs[..i])
    ensures var c, rate := CandidatesOf(vs, parse)[k], vs[i].rate;
            && Some(c.price) == AllIn(rate) && c.freeUntil == WindowOf(rate.infos, parse).at
            && c.ota == "LiteAPI" && c.link.None? && c.children.None? && c.board == rate.board
            && c.currency == (if Unstated(rate.totals[0].currency) then "EUR" else rate.totals[0].currency.value)
            && (c.refundable <==> rate.refundableTag == Some("RFN"))
            && c.room == (if Unstated(rate.name) then vs[i].roomName else rate.name)
            && c.adults == (if rate.occupancyNumber.Some? && rate.occupancyNumber.value != 0
                            then (if rate.occupancyNumber.value < 0 then None else rate.occupancyNumber)
                            else if rate.maxOccupancy.Some? && rate.maxOccupancy.value < 0 then None
                            else rate.maxOccupancy)
  {
    i := CandidateHasARate(vs, parse, k);
    hide CandidatesOf, AllIn, WindowOf, Rejected, AllOrderable;
  }

  /** A candidate comes from one rate only. */
  lemma {:induction false} SameRate(vs: seq<Visit>, parse: string -> Option<Stamp>, k: nat, i: nat, i': nat)
    requires i < |vs| && i' < |vs| && AllIn(vs[i].rate).Some? && AllIn(vs[i'].rate).Some?
    requires k == i - Rejected(vs[..i]) == i' - Rejected(vs[..i'])
    ensures i == i'
  {
    if i < i' {
      RankGrows(vs, i, i');
    } else if i' < i {
      RankGrows(vs, i', i);
    }
  }

  /** The number of accepted rates before a position strictly grows past an
      accepted rate. */
  lemma {:induction false} RankGrows(vs: seq<Visit>, i: nat, i': nat)
    requires i < i' <= |vs| && AllIn(vs[i].rate).Some?
    ensures i - Rejected(vs[..i]) < i' - Rejected(vs[..i'])
  {
    assert vs[..i'][..i' - 1] == vs[..i' - 1];
    if i < i' - 1 { RankGrows(vs, i, i' - 1); }
  }

  // ---------------------------------------------------------------- the cancellation window

  predicate Uniform(ss: seq<Stamp>) {
    (forall i :: 0 <= i < |ss| ==> ss[i].Naive?) || (forall i :: 0 <= i < |ss| ==> ss[i].Aware?)
  }

  /** The scan raises exactly on a mixture of stamps with and without offset;
      otherwise it finds the earliest. */
  lemma {:induction false} MinStampIsEarliest(ss: seq<Stamp>)
    requires ss != []
    ensures MinStamp(ss).MixedStamps? <==> !Uniform(ss)
    ensures MinStamp(ss).Until? ==>
              && MinStamp(ss).at.value in ss
              && forall i :: 0 <= i < |ss| ==> MinStamp(ss).at.value.at <= ss[i].at
  {
    var n := |ss| - 1;
    if |ss| > 1 {
      MinStampIsEarliest(ss[..n]);
      if Uniform(ss[..n]) {
        var m := MinStamp(ss[..n]).at.value;
        var k :| 0 <= k < n && ss[k] == m;
      }
    }
  }

  /** The time of a tier is read from the first known key that has a value. */
  lemma {:induction false} FirstKeyWins(fields: map<string, string>, keys: seq<string>)
    ensures Field(fields, keys).None? <==> forall k :: 0 <= k < |keys| ==> !(keys[k] in fields && fields[keys[k]] != "")
    ensures Field(fields, keys).Some? ==>
              exists k :: 0 <= k < |keys| && keys[k] in fields && fields[keys[k]] == Field(fields, keys).value != ""
                          && forall i :: 0 <= i < k ==> !(keys[i] in fields && fields[keys[i]] != "")
  {
    if keys != [] && !(keys[0] in fields && fields[keys[0]] != "") {
      var rest := keys[1..];
      FirstKeyWins(fields, rest);
      if Field(fields, rest).Some? {
        var k :| 0 <= k < |rest| && rest[k] in fields && fields[rest[k]] == Field(fields, rest).value != ""
                 && forall i :: 0 <= i < k ==> !(rest[i] in fields && fields[rest[i]] != "");
        assert keys[k + 1] == rest[k];
        forall i | 0 <= i < k + 1
          ensures !(keys[i] in fields && fields[keys[i]] != "")
        {
          if i > 0 { assert keys[i] == rest[i - 1]; }
        }
      } else {
        forall k | 0 <= k < |keys|
          ensures !(keys[k] in fields && fields[keys[k]] != "")
        {
          if k > 0 { assert keys[k] == rest[k - 1]; }
        }
      }
    }
  }

  /** Which keys these are, and in which order. */
  lemma {:induction false} TierKeys(fields: map<string, string>, parse: string -> Option<Stamp>)
    ensures var keys := ["cancelTime", "cancellationTime", "cancel_time", "deadline", "from"];
            && (Recognised(Dict(fields), parse).Some? ==>
                  exists k :: 0 <= k < 5 && keys[k] in fields && fields[keys[k]] != ""
                              && Recognised(Dict(fields), parse) == parse(fields[keys[k]])
                              && forall i :: 0 <= i < k ==> !(keys[i] in fields && fields[keys[i]] != ""))
            && (Recognised(Dict(fields), parse).None? ==>
                  forall k :: 0 <= k < 5 && keys[k] in fields && fields[keys[k]] != ""
                              && (forall i :: 0 <= i < k ==> !(keys[i] in fields && fields[keys[i]] != "")) ==>
                    parse(fields[keys[k]]).None?)
            && Recognised(NotDict, parse).None?
  {
    FirstKeyWins(fields, CANCEL_TIME_KEYS);
    hide Field;
  }

  /** A single object counts like a list that holds it, and nothing like an empty
      list. */
  lemma SingleTierIsAList(info: Info, parse: string -> Option<Stamp>)
    ensures WindowOf(Single(info), parse) == WindowOf(Many([info]), parse)
    ensures WindowOf(NoInfos, parse) == WindowOf(Many([]), parse) == Until(None)
    ensures Recognised(info, parse).Some? ==> WindowOf(Single(info), parse) == Until(Recognised(info, parse))
  {
    assert [info][..0] == [];
  }

  /** A tier with a time that can be read. */
  predicate Readable(infos: seq<Info>, parse: string -> Option<Stamp>, t: int) {
    0 <= t < |infos| && Recognised(infos[t], parse).Some?
  }

  lemma {:induction false} RecognisedTierIsAStamp(infos: seq<Info>, parse: string -> Option<Stamp>, i: nat)
    requires Readable(infos, parse, i)
    ensures Recognised(infos[i], parse).value in Stamps(infos, parse)
  {
    if i < |infos| - 1 { RecognisedTierIsAStamp(infos[..|infos| - 1], parse, i); }
  }

  lemma {:induction false} StampIsARecognisedTier(infos: seq<Info>, parse: string -> Option<Stamp>, i: nat)
    returns (t: nat)
    requires i < |Stamps(infos, parse)|
    ensures Readable(infos, parse, t) && Recognised(infos[t], parse).value == Stamps(infos, parse)[i]
  {
    hide Recognised;
    var n := |infos| - 1;
    if i < |Stamps(infos[..n], parse)| {
      t := StampIsARecognisedTier(infos[..n], parse, i);
    } else {
      t := n;
    }
  }

  /** The boundary of a rate: none exactly if no tier can be read, an exception
      exactly if one readable tier has an offset and another has none, and
      otherwise the earliest of the readable tiers. */
  lemma {:induction false} WindowIsTheEarliestTier(infos: Infos, parse: string -> Option<Stamp>)
    ensures var tiers, w := Tiers(infos), WindowOf(infos, parse);
            && (w == Until(None) <==> forall t :: !Readable(tiers, parse, t))
            && (w.MixedStamps? <==>
                  exists t, u :: Readable(tiers, parse, t) && Readable(tiers, parse, u)
                                 && Recognised(tiers[t], parse).value.Naive?
                                 && Recognised(tiers[u], parse).value.Aware?)
            && (w.Until? && w.at.Some? ==>
                  && (exists t :: Readable(tiers, parse, t) && Recognised(tiers[t], parse) == w.at)
                  && forall t :: Readable(tiers, parse, t) ==> w.at.value.at <= Recognised(tiers[t], parse).value.at)
  {
    hide Stamps, Recognised, MinStamp;
    var tiers := Tiers(infos);
    var ss := Stamps(tiers, parse);
    forall t | Readable(tiers, parse, t)
      ensures Recognised(tiers[t], parse).value in ss
    {
      RecognisedTierIsAStamp(tiers, parse, t);
    }
    forall i | 0 <= i < |ss|
      ensures exists t :: Readable(tiers, parse, t) && Recognised(tiers[t], parse).value == ss[i]
    {
      var t := StampIsARecognisedTier(tiers, parse, i);
    }
    if ss != [] { MinStampIsEarliest(ss); }
  }

  /** A matched rate hides no shorter window: every tier of the rate whose time
      could be read lies at or after the deadline the user holds. */
  lemma {:induction false} NoHiddenShorterWindow(vs: seq<Visit>, parse: string -> Option<Stamp>, j: Job, k: nat)
    returns (i: nat)
    requires AllOrderable(vs, parse) && k < |CandidatesOf(vs, parse)|
    requires j.terms.deadline.Some? && MatchesRoom(CandidatesOf(vs, parse)[k], j)
    ensures i < |vs| && AllIn(vs[i].rate).Some? && k == i - Rejected(vs[..i])
    ensures var tiers := Tiers(vs[i].rate.infos);
            forall t :: 0 <= t < |tiers| && Recognised(tiers[t], parse).Some? ==>
              j.terms.deadline.value.at <= Recognised(tiers[t], parse).value.at
  {
    i := CandidateHasARate(vs, parse, k);
    WindowIsTheEarliestTier(vs[i].rate.infos, parse);
    assert !Unorderable(vs[i], parse);
    hide WindowOf, AllIn, Recognised, CandidatesOf;
    var tiers := Tiers(vs[i].rate.infos);
    forall t | 0 <= t < |tiers| && Recognised(tiers[t], parse).Some?
      ensures j.terms.deadline.value.at <= Recognised(tiers[t], parse).value.at
    {
      assert Readable(tiers, parse, t);
    }
  }

  /** The adapter raises exactly when a rate of the asked hotel that has a price
      mixes readable tiers with and without an offset. */
  lemma {:induction false} RaisesOnMixedTiers(vs: seq<Visit>, parse: string -> Option<Stamp>)
    ensures AllOrderable(vs, parse) <==>
              forall i :: 0 <= i < |vs| && AllIn(vs[i].rate).Some? ==> Uniform(Stamps(Tiers(vs[i].rate.infos), parse))
  {
    forall i | 0 <= i < |vs|
      ensures Unorderable(vs[i], parse) <==>
                AllIn(vs[i].rate).Some? && !Uniform(Stamps(Tiers(vs[i].rate.infos), parse))
    {
      var ss := Stamps(Tiers(vs[i].rate.infos), parse);
      if ss != [] { MinStampIsEarliest(ss); }
    }
  }

  /** The feed carries no links, so with the link gate on every drop it shows is
      held. */
  lemma {:induction false} FeedDropsAreHeld(vs: seq<Visit>, parse: string -> Option<Stamp>, cfg: Settings, j: Job)
    requires AllOrderable(vs, parse) && cfg.requireLink
    ensures !ReachableDrop(cfg, BestLikeForLike(CandidatesOf(vs, parse), j), j)
  {
    var cs := CandidatesOf(vs, parse);
    MatchingLaws.BestIsArgmin(cs, j);
    if BestLikeForLike(cs, j).Some? {
      var k :| 0 <= k < |cs| && cs[k] == BestLikeForLike(cs, j).value;
      var i := CandidateHasARate(vs, parse, k);
    }
  }
}
