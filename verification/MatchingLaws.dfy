/** What the matching rules guarantee: the best match is a true minimum over
    the rates that agree with the booking. */
module MatchingLaws {
  import opened Models
  import opened Matching
  import RoomClasses

  /** The comparison rules, told from the candidate's side: everything both
      parties state must agree. */
  predicate Agrees(c: Candidate, j: Job) {
    && c.refundable
    && (j.terms.deadline.Some? && c.freeUntil.Some? ==> j.terms.deadline.value.at <= c.freeUntil.value.at)
    && (j.terms.board.Some? ==> c.board == j.terms.board)
    && (j.terms.adults.Some? && c.adults.Some? ==> c.adults.value == j.terms.adults.value)
    && (j.terms.children.Some? && c.children.Some? ==> c.children.value == j.terms.children.value)
    && (RoomClass(j.terms.roomType).Some? && RoomClass(c.room).Some? ==>
          RoomClass(c.room) == RoomClass(j.terms.roomType))
  }

  lemma {:induction false} MatchingIsAgreement(c: Candidate, j: Job)
    ensures MatchesRoom(c, j) <==> Agrees(c, j)
  {
    if Truthy(j.terms.roomType) { RoomClasses.FirstClassIsAWord(ROOM_CLASSES, Normalize(j.terms.roomType.value)); }
    if Truthy(c.room) { RoomClasses.FirstClassIsAWord(ROOM_CLASSES, Normalize(c.room.value)); }
  }

  lemma {:induction false} EligibleAppend(xs: seq<Candidate>, ys: seq<Candidate>, j: Job)
    ensures Eligible(xs + ys, j) == Eligible(xs, j) + Eligible(ys, j)
  {
    if xs == [] {
      assert xs + ys == ys;
    } else {
      EligibleAppend(xs[1..], ys, j);
      assert (xs + ys)[1..] == xs[1..] + ys;
    }
  }

  lemma {:induction false} EligibleMultiset(cs: seq<Candidate>, j: Job, c: Candidate)
    ensures multiset(Eligible(cs, j))[c] == if MatchesRoom(c, j) then multiset(cs)[c] else 0
  {
    if cs != [] {
      EligibleMultiset(cs[1..], j, c);
      assert cs == [cs[0]] + cs[1..];
    }
  }

  /** The scan returns the first of the cheapest: nothing earlier is as cheap,
      nothing later is cheaper. */
  lemma {:induction false} CheapestIsFirstMinimum(cs: seq<Candidate>) returns (k: nat)
    requires cs != []
    ensures k < |cs| && Cheapest(cs) == cs[k]
    ensures forall i :: 0 <= i < k ==> cs[k].price < cs[i].price
    ensures forall i :: k <= i < |cs| ==> cs[k].price <= cs[i].price
  {
    k := |cs| - 1;
    if |cs| > 1 {
      var m := CheapestIsFirstMinimum(cs[..|cs| - 1]);
      if cs[k].price >= cs[m].price { k := m; }
    }
  }

  /** There is a best match exactly when some rate agrees with the booking, and
      then it is one of the listed rates, agrees, and is nowhere undercut. */
  lemma {:induction false} BestIsArgmin(cs: seq<Candidate>, j: Job)
    ensures BestLikeForLike(cs, j).None? <==> forall i :: 0 <= i < |cs| ==> !Agrees(cs[i], j)
    ensures var b := BestLikeForLike(cs, j);
            b.Some? ==> b.value in cs && Agrees(b.value, j)
                        && forall i :: 0 <= i < |cs| && Agrees(cs[i], j) ==> b.value.price <= cs[i].price
  {
    var es := Eligible(cs, j);
    forall i | 0 <= i < |cs|
      ensures Agrees(cs[i], j) <==> cs[i] in es
    {
      EligibleMultiset(cs, j, cs[i]);
      MatchingIsAgreement(cs[i], j);
    }
    if es != [] {
      var k := CheapestIsFirstMinimum(es);
      EligibleMultiset(cs, j, es[k]);
      MatchingIsAgreement(es[k], j);
      forall i | 0 <= i < |cs| && Agrees(cs[i], j)
        ensures es[k].price <= cs[i].price
      {
        var n :| 0 <= n < |es| && es[n] == cs[i];
      }
      assert es[k] in cs;
    }
  }

  /** The cheaper of two best matches; the left one on a tie. */
  function Cheaper(a: Option<Candidate>, b: Option<Candidate>): Option<Candidate> {
    if a.None? then b
    else if b.None? then a
    else if b.value.price < a.value.price then b else a
  }

  lemma {:induction false} CheapestAppend(xs: seq<Candidate>, ys: seq<Candidate>)
    requires xs != [] && ys != []
    ensures Cheapest(xs + ys) == if Cheapest(ys).price < Cheapest(xs).price then Cheapest(ys) else Cheapest(xs)
  {
    assert (xs + ys)[..|xs + ys| - 1] == xs + ys[..|ys| - 1];
    if |ys| > 1 {
      CheapestAppend(xs, ys[..|ys| - 1]);
    } else {
      assert xs + ys[..|ys| - 1] == xs;
    }
  }

  /** Splitting a result list and comparing the two winners gives the winner. */
  lemma {:induction false} BestOfAppend(xs: seq<Candidate>, ys: seq<Candidate>, j: Job)
    ensures BestLikeForLike(xs + ys, j) == Cheaper(BestLikeForLike(xs, j), BestLikeForLike(ys, j))
  {
    var ex, ey := Eligible(xs, j), Eligible(ys, j);
    EligibleAppend(xs, ys, j);
    if ex == [] {
      assert ex + ey == ey;
    } else if ey == [] {
      assert ex + ey == ex;
    } else {
      CheapestAppend(ex, ey);
    }
  }

  /** The winner is the first of the cheapest: an agreeing rate listed earlier
      is strictly dearer, one listed later is no cheaper. */
  lemma {:induction false} TiesGoToTheFirst(cs: seq<Candidate>, j: Job) returns (k: nat)
    requires BestLikeForLike(cs, j).Some?
    ensures k < |cs| && BestLikeForLike(cs, j) == Some(cs[k])
    ensures forall i :: 0 <= i < k && Agrees(cs[i], j) ==> cs[k].price < cs[i].price
    ensures forall i :: k < i < |cs| && Agrees(cs[i], j) ==> cs[k].price <= cs[i].price
  {
    BestIsArgmin(cs, j);
    k := |cs| - 1;
    var xs, last := cs[..k], cs[k];
    assert cs == xs + [last];
    BestOfAppend(xs, [last], j);
    BestIsArgmin(xs, j);
    BestIsArgmin([last], j);
    assert BestLikeForLike([last], j).Some? ==> BestLikeForLike([last], j).value == last;
    if BestLikeForLike(xs, j).Some? {
      var m := TiesGoToTheFirst(xs, j);
      if BestLikeForLike(cs, j) == Some(xs[m]) && !(BestLikeForLike([last], j).Some? && last.price < xs[m].price) {
        k := m;
      }
    }
  }

  /** The best price does not depend on the order the provider lists rates in. */
  lemma {:induction false} BestPriceIgnoresOrder(xs: seq<Candidate>, ys: seq<Candidate>, j: Job)
    requires multiset(xs) == multiset(ys)
    ensures BestLikeForLike(xs, j).Some? <==> BestLikeForLike(ys, j).Some?
    ensures BestLikeForLike(xs, j).Some? ==> BestLikeForLike(xs, j).value.price == BestLikeForLike(ys, j).value.price
  {
    BestIsArgmin(xs, j);
    BestIsArgmin(ys, j);
    forall c | c in xs
      ensures c in ys
    {
      assert c in multiset(xs);
    }
    forall c | c in ys
      ensures c in xs
    {
      assert c in multiset(ys);
    }
  }

  lemma {:induction false} EligibleDependsOnTerms(cs: seq<Candidate>, j: Job, k: Job)
    requires j.terms == k.terms
    ensures Eligible(cs, j) == Eligible(cs, k)
  {
    hide RoomClass;
    if cs != [] { EligibleDependsOnTerms(cs[1..], j, k); }
  }

  /** Two rows with the same terms have the same best match. */
  lemma {:induction false} BestDependsOnTerms(cs: seq<Candidate>, j: Job, k: Job)
    requires j.terms == k.terms
    ensures BestLikeForLike(cs, j) == BestLikeForLike(cs, k)
  {
    EligibleDependsOnTerms(cs, j, k);
  }

  // ---------------------------------------------------------------- drops

  /** The price undercuts a reference by more than both floors: the fixed one, and
      the share of the original price. */
  predicate Undercuts(cfg: Settings, original: real, reference: real, price: real) {
    price < reference - cfg.floorAbs && price < reference - original * cfg.floorPct
  }

  lemma FloorsAreBoth(cfg: Settings, original: real, reference: real, price: real)
    ensures Undercuts(cfg, original, reference, price) <==> price < reference - DropFloor(cfg, original)
  {
  }

  /** A drop is a best rate that undercuts the booking by more than both floors. */
  lemma DropUndercutsBothFloors(cfg: Settings, best: Option<Candidate>, j: Job)
    ensures IsActionableDrop(cfg, best, j) <==>
              && best.Some?
              && best.value.price < j.terms.originalPrice - cfg.floorAbs
              && best.value.price < j.terms.originalPrice - j.terms.originalPrice * cfg.floorPct
  {
  }

  /** With the shipped settings: below 485 on a booking at 500, where the share
      decides, and below 90 on one at 100, where the fixed floor does; and a link
      is asked for. */
  lemma ShippedFloors(best: Candidate, j: Job)
    ensures j.terms.originalPrice == 500.0 ==>
              (IsActionableDrop(DEFAULT_SETTINGS, Some(best), j) <==> best.price < 485.0)
    ensures j.terms.originalPrice == 100.0 ==>
              (IsActionableDrop(DEFAULT_SETTINGS, Some(best), j) <==> best.price < 90.0)
    ensures best.link.None? ==> !ReachableDrop(DEFAULT_SETTINGS, Some(best), j)
  {
  }

  /** Rate i agrees with the booking, and is the first of the cheapest that do. */
  predicate FirstCheapest(cs: seq<Candidate>, j: Job, i: nat) {
    && i < |cs| && Agrees(cs[i], j)
    && (forall n :: 0 <= n < |cs| && Agrees(cs[n], j) ==> cs[i].price <= cs[n].price)
    && (forall n :: 0 <= n < i && Agrees(cs[n], j) ==> cs[i].price < cs[n].price)
  }

  /** A drop the user may be sent to: that rate undercuts the booking, and has a
      link if links are required. */
  predicate Offer(cfg: Settings, cs: seq<Candidate>, j: Job, i: nat) {
    && FirstCheapest(cs, j, i)
    && Undercuts(cfg, j.terms.originalPrice, j.terms.originalPrice, cs[i].price)
    && (cfg.requireLink ==> cs[i].link.Some? && cs[i].link.value != "")
  }

  lemma {:induction false} BestIsFirstCheapest(cs: seq<Candidate>, j: Job, i: nat)
    requires FirstCheapest(cs, j, i)
    ensures BestLikeForLike(cs, j) == Some(cs[i])
  {
    BestIsArgmin(cs, j);
    var k := TiesGoToTheFirst(cs, j);
    hide BestLikeForLike, Agrees;
    assert Agrees(cs[k], j) && Agrees(cs[i], j);
  }

  /** A reachable drop stands exactly if there is an offer, which is then the best
      match. */
  lemma {:induction false} ReachableMeansOffer(cfg: Settings, cs: seq<Candidate>, j: Job)
    ensures var best := BestLikeForLike(cs, j);
            && (ReachableDrop(cfg, best, j) <==> exists i: nat :: Offer(cfg, cs, j, i))
            && forall i: nat :: Offer(cfg, cs, j, i) ==> best == Some(cs[i])
  {
    var best := BestLikeForLike(cs, j);
    BestIsArgmin(cs, j);
    forall i: nat | Offer(cfg, cs, j, i)
      ensures best == Some(cs[i])
    {
      BestIsFirstCheapest(cs, j, i);
    }
    if ReachableDrop(cfg, best, j) {
      var k := TiesGoToTheFirst(cs, j);
      hide BestLikeForLike;
      assert Offer(cfg, cs, j, k);
    }
  }
}
