/** The cached columns of a job are what its price history says, in every
    reachable state; and no reachable drop is left more than one floor below
    the last alert unless its own alert was refused. */
module History {
  import opened Models
  import opened Matching
  import opened Worker
  import opened Protocol
  import opened ProtocolLaws
  import opened Alerts

  /** The committed history. */
  function Checks(w: World): seq<Entry> {
    Pick(w.log, IsCheck)
  }

  function PriceOf(x: Entry): Option<real> {
    if x.Checked? then x.row.price else None
  }

  function CheckTime(x: Entry): int {
    if x.Checked? then x.row.checkedAt else 0
  }

  function LessOf(a: Option<real>, b: Option<real>): Option<real> {
    if a.None? then b else if b.Some? && b.value < a.value then b else a
  }

  /** The least price in the history. */
  function MinPrice(xs: seq<Entry>): Option<real> {
    if xs == [] then None else LessOf(MinPrice(xs[..|xs| - 1]), PriceOf(xs[|xs| - 1]))
  }

  /** The rate of the last check that found one. */
  function LastFound(xs: seq<Entry>): Option<Candidate> {
    if xs == [] then None
    else
      var x := xs[|xs| - 1];
      if x.Checked? && x.best.Some? then x.best else LastFound(xs[..|xs| - 1])
  }

  /** The "current best" columns show this rate. */
  predicate Shows(e: Env, j: Job, best: Option<Candidate>) {
    if best.None? then j.currentBestPrice.None? && j.currentBestOta.None? && j.currentBestUrl.None?
    else
      && j.currentBestPrice == Some(Rounded(e, best.value.price))
      && j.currentBestOta == Some(best.value.ota)
      && j.currentBestUrl == best.value.link
  }

  /** A history row belongs to the booking, and shows the best rate of its check,
      if there was one. */
  predicate RowTells(e: Env, id: int, x: Entry) {
    x.Checked? ==>
      && x.row.jobId == id
      && (if x.best.None? then x.row.price.None? && x.row.ota.None?
          else x.row.price == Some(Rounded(e, x.best.value.price)) && x.row.ota == Some(x.best.value.ota))
  }

  lemma {:induction false} MinPriceIsLeast(xs: seq<Entry>)
    ensures MinPrice(xs).None? <==> forall i :: 0 <= i < |xs| ==> PriceOf(xs[i]).None?
    ensures MinPrice(xs).Some? ==>
              && (exists i :: 0 <= i < |xs| && PriceOf(xs[i]) == MinPrice(xs))
              && (forall i :: 0 <= i < |xs| && PriceOf(xs[i]).Some? ==> MinPrice(xs).value <= PriceOf(xs[i]).value)
  {
    if xs != [] {
      var n := |xs| - 1;
      MinPriceIsLeast(xs[..n]);
      assert forall i :: 0 <= i < n ==> xs[..n][i] == xs[i];
      if MinPrice(xs).Some? && MinPrice(xs) != PriceOf(xs[n]) {
        var i :| 0 <= i < n && PriceOf(xs[..n][i]) == MinPrice(xs[..n]);
        assert PriceOf(xs[i]) == MinPrice(xs);
      }
    }
  }

  predicate HistoryInv(e: Env, w: World) {
    && AtPrecision(e, w.job)
    && w.job.checkCount == |Checks(w)|
    && w.job.lowestSeenPrice == MinPrice(Checks(w))
    && Shows(e, w.job, LastFound(Checks(w)))
    && w.job.lastCheckedAt == (if Checks(w) == [] then None else Some(CheckTime(Checks(w)[|Checks(w)| - 1])))
    && forall x :: x in Checks(w) ==> RowTells(e, w.job.id, x)
  }

  lemma {:induction false} VisitChecks(e: Env, w: World, now: int, o: Oracle, commits: bool)
    requires Due(w, now)
    ensures Checks(Apply(e, w, Pass(now, o, commits))) == Checks(w) + CheckByKind(e, w.job, o, now, commits)
  {
    hide Apply, BestLikeForLike, Pick, MailByKind, CheckByKind, CheckEntries, Due, AfterRetry;
    VisitPick(e, w, now, o, commits, IsCheck);
    OnlyMail(e, w.job, o, now, commits);
    ChecksByKind(e, w.job, o, now, commits);
    var checks, mails := CheckByKind(e, w.job, o, now, commits), MailByKind(e, w.job, o, now, commits);
    assert checks != [] ==> checks[0] in checks && checks == [checks[0]];
    assert mails != [] ==> mails[0] in mails;
    assert Only(checks, IsCheck) == checks && Only(mails, IsCheck) == [];
  }

  /** The new row, if there is one: the best price found, as stored. */
  lemma CheckRecordsBest(e: Env, j: Job, o: Oracle, now: int, commits: bool)
    ensures var xs, best := CheckByKind(e, j, o, now, commits), BestOf(j, o);
            if commits && RecordsRow(KindOf(e.cfg, j, o, now)) then
              |xs| == 1 && xs[0].Checked? && xs[0].row.checkedAt == now && xs[0].best == best
              && PriceOf(xs[0]) == (if best.Some? then Some(Rounded(e, best.value.price)) else None)
              && RowTells(e, j.id, xs[0])
            else xs == []
  {
    hide BestLikeForLike, KindOf, VerdictOf;
  }

  /** Keeping the lesser price commutes with rounding. */
  lemma RoundLess(e: Env, lowest: Option<real>, p: real)
    requires ValidEnv(e) && RoundOption(e.round, lowest) == lowest
    ensures RoundOption(e.round, if lowest.None? || p < lowest.value then Some(p) else lowest)
         == LessOf(lowest, Some(Rounded(e, p)))
  {
    if lowest.Some? {
      assert Rounded(e, lowest.value) == lowest.value;
      if p < lowest.value {
        assert Rounded(e, p) <= Rounded(e, lowest.value);
      } else {
        assert Rounded(e, lowest.value) <= Rounded(e, p);
      }
    }
  }

  /** The row after a visit, against the history. */
  lemma {:induction false} VisitColumns(e: Env, w: World, now: int, o: Oracle, commits: bool)
    requires ValidEnv(e) && AtPrecision(e, w.job) && Due(w, now)
    ensures var j, k := w.job, Apply(e, w, Pass(now, o, commits)).job;
            var xs := CheckByKind(e, j, o, now, commits);
            k.id == j.id &&
            if xs == [] then
              k.checkCount == j.checkCount && k.lastCheckedAt == j.lastCheckedAt
              && k.lowestSeenPrice == j.lowestSeenPrice
              && k.currentBestPrice == j.currentBestPrice && k.currentBestOta == j.currentBestOta
              && k.currentBestUrl == j.currentBestUrl
            else
              && |xs| == 1 && xs[0].Checked? && RowTells(e, j.id, xs[0])
              && k.checkCount == j.checkCount + 1 && k.lastCheckedAt == Some(CheckTime(xs[0]))
              && k.lowestSeenPrice == LessOf(j.lowestSeenPrice, PriceOf(xs[0]))
              && (if xs[0].best.Some? then Shows(e, k, xs[0].best)
                  else k.currentBestPrice == j.currentBestPrice && k.currentBestOta == j.currentBestOta
                       && k.currentBestUrl == j.currentBestUrl)
  {
    hide BestLikeForLike, KindOf, DropFloor, ByKind, Processed, InPass, AfterRetry, CheckByKind, MailByKind;
    var j := w.job;
    PassByKind(e, w, now, o, commits);
    VisitHistory(e.cfg, j, o, now);
    VisitKeepsTerms(e.cfg, j, o, now);
    CheckRecordsBest(e, j, o, now, commits);
    assert RoundOption(e.round, j.lowestSeenPrice) == j.lowestSeenPrice;
    assert RoundOption(e.round, j.currentBestPrice) == j.currentBestPrice;
    if BestOf(j, o).Some? { RoundLess(e, j.lowestSeenPrice, BestOf(j, o).value.price); }
    hide Apply, AtPrecision;
  }

  lemma {:induction false} VisitKeepsHistoryInv(e: Env, w: World, now: int, o: Oracle, commits: bool)
    requires ValidEnv(e) && HistoryInv(e, w) && Due(w, now)
    ensures HistoryInv(e, Apply(e, w, Pass(now, o, commits)))
  {
    hide Apply, BestLikeForLike, CheckByKind, Checks, AtPrecision, RowTells;
    StepKeepsPrecision(e, w, Pass(now, o, commits));
    VisitColumns(e, w, now, o, commits);
    VisitChecks(e, w, now, o, commits);
    var xs, old' := CheckByKind(e, w.job, o, now, commits), Checks(w);
    if xs != [] {
      assert old' + xs == old' + [xs[0]];
      assert (old' + xs)[..|old'|] == old' && (old' + xs)[|old'|] == xs[0];
    } else {
      assert old' + xs == old';
    }
  }

  lemma {:induction false} StepKeepsHistoryInv(e: Env, w: World, s: Step)
    requires ValidEnv(e) && HistoryInv(e, w)
    ensures HistoryInv(e, Apply(e, w, s))
  {
    if s.Pass? {
      if Due(w, s.now) {
        VisitKeepsHistoryInv(e, w, s.now, s.o, s.commits);
      } else {
        PassNotDue(e, w, s.now, s.o, s.commits);
      }
    } else {
      OtherStep(e, w, s);
      OtherStepPick(e, w, s, IsCheck);
      StepKeepsPrecision(e, w, s);
    }
    hide Apply, AtPrecision, MinPrice, LastFound, RowTells;
  }

  /** In every reachable state the cached columns are the history's: how many
      checks there were and when the last was, the least price seen, and the last
      rate found; and every row shows the best rate of its check. */
  lemma {:induction false} CachesRefineHistory(e: Env, c: Creation, plan: PlanStatus, accepted: bool, steps: seq<Step>)
    requires ValidEnv(e) && Create(c).Some?
    ensures HistoryInv(e, Exec(e, Start(e, c, plan, accepted), steps))
    decreases |steps|
  {
    var w := Start(e, c, plan, accepted);
    if steps == [] {
      StoredIsAtPrecision(e, Create(c).value);
      PickOne(w.log, IsCheck);
      hide AtPrecision;
    } else {
      CachesRefineHistory(e, c, plan, accepted, steps[..|steps| - 1]);
      StepKeepsHistoryInv(e, Exec(e, w, steps[..|steps| - 1]), steps[|steps| - 1]);
      hide Apply, HistoryInv;
    }
  }

  // ---------------------------------------------------------------- seen and alerted

  /** No alert names a price below the lowest one seen. */
  predicate SeenBelowAlerted(j: Job) {
    j.lowestAlertedPrice.Some? ==>
      j.lowestSeenPrice.Some? && j.lowestSeenPrice.value <= j.lowestAlertedPrice.value
  }

  lemma {:induction false} StepKeepsSeenBelow(e: Env, w: World, s: Step)
    requires ValidEnv(e) && AtPrecision(e, w.job) && SeenBelowAlerted(w.job)
    ensures SeenBelowAlerted(Apply(e, w, s).job)
  {
    hide BestLikeForLike, DropFloor, ByKind, Processed, InPass, AfterRetry;
    if s.Pass? && Due(w, s.now) {
      PassByKind(e, w, s.now, s.o, s.commits);
      VisitMarks(e.cfg, w.job, s.o, s.now);
      VisitHistory(e.cfg, w.job, s.o, s.now);
      var j, k := w.job, ByKind(e.cfg, w.job, s.o, s.now).job;
      AlertHasBest(e.cfg, j, s.o, s.now);
      assert RoundOption(e.round, j.lowestAlertedPrice) == j.lowestAlertedPrice;
      assert SeenBelowAlerted(k);
      if k.lowestAlertedPrice.Some? {
        assert Rounded(e, k.lowestSeenPrice.value) <= Rounded(e, k.lowestAlertedPrice.value);
      }
    } else if s.Pass? {
      PassNotDue(e, w, s.now, s.o, s.commits);
    } else {
      OtherStep(e, w, s);
    }
    hide Apply, KindOf;
  }

  lemma AlertHasBest(cfg: Settings, j: Job, o: Oracle, now: int)
    ensures KindOf(cfg, j, o, now).Alert? ==> BestOf(j, o).Some?
  {
    hide BestLikeForLike;
  }

  /** The dashboard's lowest price is never above a price the user was mailed. */
  lemma {:induction false} LowestSeenIsBelowEveryAlert(e: Env, c: Creation, plan: PlanStatus, accepted: bool,
                                                       steps: seq<Step>)
    requires ValidEnv(e) && Create(c).Some?
    ensures SeenBelowAlerted(Exec(e, Start(e, c, plan, accepted), steps).job)
    decreases |steps|
  {
    var w := Start(e, c, plan, accepted);
    if steps != [] {
      LowestSeenIsBelowEveryAlert(e, c, plan, accepted, steps[..|steps| - 1]);
      AlertInvHolds(e, c, plan, accepted, steps[..|steps| - 1]);
      StepKeepsSeenBelow(e, Exec(e, w, steps[..|steps| - 1]), steps[|steps| - 1]);
      hide Apply, AtPrecision;
    }
  }

  // ---------------------------------------------------------------- nothing reachable is passed over

  /** A kept check whose best rate was a drop the user may be told about, and
      for which no alert was refused. */
  predicate Settled(x: Entry) {
    x.Checked? && x.best.Some? && (x.verdict.Told? || x.verdict.Standing?)
  }

  /** The last alert is within one floor of every settled check's price. */
  predicate Covered(e: Env, w: World) {
    forall x :: x in w.log && Settled(x) ==>
      w.job.lowestAlertedPrice.Some? && w.job.lowestAlertedPrice.value <= x.best.value.price + FloorOf(e, w)
  }

  /** A price on record only ever goes down. */
  lemma {:induction false} AlertedPriceOnlyFalls(e: Env, w: World, s: Step)
    requires ValidEnv(e) && AlertInv(e, w) && 0.0 <= FloorOf(e, w)
    requires w.job.lowestAlertedPrice.Some?
    ensures var p := Apply(e, w, s).job.lowestAlertedPrice; p.Some? && p.value <= w.job.lowestAlertedPrice.value
  {
    hide BestLikeForLike, KindOf, DropFloor, ByKind, Processed, InPass, AfterRetry;
    if s.Pass? && Due(w, s.now) {
      PassByKind(e, w, s.now, s.o, s.commits);
      VisitMarks(e.cfg, w.job, s.o, s.now);
      var lowest := w.job.lowestAlertedPrice.value;
      RoundTwice(e, w.job.lowestAlertedPrice);
      assert RoundOption(e.round, w.job.lowestAlertedPrice) == w.job.lowestAlertedPrice;
      assert Rounded(e, lowest) == lowest;
      if Tells(e, w.job, s.o, s.now, s.commits) {
        TellingIsDeep(e, w.job, s.o, s.now);
        var p := BestOf(w.job, s.o).value.price;
        assert w.job.dropAlertSentAt.Some?;
        assert p <= lowest;
        assert Rounded(e, p) <= Rounded(e, lowest);
      }
    } else if s.Pass? {
      PassNotDue(e, w, s.now, s.o, s.commits);
    } else {
      OtherStep(e, w, s);
    }
    hide Apply, Drops, FloorOf, AlertPrices;
  }

  /** A check is settled only when its own price is covered. */
  lemma {:induction false} SettlingCovers(e: Env, j: Job, o: Oracle, now: int)
    requires ValidEnv(e) && AtPrecision(e, j) && e.eps <= DropFloor(e.cfg, j.terms.originalPrice)
    requires j.dropAlertSentAt.Some? <==> j.lowestAlertedPrice.Some?
    requires var xs := CheckByKind(e, j, o, now, true); xs != [] && Settled(xs[0])
    ensures var p := Stored(e.round, ByKind(e.cfg, j, o, now).job).lowestAlertedPrice;
            && BestOf(j, o).Some?
            && p.Some? && p.value <= BestOf(j, o).value.price + DropFloor(e.cfg, j.terms.originalPrice)
  {
    hide BestLikeForLike, DropFloor, ByKind;
    VisitMarks(e.cfg, j, o, now);
    var k, best := AfterRetry(j, o), BestOf(j, o);
    assert k.dropAlertSentAt == j.dropAlertSentAt && k.lowestAlertedPrice == j.lowestAlertedPrice && k.terms == j.terms;
    assert RoundOption(e.round, j.lowestAlertedPrice) == j.lowestAlertedPrice;
    if Tells(e, j, o, now, true) {
      assert Rounded(e, best.value.price) <= best.value.price + e.eps;
    }
  }

  lemma {:induction false} StepKeepsCovered(e: Env, w: World, s: Step)
    requires ValidEnv(e) && AlertInv(e, w) && e.eps <= FloorOf(e, w) && Covered(e, w)
    ensures Covered(e, Apply(e, w, s))
  {
    hide BestLikeForLike, KindOf, DropFloor, ByKind, Processed, InPass, AfterRetry, CheckByKind, MailByKind, VerdictOf;
    var w' := Apply(e, w, s);
    StepKeepsPrecision(e, w, s);
    NewChecks(e, w, s);
    forall x | x in w'.log && Settled(x)
      ensures w'.job.lowestAlertedPrice.Some? && w'.job.lowestAlertedPrice.value <= x.best.value.price + FloorOf(e, w')
    {
      if x in w.log {
        AlertedPriceOnlyFalls(e, w, s);
      } else {
        PassByKind(e, w, s.now, s.o, s.commits);
        CheckRecordsBest(e, w.job, s.o, s.now, s.commits);
        SettlingCovers(e, w.job, s.o, s.now);
      }
    }
  }

  /** After any run: for every kept check whose best rate was a drop the user
      may be told about, either that check's own alert failed, or the last
      alert's price is no more than one floor above it. */
  lemma {:induction false} NothingReachableIsPassedOver(e: Env, c: Creation, plan: PlanStatus, accepted: bool,
                                                        steps: seq<Step>)
    requires ValidEnv(e) && Create(c).Some?
    requires e.eps <= FloorOf(e, Start(e, c, plan, accepted))
    ensures var w := Exec(e, Start(e, c, plan, accepted), steps);
            Covered(e, w) && FloorOf(e, w) == FloorOf(e, Start(e, c, plan, accepted))
    decreases |steps|
  {
    var start := Start(e, c, plan, accepted);
    if steps != [] {
      var prefix, s := steps[..|steps| - 1], steps[|steps| - 1];
      NothingReachableIsPassedOver(e, c, plan, accepted, prefix);
      AlertInvHolds(e, c, plan, accepted, prefix);
      StepKeepsCovered(e, Exec(e, start, prefix), s);
      StepKeepsPrecision(e, Exec(e, start, prefix), s);
      hide Apply, AlertInv, Covered, Start, Create;
    }
  }
}
