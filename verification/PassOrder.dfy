/** The order in which the database lists the due jobs of a pass: by the
    contract of `Worker.RunOnce` it cannot change any row, and here, it changes
    neither how many visits finish, nor which mail goes out, nor which history
    rows are inserted. And what a failing source leaves. */
module PassOrder {
  import opened Models
  import opened Worker
  import opened Reordering

  // ---------------------------------------------------------------- one listing, as turns

  /** What the loop has in hand at one turn. */
  datatype Turn = Turn(job: Job, canMonitor: bool, oracle: Oracle)

  function Turns(js: seq<Job>, plans: seq<bool>, os: seq<Oracle>): (ts: seq<Turn>)
    requires |js| == |plans| == |os|
    ensures |ts| == |js| && forall i :: 0 <= i < |js| ==> ts[i] == Turn(js[i], plans[i], os[i])
  {
    seq(|js|, i requires 0 <= i < |js| => Turn(js[i], plans[i], os[i]))
  }

  function VisitsOf(cfg: Settings, ts: seq<Turn>, now: int): seq<Outcome> {
    if ts == [] then []
    else
      var t := ts[|ts| - 1];
      VisitsOf(cfg, ts[..|ts| - 1], now) + Visit(cfg, t.job, t.canMonitor, t.oracle, now)
  }

  lemma {:induction false} VisitsAreTurns(cfg: Settings, js: seq<Job>, plans: seq<bool>, os: seq<Oracle>, now: int)
    requires |js| == |plans| == |os|
    ensures Visits(cfg, js, plans, os, now) == VisitsOf(cfg, Turns(js, plans, os), now)
  {
    hide Visit;
    if js != [] {
      var n := |js| - 1;
      VisitsAreTurns(cfg, js[..n], plans[..n], os[..n], now);
      assert Turns(js, plans, os)[..n] == Turns(js[..n], plans[..n], os[..n]);
    }
  }

  // ---------------------------------------------------------------- what a pass adds up to

  /** What the shared session, the mail service and the counter get from a pass,
      order aside. */
  datatype Tally = Tally(finished: nat, mail: multiset<Mail>, rows: multiset<PriceCheck>)

  function TallyOf(outs: seq<Outcome>): Tally {
    Tally(Finished(outs), multiset(MailOf(outs)), multiset(RowsOf(outs)))
  }

  function Sum(a: Tally, b: Tally): Tally {
    Tally(a.finished + b.finished, a.mail + b.mail, a.rows + b.rows)
  }

  lemma {:induction false} TallyAppend(outs: seq<Outcome>, more: seq<Outcome>)
    requires |more| <= 1
    ensures TallyOf(outs + more) == Sum(TallyOf(outs), TallyOf(more))
  {
    OutcomesAppend(outs, more);
    hide MailOf, RowsOf, Finished;
  }

  function TallyOfTurn(cfg: Settings, t: Turn, now: int): Tally {
    TallyOf(Visit(cfg, t.job, t.canMonitor, t.oracle, now))
  }

  lemma {:induction false} LastTurn(cfg: Settings, ts: seq<Turn>, now: int)
    requires ts != []
    ensures TallyOf(VisitsOf(cfg, ts, now))
         == Sum(TallyOf(VisitsOf(cfg, ts[..|ts| - 1], now)), TallyOfTurn(cfg, ts[|ts| - 1], now))
  {
    var t := ts[|ts| - 1];
    VisitIsShort(cfg, t.job, t.canMonitor, t.oracle, now);
    TallyAppend(VisitsOf(cfg, ts[..|ts| - 1], now), Visit(cfg, t.job, t.canMonitor, t.oracle, now));
    hide TallyOf, Visit;
  }

  /** Any turn may be taken last. */
  lemma {:induction false} TurnTakenOut(cfg: Settings, ts: seq<Turn>, now: int, i: nat)
    requires i < |ts|
    ensures TallyOf(VisitsOf(cfg, ts, now))
         == Sum(TallyOf(VisitsOf(cfg, ts[..i] + ts[i + 1..], now)), TallyOfTurn(cfg, ts[i], now))
    decreases |ts|
  {
    hide TallyOf, TallyOfTurn, VisitsOf;
    var n := |ts| - 1;
    var rest := ts[..i] + ts[i + 1..];
    LastTurn(cfg, ts, now);
    if i == n {
      assert rest == ts[..n];
    } else {
      TurnTakenOut(cfg, ts[..n], now, i);
      assert ts[..n][..i] + ts[..n][i + 1..] == rest[..n - 1] && rest[n - 1] == ts[n];
      LastTurn(cfg, rest, now);
    }
  }

  lemma {:induction false} TurnOrderIsIrrelevant(cfg: Settings, ts: seq<Turn>, ts': seq<Turn>, now: int)
    requires multiset(ts) == multiset(ts')
    ensures TallyOf(VisitsOf(cfg, ts, now)) == TallyOf(VisitsOf(cfg, ts', now))
    decreases |ts|
  {
    hide TallyOf, TallyOfTurn, VisitsOf;
    SameLength(ts, ts');
    if ts != [] {
      var i := Partner(ts, ts');
      TurnOrderIsIrrelevant(cfg, ts[..0] + ts[1..], ts'[..i] + ts'[i + 1..], now);
      TurnTakenOut(cfg, ts, now, 0);
      TurnTakenOut(cfg, ts', now, i);
    } else {
      assert ts' == [];
    }
  }

  // ---------------------------------------------------------------- one listing, as objects

  /** The turns of a listing of live jobs. */
  function TurnsOf(due: seq<MonitoringJob>, oracles: map<MonitoringJob, Oracle>): (ts: seq<Turn>)
    requires forall job :: job in due ==> job in oracles
    reads due, set job | job in due :: job.user
    ensures ts == Turns(Rows(due), Plans(due), Answers(due, oracles))
  {
    Turns(Rows(due), Plans(due), Answers(due, oracles))
  }

  lemma {:induction false} SameJobsSameTurns(due: seq<MonitoringJob>, due': seq<MonitoringJob>,
                                             oracles: map<MonitoringJob, Oracle>)
    requires multiset(due) == multiset(due') && forall job :: job in due + due' ==> job in oracles
    ensures multiset(TurnsOf(due, oracles)) == multiset(TurnsOf(due', oracles))
  {
    hide MonitoringJob.Row, User.CanMonitor, Rows, Plans, Answers, Turns;
    forall job
      ensures job in due <==> job in due'
    {
      assert job in multiset(due) <==> job in multiset(due');
    }
    var m := map job | job in due :: Turn(job.Row(), job.user.CanMonitor(), oracles[job]);
    ReorderedAlike(m, due, due', TurnsOf(due, oracles), TurnsOf(due', oracles));
  }

  /** Storing rows does not mind their order either. */
  lemma {:induction false} StoredRowsIgnoreOrder(round: real -> real, xs: seq<PriceCheck>, ys: seq<PriceCheck>)
    requires multiset(xs) == multiset(ys)
    ensures multiset(StoredRows(round, xs)) == multiset(StoredRows(round, ys))
  {
    hide StoredRow;
    forall row
      ensures row in xs <==> row in ys
    {
      assert row in multiset(xs) <==> row in multiset(ys);
    }
    var m := map row | row in xs :: StoredRow(round, row);
    ReorderedAlike(m, xs, ys, StoredRows(round, xs), StoredRows(round, ys));
  }

  /** For any two listings of the same due jobs, the quantities in the contract
      of `Worker.RunOnce` agree: as many visits finish, the same events go out
      with the same success, and the same history rows are committed. */
  lemma {:induction false} QueryOrderIsIrrelevant(cfg: Settings, round: real -> real, due: seq<MonitoringJob>,
                                                  due': seq<MonitoringJob>, oracles: map<MonitoringJob, Oracle>,
                                                  now: int)
    requires multiset(due) == multiset(due') && forall job :: job in due + due' ==> job in oracles
    ensures var outs := Visits(cfg, Rows(due), Plans(due), Answers(due, oracles), now);
            var outs' := Visits(cfg, Rows(due'), Plans(due'), Answers(due', oracles), now);
            && Finished(outs) == Finished(outs')
            && multiset(MailOf(outs)) == multiset(MailOf(outs'))
            && multiset(StoredRows(round, RowsOf(outs))) == multiset(StoredRows(round, RowsOf(outs')))
  {
    hide MonitoringJob.Row, User.CanMonitor, Rows, Plans, Visits, VisitsOf, Finished, MailOf, RowsOf, StoredRows;
    SameJobsSameTurns(due, due', oracles);
    TurnOrderIsIrrelevant(cfg, TurnsOf(due, oracles), TurnsOf(due', oracles), now);
    VisitsAreTurns(cfg, Rows(due), Plans(due), Answers(due, oracles), now);
    VisitsAreTurns(cfg, Rows(due'), Plans(due'), Answers(due', oracles), now);
    var outs := Visits(cfg, Rows(due), Plans(due), Answers(due, oracles), now);
    var outs' := Visits(cfg, Rows(due'), Plans(due'), Answers(due', oracles), now);
    assert TallyOf(outs) == TallyOf(outs');
    StoredRowsIgnoreOrder(round, RowsOf(outs), RowsOf(outs'));
  }

  // ---------------------------------------------------------------- exceptions

  /** If the price source fails, the job keeps every column but a hotel found on
      the way, nothing is recorded or mailed, and it is due again at once. */
  lemma {:induction false} FailedSourceLeavesJobDue(cfg: Settings, round: real -> real, j: Job, o: Oracle, now: int)
    requires Selected(j, now) && !Over(j, now) && Truthy(AfterRetry(j, o).hotelId) && o.rates.CheckRaised?
    ensures var out := Processed(cfg, j, o, now);
            && out.raised && out.rows == [] && out.mail == []
            && out.job == j.(hotelId := out.job.hotelId)
            && Selected(Stored(round, out.job), now)
  {
  }
}
