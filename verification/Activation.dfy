/** Completing a pending booking by PATCHes: the order of the fields of one
    PATCH does not matter, the booking is activated by exactly the first PATCH
    that completes it and announced exactly then, and if nothing is withdrawn
    the outcome does not depend on how the fields are spread over PATCHes. */
module Activation {
  import opened Models
  import opened Lifecycle
  import opened Jobs
  import opened Protocol
  import opened ProtocolLaws
  import opened Lifetime
  import opened Reordering

  // ---------------------------------------------------------------- order of fields

  predicate DistinctFields(patch: seq<Assign>) {
    forall i, k :: 0 <= i < k < |patch| ==> !SameField(patch[i], patch[k])
  }

  lemma AssignmentsCommute(j: Job, a: Assign, b: Assign)
    requires !SameField(a, b)
    ensures Assigned(Assigned(j, a), b) == Assigned(Assigned(j, b), a)
  {
  }

  lemma {:induction false} PatchedAppend(j: Job, xs: seq<Assign>, a: Assign)
    ensures Patched(j, xs + [a]) == Assigned(Patched(j, xs), a)
  {
    assert (xs + [a])[..|xs|] == xs;
  }

  lemma {:induction false} MoveToEnd(j: Job, xs: seq<Assign>, a: Assign, ys: seq<Assign>)
    requires forall b :: b in ys ==> !SameField(a, b)
    ensures Patched(j, xs + [a] + ys) == Patched(j, xs + ys + [a])
    decreases |ys|
  {
    hide Assigned, SameField;
    if ys == [] {
      assert xs + [a] + ys == xs + ys + [a];
    } else {
      var zs, b := ys[..|ys| - 1], ys[|ys| - 1];
      MoveToEnd(j, xs, a, zs);
      assert xs + [a] + ys == (xs + [a] + zs) + [b];
      PatchedAppend(j, xs + [a] + zs, b);
      PatchedAppend(j, xs + zs, a);
      AssignmentsCommute(Patched(j, xs + zs), a, b);
      PatchedAppend(j, xs + zs, b);
      assert (xs + zs) + [b] == xs + ys;
      PatchedAppend(j, xs + ys, a);
    }
  }

  /** The fields of a PATCH may be assigned in any order. */
  lemma {:induction false} FieldOrderIsIrrelevant(j: Job, patch: seq<Assign>, patch': seq<Assign>)
    requires multiset(patch) == multiset(patch') && DistinctFields(patch')
    ensures Patched(j, patch) == Patched(j, patch')
    decreases |patch|
  {
    hide Assigned, SameField;
    SameLength(patch, patch');
    if patch != [] {
      var n := |patch| - 1;
      var front, a := patch[..n], patch[n];
      assert patch == front + [a];
      assert a in multiset(patch');
      var i :| 0 <= i < |patch'| && patch'[i] == a;
      var xs, ys := patch'[..i], patch'[i + 1..];
      assert patch' == xs + [a] + ys;
      WithoutOne(patch', i);
      WithoutOne(patch, n);
      assert front + patch[n + 1..] == front;
      FieldsStayDistinct(patch', i);
      FieldOrderIsIrrelevant(j, front, xs + ys);
      MoveToEnd(j, xs, a, ys);
      PatchedAppend(j, xs + ys, a);
    }
  }

  lemma FieldsStayDistinct(patch: seq<Assign>, i: nat)
    requires DistinctFields(patch) && i < |patch|
    ensures DistinctFields(patch[..i] + patch[i + 1..])
    ensures forall b :: b in patch[i + 1..] ==> !SameField(patch[i], b)
  {
    hide SameField;
    var rest := patch[..i] + patch[i + 1..];
    forall k, m | 0 <= k < m < |rest|
      ensures !SameField(rest[k], rest[m])
    {
      var k', m' := if k < i then k else k + 1, if m < i then m else m + 1;
      assert rest[k] == patch[k'] && rest[m] == patch[m'];
    }
  }

  // ---------------------------------------------------------------- a run of PATCHes

  /** Only PATCHes, none of which sets a status. */
  predicate Completing(steps: seq<Step>) {
    forall i :: 0 <= i < |steps| ==> steps[i].Patch? && NoStatusPatch(steps[i])
  }

  /** What the PATCHes make of the row, activation aside. */
  function Folded(j: Job, steps: seq<Step>): Job
    requires Completing(steps)
  {
    if steps == [] then j
    else
      var k, patch := Folded(j, steps[..|steps| - 1]), steps[|steps| - 1].patch;
      if StorablePatch(patch) then Patched(k, patch) else k
  }

  predicate ReadyAfter(j: Job, steps: seq<Step>, k: nat)
    requires Completing(steps) && k <= |steps|
  {
    ReadyToMonitor(Folded(j, steps[..k]))
  }

  lemma {:induction false} FoldedKeepsStatus(j: Job, steps: seq<Step>)
    requires Completing(steps)
    ensures Folded(j, steps).status == j.status && Folded(j, steps).nextCheckAt == j.nextCheckAt
  {
    if steps != [] {
      var front, patch := steps[..|steps| - 1], steps[|steps| - 1].patch;
      FoldedKeepsStatus(j, front);
      assert NoStatusPatch(steps[|steps| - 1]);
      StatusIsUntouched(Folded(j, front), patch);
      PatchKeepsMonitoring(Folded(j, front), patch);
    }
  }

  /** As long as something is missing, nothing happens but the edits. */
  lemma {:induction false} NothingUntilComplete(e: Env, w: World, steps: seq<Step>)
    requires Completing(steps) && Pending(w.job.status)
    requires forall k :: 0 <= k <= |steps| ==> !ReadyAfter(w.job, steps, k)
    ensures Exec(e, w, steps) == w.(job := Folded(w.job, steps))
    decreases |steps|
  {
    if steps != [] {
      var n := |steps| - 1;
      assert forall k :: 0 <= k <= n ==> steps[..n][..k] == steps[..k];
      forall k | 0 <= k <= n
        ensures !ReadyAfter(w.job, steps[..n], k)
      {
        assert !ReadyAfter(w.job, steps, k);
      }
      NothingUntilComplete(e, w, steps[..n]);
      assert steps[..|steps|] == steps && !ReadyAfter(w.job, steps, |steps|);
      hide ReadyToMonitor, Patched;
      var v := Exec(e, w, steps[..n]);
      assert Apply(e, v, steps[n]).log == v.log + [];
    }
  }

  lemma {:induction false} PatchAfterActivation(j: Job, patch: seq<Assign>, when: int)
    requires forall i :: 0 <= i < |patch| ==> !patch[i].SetStatus?
    ensures Patched(Activated(j, when), patch) == Activated(Patched(j, patch), when)
  {
    if patch != [] {
      PatchAfterActivation(j, patch[..|patch| - 1], when);
    }
  }

  /** The welcome sent by the PATCH that completes the booking. */
  function Welcome(w: World, steps: seq<Step>, m: nat): Entry
    requires Completing(steps) && 1 <= m <= |steps|
  {
    var before := Folded(w.job, steps[..m - 1]);
    var after := Patched(before, steps[m - 1].patch);
    Mailed(steps[m - 1].when, MonitoredEvent(after), steps[m - 1].accepted, true, after, [])
  }

  /** The PATCH that completes it. */
  lemma {:induction false} CompletingPatch(e: Env, w: World, s: Step)
    requires s.Patch? && NoStatusPatch(s) && Pending(w.job.status)
    requires StorablePatch(s.patch) && ReadyToMonitor(Patched(w.job, s.patch))
    ensures Apply(e, w, s).job == Activated(Patched(w.job, s.patch), s.when)
    ensures Apply(e, w, s).log
         == w.log + [Mailed(s.when, MonitoredEvent(Patched(w.job, s.patch)), s.accepted, true,
                            Patched(w.job, s.patch), [])]
  {
    StatusIsUntouched(w.job, s.patch);
    hide Patched, ReadyToMonitor;
  }

  /** A PATCH on the activated booking. */
  lemma {:induction false} LaterPatch(e: Env, w: World, s: Step, j: Job, when: int)
    requires s.Patch? && NoStatusPatch(s) && w.job == Activated(j, when)
    ensures Apply(e, w, s).job == Activated(if StorablePatch(s.patch) then Patched(j, s.patch) else j, when)
    ensures Apply(e, w, s).log == w.log
  {
    PatchAfterActivation(j, s.patch, when);
    StatusIsUntouched(w.job, s.patch);
    hide Patched, ReadyToMonitor;
    assert w.log + [] == w.log;
  }

  /** The first PATCH that completes the booking activates it, then and there,
      and announces it; later ones only edit. */
  lemma {:induction false} ActivatedByTheFirstCompletion(e: Env, w: World, steps: seq<Step>, m: nat)
    requires Completing(steps) && Pending(w.job.status) && 1 <= m <= |steps|
    requires ReadyAfter(w.job, steps, m) && forall k :: 0 <= k < m ==> !ReadyAfter(w.job, steps, k)
    ensures Exec(e, w, steps).job == Activated(Folded(w.job, steps), steps[m - 1].when)
    ensures Exec(e, w, steps).log == w.log + [Welcome(w, steps, m)]
    decreases |steps|
  {
    hide Patched, ReadyToMonitor, Apply, Activated, NoStatusPatch;
    var n := |steps| - 1;
    var front, s := steps[..n], steps[n];
    assert forall k :: 0 <= k <= n ==> front[..k] == steps[..k];
    forall k | 0 <= k < m
      ensures k <= n && !ReadyAfter(w.job, front, k)
    {
      assert !ReadyAfter(w.job, steps, k);
    }
    assert NoStatusPatch(s);
    FoldedKeepsStatus(w.job, front);
    var k := Folded(w.job, front);
    if m == |steps| {
      assert steps[..m] == steps && front[..n] == front;
      assert !ReadyAfter(w.job, front, n);
      NothingUntilComplete(e, w, front);
      CompletingPatch(e, Exec(e, w, front), s);
    } else {
      assert ReadyAfter(w.job, front, m);
      ActivatedByTheFirstCompletion(e, w, front, m);
      LaterPatch(e, Exec(e, w, front), s, k, steps[m - 1].when);
      assert front[..m - 1] == steps[..m - 1];
    }
  }

  // ---------------------------------------------------------------- confluence

  /** The assignment takes back something a booking needs. */
  predicate Withdraws(a: Assign) {
    || (a.SetRefundable? && a.refundable != Some(true))
    || (a.SetHotelId? && a.hotelId.None?)
    || (a.SetDeadline? && a.deadline.None?)
  }

  function Flatten(steps: seq<Step>): seq<Assign>
    requires Completing(steps)
  {
    if steps == [] then [] else Flatten(steps[..|steps| - 1]) + steps[|steps| - 1].patch
  }

  /** PATCHes that only supply what is missing. */
  predicate Supplying(steps: seq<Step>)
    requires Completing(steps)
  {
    forall i :: 0 <= i < |steps| ==>
      forall k :: 0 <= k < |steps[i].patch| ==> Storable(steps[i].patch[k]) && !Withdraws(steps[i].patch[k])
  }

  lemma {:induction false} PatchedConcat(j: Job, xs: seq<Assign>, ys: seq<Assign>)
    ensures Patched(j, xs + ys) == Patched(Patched(j, xs), ys)
  {
    if ys == [] {
      assert xs + ys == xs;
    } else {
      assert (xs + ys)[..|xs + ys| - 1] == xs + ys[..|ys| - 1];
      PatchedConcat(j, xs, ys[..|ys| - 1]);
    }
  }

  lemma {:induction false} FoldedIsOnePatch(j: Job, steps: seq<Step>)
    requires Completing(steps) && Supplying(steps)
    ensures Folded(j, steps) == Patched(j, Flatten(steps))
  {
    if steps != [] {
      var front, patch := steps[..|steps| - 1], steps[|steps| - 1].patch;
      FoldedIsOnePatch(j, front);
      PatchedConcat(j, Flatten(front), patch);
      hide Patched, Withdraws;
    }
  }

  lemma {:induction false} SupplyingKeepsReady(j: Job, patch: seq<Assign>)
    requires ReadyToMonitor(j) && forall k :: 0 <= k < |patch| ==> Storable(patch[k]) && !Withdraws(patch[k])
    ensures ReadyToMonitor(Patched(j, patch))
  {
    if patch != [] { SupplyingKeepsReady(j, patch[..|patch| - 1]); }
  }

  /** Once complete, a booking that only gains stays complete. */
  lemma {:induction false} ReadinessIsMonotone(j: Job, steps: seq<Step>, k: nat)
    requires Completing(steps) && Supplying(steps) && k <= |steps| && ReadyAfter(j, steps, k)
    ensures ReadyToMonitor(Folded(j, steps))
    decreases |steps|
  {
    if k == |steps| {
      assert steps[..k] == steps;
    } else {
      var front, patch := steps[..|steps| - 1], steps[|steps| - 1].patch;
      assert front[..k] == steps[..k];
      ReadinessIsMonotone(j, front, k);
      SupplyingKeepsReady(Folded(j, front), patch);
      hide Patched, ReadyToMonitor, Withdraws, Storable;
    }
  }

  lemma {:induction false} FirstCompletion(j: Job, steps: seq<Step>) returns (m: nat)
    requires Completing(steps) && !ReadyToMonitor(j) && ReadyToMonitor(Folded(j, steps))
    ensures 1 <= m <= |steps| && ReadyAfter(j, steps, m) && forall k :: 0 <= k < m ==> !ReadyAfter(j, steps, k)
  {
    hide ReadyToMonitor;
    assert steps[..|steps|] == steps && steps[..0] == [];
    m := 0;
    while !ReadyAfter(j, steps, m)
      invariant m <= |steps| && forall k :: 0 <= k < m ==> !ReadyAfter(j, steps, k)
      invariant ReadyAfter(j, steps, |steps|)
      decreases |steps| - m
    {
      m := m + 1;
    }
  }

  /** Where a run of supplying PATCHes ends: activated and announced once if
      everything is there in the end, and pending, unannounced otherwise. */
  lemma {:induction false} SupplyingOutcome(e: Env, w: World, steps: seq<Step>)
    requires Completing(steps) && Supplying(steps) && Pending(w.job.status) && !ReadyToMonitor(w.job)
    ensures var w', full := Exec(e, w, steps), Patched(w.job, Flatten(steps));
            if ReadyToMonitor(full)
            then w'.job.(nextCheckAt := None) == full.(status := Active, nextCheckAt := None) && |w'.log| == |w.log| + 1
            else w'.job == full && w'.log == w.log
  {
    FoldedIsOnePatch(w.job, steps);
    if ReadyToMonitor(Folded(w.job, steps)) {
      var m := FirstCompletion(w.job, steps);
      ActivatedByTheFirstCompletion(e, w, steps, m);
    } else {
      forall k | 0 <= k <= |steps|
        ensures !ReadyAfter(w.job, steps, k)
      {
        if ReadyAfter(w.job, steps, k) { ReadinessIsMonotone(w.job, steps, k); }
      }
      NothingUntilComplete(e, w, steps);
    }
    hide Patched, ReadyToMonitor, Exec;
  }

  /** Two runs of PATCHes that supply the same fields, grouped and ordered in
      any two ways, leave the same booking and announce it equally often. */
  lemma {:induction false} ActivationIsConfluent(e: Env, w: World, steps: seq<Step>, steps': seq<Step>)
    requires Completing(steps) && Supplying(steps) && Completing(steps') && Supplying(steps')
    requires multiset(Flatten(steps)) == multiset(Flatten(steps')) && DistinctFields(Flatten(steps'))
    requires Pending(w.job.status) && !ReadyToMonitor(w.job)
    ensures var v, v' := Exec(e, w, steps), Exec(e, w, steps');
            v.job.(nextCheckAt := None) == v'.job.(nextCheckAt := None) && |v.log| == |v'.log|
  {
    SupplyingOutcome(e, w, steps);
    SupplyingOutcome(e, w, steps');
    FieldOrderIsIrrelevant(w.job, Flatten(steps), Flatten(steps'));
    hide Exec, Patched, Flatten;
  }
}
