/** Accepted transfers are started: each is attached to the multi handle after a bounded number of steps
    of the dispatcher thread, as long as nobody shuts it down. */
module DispatcherProgress {
  import opened Dispatcher
  import opened DispatcherSafety
  import opened DispatcherTheorems
  import opened Prelude

  /** The transfer is queued, or the dispatcher thread is about to add it. */
  predicate NotStarted(s: State, t: Transfer) {
    t in s.queue || (s.phase.Adding? && t in s.phase.rest)
  }

  /** The transfer's own handle is attached and leads back to its waiter. */
  predicate Started(s: State, t: Transfer) {
    t in s.easy && s.easy[t] in s.multi && s.easy[t] in s.private && s.private[s.easy[t]] == t && t in s.inFlight
  }

  /** How many transfers are in front of `t`. */
  function Pos(s: seq<Transfer>, t: Transfer): nat {
    if s == [] || s[0] == t then 0 else 1 + Pos(s[1..], t)
  }

  lemma {:induction false} PosAppend(s: seq<Transfer>, u: Transfer, t: Transfer)
    requires t in s
    ensures Pos(s + [u], t) == Pos(s, t)
  {
    if s[0] != t {
      assert (s + [u])[1..] == s[1..] + [u];
      PosAppend(s[1..], u, t);
    }
  }

  /** From the harvest on, with `n` transfers in flight. */
  function FromHarvest(queue: seq<Transfer>, n: nat, t: Transfer): nat {
    4 + Pos(queue, t) + 2 * n
  }

  /** How many steps the dispatcher thread takes at most until it has attached the transfer. */
  function Distance(s: State, t: Transfer): nat {
    match s.phase
    case Adding(rest) =>
      if t in rest then Pos(rest, t) + 1 else |rest| + 1 + FromHarvest(s.queue, |s.inFlight| + |rest|, t)
    case Swapping => Pos(s.queue, t) + 2
    case Checking => Pos(s.queue, t) + 3
    case Harvesting => FromHarvest(s.queue, |s.inFlight|, t)
    case Signalling(_, _) => 1 + FromHarvest(s.queue, |s.inFlight|, t)
    case _ => 0
  }

  lemma {:induction false} InCounts(s: seq<Transfer>, t: Transfer)
    ensures t in s <==> Count(s, t) > 0
  {
    if s != [] {
      InCounts(s[..|s| - 1], t);
      assert s == s[..|s| - 1] + [s[|s| - 1]];
    }
  }

  // A transfer that waits to be started has been accepted.
  lemma IsAccepted(s: State, t: Transfer)
    requires Inv(s) && NotStarted(s, t)
    ensures t in s.easy
  {
    InCounts(s.queue, t);
    InCounts(Held(s.phase), t);
    assert OnePlace(s.queue, Held(s.phase), Flight(s.phase, s.inFlight), s.signals, s.easy, t);
  }

  lemma AddApproaches(s: State, t: Transfer)
    requires CanDo(s, Add) && NotStarted(s, t) && t in s.easy
    ensures var r := Do(s, Add);
      Started(r, t) || (NotStarted(r, t) && Distance(r, t) < Distance(s, t))
  {
    var rest := s.phase.rest;
    if rest != [] {
      assert rest == [rest[0]] + rest[1..];
    }
  }

  lemma HarvestApproaches(s: State, h: Handle, code: Code, t: Transfer)
    requires Inv(s) && CanDo(s, Harvest(h, code)) && NotStarted(s, t)
    ensures var r := Do(s, Harvest(h, code));
      NotStarted(r, t) && Distance(r, t) < Distance(s, t)
  {
    assert Pointed(s.easy, s.multi, s.private, s.inFlight, h);
    CountErase(s.inFlight, s.private[h], s.private[h]);
  }

  lemma OthersApproach(s: State, e: Event, t: Transfer)
    requires CanDo(s, e) && NotStarted(s, t) && OfDispatcher(e) && !e.Add? && !e.Harvest? && !s.stopping
    requires Phases(s.phase, s.rejecting, s.stopping, s.queue, s.inFlight)
    ensures var r := Do(s, e);
      NotStarted(r, t) && Distance(r, t) < Distance(s, t)
  {
  }

  lemma WorkersLeave(s: State, e: Event, t: Transfer)
    requires CanDo(s, e) && NotStarted(s, t) && !OfDispatcher(e)
    ensures var r := Do(s, e);
      NotStarted(r, t) && Distance(r, t) == Distance(s, t)
  {
    if e.Submit? && t in s.queue {
      PosAppend(s.queue, e.t, t);
    }
  }

  /** What one step does for a transfer that waits to be started. */
  lemma StepApproaches(s: State, e: Event, t: Transfer)
    requires Inv(s) && CanDo(s, e) && NotStarted(s, t) && !s.stopping
    ensures var r := Do(s, e);
      if OfDispatcher(e) then Started(r, t) || (NotStarted(r, t) && Distance(r, t) < Distance(s, t))
      else NotStarted(r, t) && Distance(r, t) == Distance(s, t)
  {
    hide NotStarted, Started, Distance, Do;
    if e.Add? {
      IsAccepted(s, t);
      AddApproaches(s, t);
    } else if e.Harvest? {
      HarvestApproaches(s, e.h, e.code, t);
    } else if OfDispatcher(e) {
      OthersApproach(s, e, t);
    } else {
      WorkersLeave(s, e, t);
    }
  }

  lemma {:induction false} StepsSplit(events: seq<Event>, k: nat, later: nat)
    requires k < later <= |events|
    ensures DispatcherSteps(events, k, later) ==
      (if OfDispatcher(events[k]) then 1 else 0) + DispatcherSteps(events, k + 1, later)
    decreases later
  {
    if k + 1 < later {
      StepsSplit(events, k, later - 1);
    }
  }

  lemma NotStopping(run: seq<State>, events: seq<Event>, k: nat, later: nat)
    requires IsRun(run, events) && k <= later < |run| && !run[later].stopping
    ensures !run[k].stopping
  {
    if run[k].stopping {
      ShutdownProgresses(run, events, k, later);
    }
  }

  /** In every run a transfer that waits to be started has been attached to the multi handle, with its
      own handle, once the dispatcher thread has taken `Distance` steps, whatever the workers do and
      libcurl reports meanwhile, unless shutdown has begun. */
  lemma {:induction false} TransferStarts(run: seq<State>, events: seq<Event>, k: nat, later: nat, t: Transfer)
    requires IsRun(run, events) && k <= later < |run| && NotStarted(run[k], t) && !run[later].stopping
    requires DispatcherSteps(events, k, later) >= Distance(run[k], t)
    ensures exists j | k < j <= later :: Started(run[j], t)
    decreases later - k
  {
    NotStopping(run, events, k, later);
    RunInv(run, events, k);
    if k == later {
      DistancePositive(run[k], t);
      assert false;
    } else {
      assert StepAt(run, events, k);
      StepApproaches(run[k], events[k], t);
      StepsSplit(events, k, later);
      if !Started(run[k + 1], t) {
        TransferStarts(run, events, k + 1, later, t);
      }
    }
  }

  lemma DistancePositive(s: State, t: Transfer)
    requires Inv(s) && NotStarted(s, t) && !s.stopping
    ensures Distance(s, t) > 0
  {
  }

  /** Right after it was accepted a transfer waits to be started, and the distance depends on what is
      queued and in flight alone. */
  lemma AcceptedWaits(run: seq<State>, events: seq<Event>, k: nat, t: Transfer, h: Handle)
    requires IsRun(run, events) && k < |events| && events[k] == Submit(t, h) && !run[k].stopping
    ensures NotStarted(run[k + 1], t)
    ensures var s := run[k + 1];
      Distance(s, t) <= |s.queue| + 2 * |s.inFlight| + 3 * |Held(s.phase)| + 6
  {
    RejectedAtOnce(run, events, k, t, h);
    PosWithin(run[k + 1].queue, t);
    if run[k + 1].phase.Adding? {
      PosWithin(run[k + 1].phase.rest, t);
    }
    RunInv(run, events, k + 1);
  }

  lemma {:induction false} PosWithin(s: seq<Transfer>, t: Transfer)
    ensures Pos(s, t) <= |s|
  {
    if s != [] {
      PosWithin(s[1..], t);
    }
  }
}
