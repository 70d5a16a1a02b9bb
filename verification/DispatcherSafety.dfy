/** What every run of the dispatcher keeps, and what follows from it. */
module DispatcherSafety {
  import opened Dispatcher

  lemma MoveHead(rest: seq<Transfer>, to: seq<Transfer>, t: Transfer)
    requires rest != []
    ensures Count(rest, t) + Count(to, t) == Count(rest[1..], t) + Count(to + [rest[0]], t)
  {
    CountHead(rest, t);
    CountSnoc(to, rest[0], t);
  }

  lemma SubmitPlaces(queue: seq<Transfer>, held: seq<Transfer>, flight: seq<Transfer>, signals: seq<Transfer>,
                     easy: map<Transfer, Handle>, t: Transfer, h: Handle)
    requires Placed(queue, held, flight, signals, easy) && t !in easy
    ensures Placed(queue + [t], held, flight, signals, easy[t := h])
  {
    var longer, known := queue + [t], easy[t := h];
    forall u
      ensures OnePlace(longer, held, flight, signals, known, u)
    {
      assert OnePlace(queue, held, flight, signals, easy, u);
      CountSnoc(queue, t, u);
    }
  }

  lemma SubmitKeepsMulti(easy: map<Transfer, Handle>, multi: set<Handle>, private: map<Handle, Transfer>,
                         attached: seq<Transfer>, t: Transfer, h: Handle)
    requires Multi(easy, multi, private, attached) && t !in easy
    ensures Multi(easy[t := h], multi, private, attached)
  {
    var known := easy[t := h];
    forall u
      ensures Tied(known, multi, private, attached, u)
    {
      assert Tied(easy, multi, private, attached, u);
    }
    forall g
      ensures Pointed(known, multi, private, attached, g)
    {
      assert Pointed(easy, multi, private, attached, g);
    }
  }

  lemma SubmitKeeps(s: State, t: Transfer, h: Handle)
    requires Inv(s) && CanDo(s, Submit(t, h))
    ensures Inv(Do(s, Submit(t, h)))
  {
    if !s.rejecting {
      SubmitPlaces(s.queue, Held(s.phase), Flight(s.phase, s.inFlight), s.signals, s.easy, t, h);
      assert OnePlace(s.queue, Held(s.phase), Flight(s.phase, s.inFlight), s.signals, s.easy, t);
      SubmitKeepsMulti(s.easy, s.multi, s.private, Attached(s.phase, s.inFlight), t, h);
      assert OwnHandles(s.easy[t := h], s.live + {t});
    }
  }

  lemma AttachedIsFlight(p: Phase, inFlight: seq<Transfer>, t: Transfer)
    ensures Count(Attached(p, inFlight), t) <= Count(Flight(p, inFlight), t)
  {
    if p.DrainDetached? && p.i < |inFlight| {
      CountHead(inFlight[p.i..], t);
    }
  }

  lemma ReturnKeeps(s: State, t: Transfer)
    requires Inv(s) && CanDo(s, Return(t))
    ensures Inv(Do(s, Return(t)))
  {
  }

  lemma MoveKeeps(s: State, e: Event)
    requires Inv(s) && CanDo(s, e)
    requires e.Wake? || e.Shutdown? || e.Cleanup? || e.Check? || e.Swap? || e.EndHarvest? || e.DrainSwap?
    ensures Inv(Do(s, e))
  {
    if e.Swap? || e.DrainSwap? {
      QueueToHeld(s.queue, s.inFlight, s.signals, s.easy);
    }
  }

  lemma QueueToHeld(queue: seq<Transfer>, flight: seq<Transfer>, signals: seq<Transfer>, easy: map<Transfer, Handle>)
    requires Placed(queue, [], flight, signals, easy)
    ensures Placed([], queue, flight, signals, easy)
  {
    forall t
      ensures OnePlace([], queue, flight, signals, easy, t)
    {
      assert OnePlace(queue, [], flight, signals, easy, t);
    }
  }

  /** A transfer with an unsignalled place has a waiter. */
  lemma Waits(s: State, t: Transfer)
    requires Inv(s)
    requires Count(s.queue, t) + Count(Held(s.phase), t) + Count(Flight(s.phase, s.inFlight), t) > 0
    ensures t in s.easy && t in s.live && Count(s.signals, t) == 0 && t !in s.results
    ensures Count(s.queue, t) + Count(Held(s.phase), t) + Count(Flight(s.phase, s.inFlight), t) == 1
  {
    assert OnePlace(s.queue, Held(s.phase), Flight(s.phase, s.inFlight), s.signals, s.easy, t);
  }

  lemma HeldToFlight(queue: seq<Transfer>, rest: seq<Transfer>, flight: seq<Transfer>, signals: seq<Transfer>,
                     easy: map<Transfer, Handle>)
    requires Placed(queue, rest, flight, signals, easy) && rest != []
    ensures Placed(queue, rest[1..], flight + [rest[0]], signals, easy)
  {
    var left, longer := rest[1..], flight + [rest[0]];
    forall u
      ensures OnePlace(queue, left, longer, signals, easy, u)
    {
      assert OnePlace(queue, rest, flight, signals, easy, u);
      MoveHead(rest, flight, u);
    }
  }

  lemma HeldToSignals(queue: seq<Transfer>, rest: seq<Transfer>, flight: seq<Transfer>, signals: seq<Transfer>,
                      easy: map<Transfer, Handle>)
    requires Placed(queue, rest, flight, signals, easy) && rest != []
    ensures Placed(queue, rest[1..], flight, signals + [rest[0]], easy)
  {
    var left, longer := rest[1..], signals + [rest[0]];
    forall u
      ensures OnePlace(queue, left, flight, longer, easy, u)
    {
      assert OnePlace(queue, rest, flight, signals, easy, u);
      MoveHead(rest, signals, u);
    }
  }

  lemma FlightToSignals(queue: seq<Transfer>, held: seq<Transfer>, flight: seq<Transfer>, signals: seq<Transfer>,
                        easy: map<Transfer, Handle>)
    requires Placed(queue, held, flight, signals, easy) && flight != []
    ensures Placed(queue, held, flight[1..], signals + [flight[0]], easy)
  {
    var left, longer := flight[1..], signals + [flight[0]];
    forall u
      ensures OnePlace(queue, held, left, longer, easy, u)
    {
      assert OnePlace(queue, held, flight, signals, easy, u);
      MoveHead(flight, signals, u);
    }
  }

  lemma FlightToHand(queue: seq<Transfer>, flight: seq<Transfer>, signals: seq<Transfer>,
                     easy: map<Transfer, Handle>, t: Transfer)
    requires Placed(queue, [], flight, signals, easy) && Count(flight, t) > 0
    ensures Placed(queue, [t], Erase(flight, t), signals, easy)
  {
    forall u
      ensures OnePlace(queue, [t], Erase(flight, t), signals, easy, u)
    {
      assert OnePlace(queue, [], flight, signals, easy, u) && OnePlace(queue, [], flight, signals, easy, t);
      CountErase(flight, t, u);
      CountOne(t, u);
    }
  }

  lemma AddKeeps(s: State)
    requires Inv(s) && CanDo(s, Add)
    ensures Inv(Do(s, Add))
  {
    var rest := s.phase.rest;
    if rest != [] {
      var t := rest[0];
      CountHead(rest, t);
      Waits(s, t);
      HeldToFlight(s.queue, rest, s.inFlight, s.signals, s.easy);
      AddTies(s, t);
    }
  }

  /** The handle of a transfer about to be added is attached to nothing. */
  lemma AddTies(s: State, t: Transfer)
    requires Inv(s) && s.phase.Adding? && t in s.live && t in s.easy && Count(s.inFlight, t) == 0
    ensures s.easy[t] !in s.multi
    ensures Multi(s.easy, s.multi + {s.easy[t]}, s.private[s.easy[t] := t], s.inFlight + [t])
  {
    var h := s.easy[t];
    assert Pointed(s.easy, s.multi, s.private, s.inFlight, h);
    if h in s.multi {
      Waits(s, s.private[h]);
      assert false;
    }
    AttachKeeps(s.easy, s.multi, s.private, s.inFlight, t);
  }

  lemma AttachKeeps(easy: map<Transfer, Handle>, multi: set<Handle>, private: map<Handle, Transfer>,
                    attached: seq<Transfer>, t: Transfer)
    requires Multi(easy, multi, private, attached) && t in easy && easy[t] !in multi
    ensures Multi(easy, multi + {easy[t]}, private[easy[t] := t], attached + [t])
  {
    var more, pointers, longer := multi + {easy[t]}, private[easy[t] := t], attached + [t];
    forall u
      ensures Tied(easy, more, pointers, longer, u)
    {
      assert Tied(easy, multi, private, attached, u);
      CountSnoc(attached, t, u);
    }
    forall g
      ensures Pointed(easy, more, pointers, longer, g)
    {
      assert Pointed(easy, multi, private, attached, g);
      CountSnoc(attached, t, t);
      if g in multi {
        CountSnoc(attached, t, private[g]);
      }
    }
  }

  lemma HarvestKeeps(s: State, h: Handle, code: Code)
    requires Inv(s) && CanDo(s, Harvest(h, code))
    ensures Inv(Do(s, Harvest(h, code)))
  {
    assert Pointed(s.easy, s.multi, s.private, s.inFlight, h);
    var t := s.private[h];
    Waits(s, t);
    FlightToHand(s.queue, s.inFlight, s.signals, s.easy, t);
    EraseDetaches(s.easy, s.multi, s.private, s.inFlight, t);
  }

  lemma EraseDetaches(easy: map<Transfer, Handle>, multi: set<Handle>, private: map<Handle, Transfer>,
                      inFlight: seq<Transfer>, t: Transfer)
    requires Multi(easy, multi, private, inFlight) && t in easy && Count(inFlight, t) == 1
    ensures Multi(easy, multi - {easy[t]}, private - {easy[t]}, Erase(inFlight, t))
  {
    forall u
      ensures Count(Erase(inFlight, t), u) == if u == t then 0 else Count(inFlight, u)
    {
      CountErase(inFlight, t, u);
    }
    DetachKeeps(easy, multi, private, inFlight, Erase(inFlight, t), t);
  }

  /** Detaching the handle of one attached transfer leaves those of the others. */
  lemma DetachKeeps(easy: map<Transfer, Handle>, multi: set<Handle>, private: map<Handle, Transfer>,
                    before: seq<Transfer>, after: seq<Transfer>, t: Transfer)
    requires Multi(easy, multi, private, before) && t in easy && Count(before, t) > 0
    requires forall u :: Count(after, u) == if u == t then 0 else Count(before, u)
    ensures Multi(easy, multi - {easy[t]}, private - {easy[t]}, after)
  {
    assert Tied(easy, multi, private, before, t);
    var fewer, pointers := multi - {easy[t]}, private - {easy[t]};
    forall u
      ensures Tied(easy, fewer, pointers, after, u)
    {
      assert Tied(easy, multi, private, before, u);
    }
    forall g
      ensures Pointed(easy, fewer, pointers, after, g)
    {
      assert Pointed(easy, multi, private, before, g);
    }
  }

  lemma SignalledWaiting(easy: map<Transfer, Handle>, live: set<Transfer>, signals: seq<Transfer>, t: Transfer)
    requires Waiting(easy, live, signals)
    ensures Waiting(easy, live, signals + [t])
  {
    forall u
      ensures Count(signals + [t], u) >= Count(signals, u)
    {
      CountSnoc(signals, t, u);
    }
  }

  lemma SignalledAnswers(signals: seq<Transfer>, results: map<Transfer, Code>, t: Transfer, code: Code)
    requires Answered(signals, results)
    ensures Answered(signals + [t], results[t := code])
  {
    forall u
      ensures Count(signals + [t], u) == Count(signals, u) + if t == u then 1 else 0
    {
      CountSnoc(signals, t, u);
    }
  }

  lemma SignalKeeps(s: State)
    requires Inv(s) && CanDo(s, Signal)
    ensures Inv(Do(s, Signal))
  {
    var t := s.phase.t;
    var r := Signalled(s, t, s.phase.code, Harvesting);
    assert Do(s, Signal) == r;
    CountOne(t, t);
    Waits(s, t);
    SignalledWaiting(s.easy, s.live, s.signals, t);
    SignalledAnswers(s.signals, s.results, t, s.phase.code);
    HeldToSignals(s.queue, [t], s.inFlight, s.signals, s.easy);
    assert [t][1..] == [];
  }

  lemma DrainSignalKeeps(s: State)
    requires Inv(s) && CanDo(s, DrainSignal)
    ensures Inv(Do(s, DrainSignal))
  {
    if s.phase.rest == [] {
      assert s.inFlight[0..] == s.inFlight;
    } else {
      DrainSignalOne(s);
    }
  }

  lemma DrainSignalOne(s: State)
    requires Inv(s) && s.phase.DrainQueued? && s.phase.rest != []
    ensures Inv(Do(s, DrainSignal))
  {
    var rest := s.phase.rest;
    var t := rest[0];
    var r := Signalled(s, t, ABORTED_BY_CALLBACK, DrainQueued(rest[1..]));
    assert Do(s, DrainSignal) == r;
    CountHead(rest, t);
    Waits(s, t);
    SignalledWaiting(s.easy, s.live, s.signals, t);
    SignalledAnswers(s.signals, s.results, t, ABORTED_BY_CALLBACK);
    HeldToSignals(s.queue, rest, s.inFlight, s.signals, s.easy);
  }

  lemma DrainDetachKeeps(s: State)
    requires Inv(s) && CanDo(s, DrainDetach)
    ensures Inv(Do(s, DrainDetach))
  {
    DrainWaits(s, s.phase.i);
    DrainDetaches(s.easy, s.multi, s.private, s.inFlight, s.phase.i);
  }

  // What is known of the transfer the drain has come to.
  lemma DrainWaits(s: State, i: nat)
    requires Inv(s) && i < |s.inFlight| && (s.phase == DrainFlight(i) || s.phase == DrainDetached(i))
    ensures var t := s.inFlight[i];
      t in s.easy && t in s.live && Count(s.signals, t) == 0 && t !in s.results && Count(s.inFlight[i + 1..], t) == 0
  {
    DrainHead(s.inFlight, i, s.inFlight[i]);
    Waits(s, s.inFlight[i]);
  }

  // The drain's next transfer leaves the rest of the in-flight list.
  lemma DrainHead(inFlight: seq<Transfer>, i: nat, u: Transfer)
    requires i < |inFlight|
    ensures inFlight[i..][1..] == inFlight[i + 1..]
    ensures Count(inFlight[i..], u) == Count(inFlight[i + 1..], u) + if inFlight[i] == u then 1 else 0
  {
    assert inFlight[i..][1..] == inFlight[i + 1..];
    CountHead(inFlight[i..], u);
  }

  lemma DrainDetaches(easy: map<Transfer, Handle>, multi: set<Handle>, private: map<Handle, Transfer>,
                      inFlight: seq<Transfer>, i: nat)
    requires i < |inFlight| && inFlight[i] in easy && Count(inFlight[i + 1..], inFlight[i]) == 0
    requires Multi(easy, multi, private, inFlight[i..])
    ensures var h := easy[inFlight[i]]; Multi(easy, multi - {h}, private - {h}, inFlight[i + 1..])
  {
    var before, after := inFlight[i..], inFlight[i + 1..];
    DrainHead(inFlight, i, inFlight[i]);
    forall u
      ensures Count(after, u) == if u == inFlight[i] then 0 else Count(before, u)
    {
      DrainHead(inFlight, i, u);
    }
    DetachKeeps(easy, multi, private, before, after, inFlight[i]);
  }

  lemma DrainNotifyKeeps(s: State)
    requires Inv(s) && CanDo(s, DrainNotify)
    ensures Inv(Do(s, DrainNotify))
  {
    var i := s.phase.i;
    var t := s.inFlight[i];
    var r := Signalled(s, t, ABORTED_BY_CALLBACK, DrainFlight(i + 1));
    assert Do(s, DrainNotify) == r;
    DrainWaits(s, i);
    SignalledWaiting(s.easy, s.live, s.signals, t);
    SignalledAnswers(s.signals, s.results, t, ABORTED_BY_CALLBACK);
    DrainHead(s.inFlight, i, t);
    FlightToSignals(s.queue, [], s.inFlight[i..], s.signals, s.easy);
  }

  lemma DrainEndKeeps(s: State)
    requires Inv(s) && CanDo(s, DrainEnd)
    ensures Inv(Do(s, DrainEnd))
  {
  }

  lemma StepKeeps(s: State, e: Event)
    requires Inv(s) && CanDo(s, e)
    ensures Inv(Do(s, e))
  {
    match e {
      case Submit(t, h) => SubmitKeeps(s, t, h);
      case Return(t) => ReturnKeeps(s, t);
      case Add => AddKeeps(s);
      case Harvest(h, code) => HarvestKeeps(s, h, code);
      case Signal => SignalKeeps(s);
      case DrainSignal => DrainSignalKeeps(s);
      case DrainDetach => DrainDetachKeeps(s);
      case DrainNotify => DrainNotifyKeeps(s);
      case DrainEnd => DrainEndKeeps(s);
      case _ => MoveKeeps(s, e);
    }
  }
}
