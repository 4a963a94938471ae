// Many requests at once on guest keys, across days and hours: what a window has
// used, how far it can pass its limit, and why refunds from an earlier window make
// it depend on their order.

module GuestRuns {
  import opened Wrappers
  import opened Quota
  import opened TicketSums

  /** The daily and the hourly journal of a guest key follow one pattern. */
  datatype Window = Daily | Hourly

  function Journal(g: Guest, w: Window): map<string, int>
  {
    if w.Daily? then g.usage else g.hourly
  }

  function LimitOf(lim: GuestLimits, w: Window): int
  {
    if w.Daily? then lim.daily else lim.hourly
  }

  function NameOf(s: Stamp, w: Window): string
  {
    if w.Daily? then s.day else s.hour
  }

  // ----------------------------------------------------------------------- runs

  /** What a reservation was settled at, and at which tick. */
  datatype Settlement = Settlement(actual: nat, at: nat)

  /** A reservation that was granted. */
  datatype Ticket = Ticket(key: string, reserved: nat, at: nat, settled: Option<Settlement>)

  /** The journals, the tickets, a tick per event, and the ticks at which the windows began. */
  datatype System = System(guest: Guest, log: seq<Ticket>, tick: nat, daySince: nat, hourSince: nat)

  datatype Event =
    | Enter(key: string, tokens: nat, now: Stamp)
    | Leave(index: nat, actual: nat, now: Stamp)

  predicate Pending(s: System, i: nat)
  {
    i < |s.log| && s.log[i].settled.None?
  }

  /** The stamp names another window, so its journal starts empty. */
  predicate Rolls(g: Guest, now: Stamp, w: Window)
  {
    NameOf(g.stamp, w) != NameOf(now, w) && NameOf(g.stamp, w) != ""
  }

  function SinceOf(s: System, w: Window): nat
  {
    if w.Daily? then s.daySince else s.hourSince
  }

  /** The journals brought up to now. */
  function Current(s: System, now: Stamp): System
  {
    s.(guest := Rolled(s.guest, now),
       daySince := if Rolls(s.guest, now, Daily) then s.tick else s.daySince,
       hourSince := if Rolls(s.guest, now, Hourly) then s.tick else s.hourSince)
  }

  function Step(s: System, limitsOf: string -> GuestLimits, e: Event): System
  {
    match e
    case Enter(key, tokens, now) =>
      Current(s, now).(
        guest := GuestReserved(s.guest, key, limitsOf(key), tokens, now),
        log := if GuestAllowed(Rolled(s.guest, now), key, limitsOf(key), tokens)
               then s.log + [Ticket(key, tokens, s.tick, None)] else s.log,
        tick := s.tick + 1)
    case Leave(i, actual, now) =>
      if !Pending(s, i) then s
      else
        (if s.log[i].reserved == 0 && actual == 0 then s else Current(s, now)).(
          guest := GuestAdjusted(s.guest, s.log[i].key, s.log[i].reserved, actual, now),
          log := s.log[i := Closed(s.log[i], actual, s.tick)],
          tick := s.tick + 1)
  }

  function Closed(t: Ticket, actual: nat, at: nat): Ticket
  {
    t.(settled := Some(Settlement(actual, at)))
  }

  function Opening(g: Guest): System
  {
    System(g, [], 1, 0, 0)
  }

  function Run(g: Guest, limitsOf: string -> GuestLimits, es: seq<Event>): System
  {
    if es == [] then Opening(g) else Step(Run(g, limitsOf, es[..|es| - 1]), limitsOf, es[|es| - 1])
  }

  // -------------------------------------------------------------------- amounts

  /** The reservation while a request runs, the settled amount afterwards. */
  function Charge(t: Ticket): nat
  {
    if t.settled.None? then t.reserved else t.settled.value.actual
  }

  /** What settling added beyond the reservation. */
  function Overrun(t: Ticket): nat
  {
    if t.settled.Some? && t.settled.value.actual > t.reserved then t.settled.value.actual - t.reserved else 0
  }

  /** What settling gave back of it. */
  function Refund(t: Ticket): nat
  {
    if t.settled.Some? && t.settled.value.actual < t.reserved then t.reserved - t.settled.value.actual else 0
  }

  /** Reserved before the window began and settled in it. */
  predicate Crossed(t: Ticket, since: nat)
  {
    t.at < since && t.settled.Some? && t.settled.value.at >= since
  }

  function ChargesSince(key: string, since: nat): Ticket -> int
  {
    (t: Ticket) => if t.key == key && t.at >= since then Charge(t) else 0
  }

  function OverrunsInto(key: string, since: nat): Ticket -> int
  {
    (t: Ticket) => if t.key == key && Crossed(t, since) then Overrun(t) else 0
  }

  function RefundsInto(key: string, since: nat): Ticket -> int
  {
    (t: Ticket) => if t.key == key && Crossed(t, since) then Refund(t) else 0
  }

  function OverrunsSince(key: string, since: nat): Ticket -> int
  {
    (t: Ticket) => if t.key == key && t.settled.Some? && t.settled.value.at >= since then Overrun(t) else 0
  }

  /** What was used before the run, while its first window lasts. */
  function Before(s: System, g: Guest, key: string, w: Window): int
  {
    if SinceOf(s, w) == 0 then Used(Journal(g, w), key) else 0
  }

  /** The open reservations and settled amounts of the window, and the overruns that crossed into it. */
  function Owed(s: System, g: Guest, key: string, w: Window): int
  {
    Before(s, g, key, w) + Sum(s.log, ChargesSince(key, SinceOf(s, w))) + Sum(s.log, OverrunsInto(key, SinceOf(s, w)))
  }

  function Lost(s: System, key: string, w: Window): int
  {
    Sum(s.log, RefundsInto(key, SinceOf(s, w)))
  }

  // ----------------------------------------------------------------- the bounds

  /** Tickets and windows lie in the past. */
  ghost predicate Past(s: System)
  {
    && s.tick > 0 && s.daySince <= s.tick && s.hourSince <= s.tick
    && forall t :: t in s.log ==> t.at < s.tick && (t.settled.Some? ==> t.settled.value.at < s.tick)
  }

  /** The key has a limit in the window and the run began with a possible amount. */
  predicate Counted(limitsOf: string -> GuestLimits, g: Guest, key: string, w: Window)
  {
    LimitOf(limitsOf(key), w) > 0 && Used(Journal(g, w), key) >= 0
  }

  /** At most what is owed, and at least that less the refunds that crossed. */
  ghost predicate Tallied(s: System, g: Guest, key: string, w: Window)
  {
    var used := Used(Journal(s.guest, w), key);
    && 0 <= used
    && Owed(s, g, key, w) - Lost(s, key, w) <= used <= Owed(s, g, key, w)
  }

  ghost predicate AllTallied(s: System, limitsOf: string -> GuestLimits, g: Guest, w: Window)
  {
    Past(s) && forall key :: Counted(limitsOf, g, key, w) ==> Tallied(s, g, key, w)
  }

  lemma {:induction false} SumNonNegative(log: seq<Ticket>, f: Ticket -> int)
    requires forall t :: f(t) >= 0
    ensures Sum(log, f) >= 0
  {
    if log != [] { SumNonNegative(log[..|log| - 1], f); }
  }

  lemma NothingSince(s: System, key: string, since: nat)
    requires Past(s) && since >= s.tick
    ensures Sum(s.log, ChargesSince(key, since)) == 0
    ensures Sum(s.log, OverrunsInto(key, since)) == 0
    ensures Sum(s.log, RefundsInto(key, since)) == 0
    ensures Sum(s.log, OverrunsSince(key, since)) == 0
  {
    SumZero(s.log, ChargesSince(key, since));
    SumZero(s.log, OverrunsInto(key, since));
    SumZero(s.log, RefundsInto(key, since));
    SumZero(s.log, OverrunsSince(key, since));
  }

  lemma CurrentTallied(s: System, limitsOf: string -> GuestLimits, g: Guest, w: Window, now: Stamp)
    requires AllTallied(s, limitsOf, g, w)
    ensures AllTallied(Current(s, now), limitsOf, g, w)
  {
    var r := Current(s, now);
    forall key | Counted(limitsOf, g, key, w) ensures Tallied(r, g, key, w) {
      assert Tallied(s, g, key, w);
      if Rolls(s.guest, now, w) {
        NothingSince(s, key, s.tick);
      } else {
        assert Journal(r.guest, w) == Journal(s.guest, w) && SinceOf(r, w) == SinceOf(s, w);
      }
    }
  }

  /** A granted reservation of a current window. */
  lemma EnteredTallied(s: System, g: Guest, w: Window, t: Ticket, after: System, key: string)
    requires Past(s) && Tallied(s, g, key, w) && t.settled.None? && t.at >= SinceOf(s, w)
    requires after.log == s.log + [t] && SinceOf(after, w) == SinceOf(s, w)
    requires Used(Journal(after.guest, w), key) ==
      Used(Journal(s.guest, w), key) + if t.key == key then t.reserved else 0
    ensures Tallied(after, g, key, w)
  {
    var since := SinceOf(s, w);
    SumMore(s.log, t, ChargesSince(key, since));
    SumMore(s.log, t, OverrunsInto(key, since));
    SumMore(s.log, t, RefundsInto(key, since));
  }

  lemma EnterKeepsTallied(s: System, limitsOf: string -> GuestLimits, g: Guest, w: Window, key: string, tokens: nat,
                          now: Stamp)
    requires AllTallied(s, limitsOf, g, w)
    ensures AllTallied(Step(s, limitsOf, Enter(key, tokens, now)), limitsOf, g, w)
  {
    var r, next := Current(s, now), Step(s, limitsOf, Enter(key, tokens, now));
    CurrentTallied(s, limitsOf, g, w, now);
    forall k | Counted(limitsOf, g, k, w) ensures Tallied(next, g, k, w) {
      assert Tallied(r, g, k, w);
      if next.log != s.log {
        EnteredTallied(r, g, w, Ticket(key, tokens, s.tick, None), next, k);
      }
    }
  }

  /** How settling one ticket moves what is owed and what is lost. */
  lemma ClosedSums(s: System, i: nat, actual: nat, key: string, since: nat)
    requires Past(s) && Pending(s, i) && since <= s.tick
    ensures
      var (t, log) := (s.log[i], s.log[i := Closed(s.log[i], actual, s.tick)]);
      var diff := actual - t.reserved;
      && Sum(log, ChargesSince(key, since)) ==
           Sum(s.log, ChargesSince(key, since)) + (if t.key == key && t.at >= since then diff else 0)
      && Sum(log, OverrunsInto(key, since)) ==
           Sum(s.log, OverrunsInto(key, since)) + (if t.key == key && t.at < since && diff > 0 then diff else 0)
      && Sum(log, RefundsInto(key, since)) ==
           Sum(s.log, RefundsInto(key, since)) + (if t.key == key && t.at < since && diff < 0 then -diff else 0)
  {
    var done := Closed(s.log[i], actual, s.tick);
    SumUpdate(s.log, i, done, ChargesSince(key, since));
    SumUpdate(s.log, i, done, OverrunsInto(key, since));
    SumUpdate(s.log, i, done, RefundsInto(key, since));
  }

  /** A settlement in a current window. */
  lemma ClosedTallied(s: System, g: Guest, w: Window, i: nat, actual: nat, after: System, key: string)
    requires Past(s) && Tallied(s, g, key, w) && Pending(s, i) && Used(Journal(g, w), key) >= 0
    requires after.log == s.log[i := Closed(s.log[i], actual, s.tick)] && SinceOf(after, w) == SinceOf(s, w)
    requires
      var used := Used(Journal(s.guest, w), key);
      Used(Journal(after.guest, w), key) ==
        if s.log[i].key == key then Floored(used + actual - s.log[i].reserved) else used
    ensures Tallied(after, g, key, w)
  {
    var since := SinceOf(s, w);
    ClosedSums(s, i, actual, key, since);
    SumNonNegative(after.log, ChargesSince(key, since));
    SumNonNegative(after.log, OverrunsInto(key, since));
    SumNonNegative(after.log, RefundsInto(key, since));
  }

  lemma LeaveKeepsTallied(s: System, limitsOf: string -> GuestLimits, g: Guest, w: Window, i: nat, actual: nat,
                          now: Stamp)
    requires AllTallied(s, limitsOf, g, w) && Pending(s, i)
    ensures AllTallied(Step(s, limitsOf, Leave(i, actual, now)), limitsOf, g, w)
  {
    var next := Step(s, limitsOf, Leave(i, actual, now));
    var idle := s.log[i].reserved == 0 && actual == 0;
    var r := if idle then s else Current(s, now);
    if !idle { CurrentTallied(s, limitsOf, g, w, now); }
    forall k | Counted(limitsOf, g, k, w) ensures Tallied(next, g, k, w) {
      assert Tallied(r, g, k, w);
      ClosedTallied(r, g, w, i, actual, next, k);
    }
  }

  lemma StepKeepsTallied(s: System, limitsOf: string -> GuestLimits, g: Guest, w: Window, e: Event)
    requires AllTallied(s, limitsOf, g, w)
    ensures AllTallied(Step(s, limitsOf, e), limitsOf, g, w)
  {
    match e
    case Enter(key, tokens, now) => EnterKeepsTallied(s, limitsOf, g, w, key, tokens, now);
    case Leave(i, actual, now) => if Pending(s, i) { LeaveKeepsTallied(s, limitsOf, g, w, i, actual, now); }
  }

  /**
   In every interleaving and across all days and hours, a guest key with a limit has
   used at most its open reservations and settled amounts of the window plus the
   overruns that crossed into it, and at least that less the refunds that crossed.
   */
  lemma {:induction false} CountersBounded(g: Guest, limitsOf: string -> GuestLimits, es: seq<Event>, w: Window)
    ensures AllTallied(Run(g, limitsOf, es), limitsOf, g, w)
  {
    if es == [] {
      forall key | Counted(limitsOf, g, key, w) ensures Tallied(Opening(g), g, key, w) {
      }
    } else {
      CountersBounded(g, limitsOf, es[..|es| - 1], w);
      StepKeepsTallied(Run(g, limitsOf, es[..|es| - 1]), limitsOf, g, w, es[|es| - 1]);
    }
  }

  // ------------------------------------------------------------ exact amounts

  /** Where no refund crossed into the window, what is owed is what was used. */
  lemma CountersExact(g: Guest, limitsOf: string -> GuestLimits, es: seq<Event>, w: Window, key: string)
    requires Counted(limitsOf, g, key, w)
    requires var s := Run(g, limitsOf, es);
             forall t :: t in s.log && t.key == key && Crossed(t, SinceOf(s, w)) ==> Refund(t) == 0
    ensures var s := Run(g, limitsOf, es); Used(Journal(s.guest, w), key) == Owed(s, g, key, w)
  {
    var s := Run(g, limitsOf, es);
    CountersBounded(g, limitsOf, es, w);
    assert Tallied(s, g, key, w);
    SumZero(s.log, RefundsInto(key, SinceOf(s, w)));
  }

  lemma StayIn(s: System, limitsOf: string -> GuestLimits, e: Event, w: Window, name: string)
    requires NameOf(s.guest.stamp, w) in {"", name} && NameOf(e.now, w) == name
    ensures SinceOf(Step(s, limitsOf, e), w) == SinceOf(s, w)
    ensures NameOf(Step(s, limitsOf, e).guest.stamp, w) in {"", name}
  {
  }

  lemma {:induction false} FirstWindow(g: Guest, limitsOf: string -> GuestLimits, es: seq<Event>, w: Window,
                                       name: string)
    requires NameOf(g.stamp, w) in {"", name} && forall e :: e in es ==> NameOf(e.now, w) == name
    ensures SinceOf(Run(g, limitsOf, es), w) == 0 && NameOf(Run(g, limitsOf, es).guest.stamp, w) in {"", name}
  {
    if es != [] {
      var n := |es| - 1;
      assert es[n] in es && forall e :: e in es[..n] ==> e in es;
      FirstWindow(g, limitsOf, es[..n], w, name);
      StayIn(Run(g, limitsOf, es[..n]), limitsOf, es[n], w, name);
    }
  }

  /**
   While the day lasts (or the hour), in every interleaving, a guest key with a limit
   on it has used what was there, its open reservations and its settled amounts;
   flooring at zero never loses anything.
   */
  lemma CountersAddUp(g: Guest, limitsOf: string -> GuestLimits, es: seq<Event>, w: Window, name: string, key: string)
    requires NameOf(g.stamp, w) in {"", name} && forall e :: e in es ==> NameOf(e.now, w) == name
    requires Counted(limitsOf, g, key, w)
    ensures
      var s := Run(g, limitsOf, es);
      Used(Journal(s.guest, w), key) == Used(Journal(g, w), key) + Sum(s.log, ChargesSince(key, 0))
  {
    var s := Run(g, limitsOf, es);
    FirstWindow(g, limitsOf, es, w, name);
    CountersExact(g, limitsOf, es, w, key);
    SumZero(s.log, OverrunsInto(key, 0));
  }

  /**
   A refund from an earlier window ahead of a reservation is lost in an empty new
   one; behind it, it is taken off that reservation. So the two amounts are attained.
   */
  lemma RefundOrder(g: Guest, key: string, lim: GuestLimits, reserved: nat, actual: nat, tokens: nat, now: Stamp,
                    w: Window)
    requires g.stamp == now && Used(Journal(g, w), key) == 0 && LimitOf(lim, w) > 0
    requires forall v :: Used(Journal(g, v), key) >= 0
    requires actual < reserved && tokens >= reserved - actual
    requires GuestAllowed(g, key, lim, tokens)
    ensures
      var refundFirst := GuestReserved(GuestAdjusted(g, key, reserved, actual, now), key, lim, tokens, now);
      var refundLast := GuestAdjusted(GuestReserved(g, key, lim, tokens, now), key, reserved, actual, now);
      && Used(Journal(refundFirst, w), key) == tokens
      && Used(Journal(refundLast, w), key) == tokens - (reserved - actual)
  {
    assert Used(Journal(g, Daily), key) >= 0 && Used(Journal(g, Hourly), key) >= 0;
    var h := GuestAdjusted(g, key, reserved, actual, now);
    assert GuestAllowed(h, key, lim, tokens);
  }

  // ------------------------------------------------------------------- limits

  /** The overruns settled in a window are all that takes it past its limit. */
  ghost predicate Within(s: System, limitsOf: string -> GuestLimits, key: string, w: Window)
  {
    Used(Journal(s.guest, w), key) <= LimitOf(limitsOf(key), w) + Sum(s.log, OverrunsSince(key, SinceOf(s, w)))
  }

  lemma CurrentWithin(s: System, limitsOf: string -> GuestLimits, key: string, w: Window, now: Stamp)
    requires Past(s) && Within(s, limitsOf, key, w) && LimitOf(limitsOf(key), w) > 0
    ensures Past(Current(s, now)) && Within(Current(s, now), limitsOf, key, w)
  {
    if Rolls(s.guest, now, w) { NothingSince(s, key, s.tick); }
  }

  /** A reservation leaves a limited journal as it was or within its limit. */
  lemma ReservedFits(g: Guest, key: string, lim: GuestLimits, w: Window, k: string, limOfK: GuestLimits, tokens: nat,
                     now: Stamp)
    requires LimitOf(lim, w) > 0 && (k == key ==> limOfK == lim)
    ensures
      var after := Used(Journal(GuestReserved(g, k, limOfK, tokens, now), w), key);
      after == Used(Journal(Rolled(g, now), w), key) || after <= LimitOf(lim, w)
  {
  }

  lemma EnteredWithin(r: System, limitsOf: string -> GuestLimits, key: string, w: Window, t: Ticket, next: System)
    requires Within(r, limitsOf, key, w) && t.settled.None? && SinceOf(next, w) == SinceOf(r, w)
    requires next.log == r.log || next.log == r.log + [t]
    requires
      var after := Used(Journal(next.guest, w), key);
      after == Used(Journal(r.guest, w), key) || after <= LimitOf(limitsOf(key), w)
    ensures Within(next, limitsOf, key, w)
  {
    var f := OverrunsSince(key, SinceOf(r, w));
    SumMore(r.log, t, f);
    SumNonNegative(r.log, f);
  }

  lemma EnterKeepsWithin(s: System, limitsOf: string -> GuestLimits, key: string, w: Window, k: string, tokens: nat,
                         now: Stamp)
    requires Past(s) && Within(s, limitsOf, key, w) && LimitOf(limitsOf(key), w) > 0
    ensures Within(Step(s, limitsOf, Enter(k, tokens, now)), limitsOf, key, w)
  {
    var r, next := Current(s, now), Step(s, limitsOf, Enter(k, tokens, now));
    CurrentWithin(s, limitsOf, key, w, now);
    ReservedFits(s.guest, key, limitsOf(key), w, k, limitsOf(k), tokens, now);
    EnteredWithin(r, limitsOf, key, w, Ticket(k, tokens, s.tick, None), next);
  }

  /** A settlement in a current window. */
  lemma ClosedWithin(s: System, limitsOf: string -> GuestLimits, key: string, w: Window, i: nat, actual: nat,
                     after: System)
    requires Past(s) && Within(s, limitsOf, key, w) && Pending(s, i) && LimitOf(limitsOf(key), w) > 0
    requires after.log == s.log[i := Closed(s.log[i], actual, s.tick)] && SinceOf(after, w) == SinceOf(s, w)
    requires
      var used := Used(Journal(s.guest, w), key);
      Used(Journal(after.guest, w), key) ==
        if s.log[i].key == key then Floored(used + actual - s.log[i].reserved) else used
    ensures Within(after, limitsOf, key, w)
  {
    var f := OverrunsSince(key, SinceOf(s, w));
    SumUpdate(s.log, i, Closed(s.log[i], actual, s.tick), f);
    SumNonNegative(s.log, f);
  }

  lemma LeaveKeepsWithin(s: System, limitsOf: string -> GuestLimits, key: string, w: Window, i: nat, actual: nat,
                         now: Stamp)
    requires Past(s) && Within(s, limitsOf, key, w) && LimitOf(limitsOf(key), w) > 0 && Pending(s, i)
    ensures Within(Step(s, limitsOf, Leave(i, actual, now)), limitsOf, key, w)
  {
    var next := Step(s, limitsOf, Leave(i, actual, now));
    CurrentWithin(s, limitsOf, key, w, now);
    if s.log[i].reserved == 0 && actual == 0 {
      var f := OverrunsSince(key, SinceOf(s, w));
      SumUpdate(s.log, i, Closed(s.log[i], actual, s.tick), f);
    } else {
      ClosedWithin(Current(s, now), limitsOf, key, w, i, actual, next);
    }
  }

  lemma StepKeepsPast(s: System, limitsOf: string -> GuestLimits, e: Event)
    requires Past(s)
    ensures Past(Step(s, limitsOf, e))
  {
  }

  /**
   Over all runs and clocks no window of a guest key passes its limit by more than
   what was used beyond the reservations settled in it.
   */
  lemma {:induction false} LimitsHold(g: Guest, limitsOf: string -> GuestLimits, es: seq<Event>, w: Window, key: string)
    requires 0 < LimitOf(limitsOf(key), w) && Used(Journal(g, w), key) <= LimitOf(limitsOf(key), w)
    ensures Past(Run(g, limitsOf, es)) && Within(Run(g, limitsOf, es), limitsOf, key, w)
  {
    if es != [] {
      LimitsHold(g, limitsOf, es[..|es| - 1], w, key);
      var s := Run(g, limitsOf, es[..|es| - 1]);
      StepKeepsPast(s, limitsOf, es[|es| - 1]);
      match es[|es| - 1]
      case Enter(k, tokens, now) => EnterKeepsWithin(s, limitsOf, key, w, k, tokens, now);
      case Leave(i, actual, now) => if Pending(s, i) { LeaveKeepsWithin(s, limitsOf, key, w, i, actual, now); }
    }
  }

  // ------------------------------------------------------------- one request

  /** One granted guest request, reserved at one reading of the journals and settled at another. */
  function Settled(g: Guest, key: string, lim: GuestLimits, tokens: int, actual: int, first: Stamp, last: Stamp): Guest
  {
    GuestAdjusted(GuestReserved(g, key, lim, tokens, first), key, tokens, actual, last)
  }

  /**
   When both readings fall into one day (or hour), that window ends up charged the
   actual amount exactly when it has a limit, or there was nothing to charge. When
   the window rolled in between, the new one starts with the overrun, if any.
   */
  lemma NetIff(g: Guest, key: string, lim: GuestLimits, tokens: int, actual: nat, first: Stamp, last: Stamp, w: Window)
    requires tokens > 0 && GuestAllowed(Rolled(g, first), key, lim, tokens)
    requires Used(Journal(Rolled(g, first), w), key) >= 0
    ensures
      var used := Used(Journal(Rolled(g, first), w), key);
      var after := Used(Journal(Settled(g, key, lim, tokens, actual, first, last), w), key);
      && (NameOf(first, w) == NameOf(last, w) ==>
           (after == used + actual <==> LimitOf(lim, w) > 0 || used + actual == 0))
      && (NameOf(first, w) != NameOf(last, w) && NameOf(first, w) != "" ==>
           after == if actual > tokens then actual - tokens else 0)
  {
  }
}
