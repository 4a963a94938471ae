// Many requests at once on the public key's quota: what every counter adds up to in
// any interleaving and across resets, how far a limit can be overrun, and what
// settling in another window does.

module QuotaRuns {
  import opened Wrappers
  import opened Quota
  import opened TicketSums

  /** What a reservation was settled at, under which hour key and at which tick. */
  datatype Settlement = Settlement(actual: int, hour: string, at: nat)

  /** A reservation that was granted. */
  datatype Ticket = Ticket(ip: string, model: string, reserved: int, hour: string, at: nat, settled: Option<Settlement>)

  /**
   The quota, the tickets, and a tick per event. The since fields say from which
   tick on the counters count: the daily ones, the hourly ones of the addresses, and
   each hour key, of which the last reset kept one.
   */
  datatype System = System(
    pool: Pool, log: seq<Ticket>, tick: nat,
    daySince: nat, addressSince: nat, hourBase: nat, hourKept: string, keptSince: nat)

  datatype Event =
    | Enter(ip: string, model: string, tokens: nat, now: Clock)
    | Leave(index: nat, actual: nat, now: Clock)
    | Tick(now: Clock)

  predicate Pending(s: System, i: nat)
  {
    i < |s.log| && s.log[i].settled.None?
  }

  function HourSince(s: System, hour: string): nat
  {
    if hour == s.hourKept then s.keptSince else s.hourBase
  }

  /** Note which counters a reset at this clock reading starts again. */
  function Noted(s: System, now: Clock): System
  {
    s.(daySince := if DayOver(s.pool, now) then s.tick else s.daySince,
       addressSince := if DayOver(s.pool, now) || HourOver(s.pool, now) then s.tick else s.addressSince,
       hourBase := if HourOver(s.pool, now) then s.tick else s.hourBase,
       hourKept := if HourOver(s.pool, now) then now.hourKey else s.hourKept,
       keptSince := if HourOver(s.pool, now) then HourSince(s, now.hourKey) else s.keptSince)
  }

  function Step(s: System, e: Event): System
  {
    match e
    case Enter(ip, model, tokens, now) =>
      Noted(s, now).(
        pool := Reserved(s.pool, ip, model, tokens, now),
        log := if Refusal(Reset(s.pool, now), ip, model, tokens, now.hourKey).None?
               then s.log + [Ticket(ip, model, tokens, now.hourKey, s.tick, None)] else s.log,
        tick := s.tick + 1)
    case Leave(i, actual, now) =>
      if !Pending(s, i) then s
      else
        (if actual == s.log[i].reserved then s else Noted(s, now)).(
          pool := Adjusted(s.pool, s.log[i].ip, s.log[i].model, s.log[i].reserved, actual, now),
          log := s.log[i := s.log[i].(settled := Some(Settlement(actual, now.hourKey, s.tick)))],
          tick := s.tick + 1)
    case Tick(now) => Noted(s, now).(pool := Reset(s.pool, now), tick := s.tick + 1)
  }

  function Run(s: System, es: seq<Event>): System
  {
    if es == [] then s else Step(Run(s, es[..|es| - 1]), es[|es| - 1])
  }

  function Opening(limits: Limits, now: Clock): System
  {
    System(Pool(limits, 0, map[], map[], map[], now, now), [], 0, 0, 0, 0, now.hourKey, 0)
  }

  // ---------------------------------------------------------- sums over tickets

  /**
   What a ticket added from a tick on: its reservation if it was made since, its
   correction if it was settled since.
   */
  function Share(t: Ticket, since: nat): int
  {
    (if t.at >= since then t.reserved else 0)
    + if t.settled.Some? && t.settled.value.at >= since then t.settled.value.actual - t.reserved else 0
  }

  /** The part of it booked under one hour key. */
  function HourShare(t: Ticket, hour: string, since: nat): int
  {
    (if t.hour == hour && t.at >= since then t.reserved else 0)
    + if t.settled.Some? && t.settled.value.hour == hour && t.settled.value.at >= since
      then t.settled.value.actual - t.reserved else 0
  }

  /** The reservation while a request runs, the settled amount afterwards. */
  function Charge(t: Ticket): int
  {
    if t.settled.None? then t.reserved else t.settled.value.actual
  }

  function Overrun(t: Ticket): (r: int)
    ensures r >= 0
  {
    if t.settled.Some? && t.settled.value.actual > t.reserved then t.settled.value.actual - t.reserved else 0
  }

  function AllShares(since: nat): Ticket -> int
  {
    (t: Ticket) => Share(t, since)
  }

  function SharesOfIp(ip: string, since: nat): Ticket -> int
  {
    (t: Ticket) => if t.ip == ip then Share(t, since) else 0
  }

  function SharesOfModel(model: string, since: nat): Ticket -> int
  {
    (t: Ticket) => if t.model == model then Share(t, since) else 0
  }

  function SharesOfHour(hour: string, since: nat): Ticket -> int
  {
    (t: Ticket) => HourShare(t, hour, since)
  }

  // ---------------------------------------------------------------- conservation

  /** Tickets and windows lie in the past. */
  ghost predicate Past(s: System)
  {
    && (forall t :: t in s.log ==> t.at < s.tick && (t.settled.Some? ==> t.settled.value.at < s.tick))
    && s.daySince <= s.tick && s.addressSince <= s.tick && s.hourBase <= s.tick && s.keptSince <= s.tick
  }

  ghost predicate DailyBalanced(s: System)
  {
    && s.pool.global == Sum(s.log, AllShares(s.daySince))
    && (forall ip :: ip != "" ==> UseOf(s.pool, ip).daily == Sum(s.log, SharesOfIp(ip, s.daySince)))
    && (forall model :: model != "" ==> Used(s.pool.models, model) == Sum(s.log, SharesOfModel(model, s.daySince)))
  }

  ghost predicate HourlyBalanced(s: System)
  {
    && (forall ip :: ip != "" ==> UseOf(s.pool, ip).hourly == Sum(s.log, SharesOfIp(ip, s.addressSince)))
    && (forall hour :: Used(s.pool.hours, hour) == Sum(s.log, SharesOfHour(hour, HourSince(s, hour))))
  }

  /** Every counter equals what its tickets added since it was last started again. */
  ghost predicate Balanced(s: System)
  {
    Past(s) && DailyBalanced(s) && HourlyBalanced(s)
  }

  lemma NothingSince(s: System, f: Ticket -> int)
    requires Past(s)
    ensures (forall t :: t in s.log ==> f(t) == 0) ==> Sum(s.log, f) == 0
  {
    if forall t :: t in s.log ==> f(t) == 0 { SumZero(s.log, f); }
  }

  lemma ResetUse(p: Pool, now: Clock, ip: string)
    ensures UseOf(Reset(p, now), ip).daily == if DayOver(p, now) then 0 else UseOf(p, ip).daily
    ensures UseOf(Reset(p, now), ip).hourly == if DayOver(p, now) || HourOver(p, now) then 0 else UseOf(p, ip).hourly
  {
  }

  lemma ResetHour(p: Pool, now: Clock, hour: string)
    ensures Used(Reset(p, now).hours, hour) ==
      if HourOver(p, now) && hour != now.hourKey then 0 else Used(p.hours, hour)
  {
  }

  lemma ResetKeepsDaily(s: System, now: Clock)
    requires Past(s) && DailyBalanced(s)
    ensures DailyBalanced(Noted(s, now).(pool := Reset(s.pool, now)))
  {
    var r := Noted(s, now).(pool := Reset(s.pool, now));
    NothingSince(s, AllShares(s.tick));
    forall ip | ip != "" ensures UseOf(r.pool, ip).daily == Sum(r.log, SharesOfIp(ip, r.daySince)) {
      ResetUse(s.pool, now, ip);
      NothingSince(s, SharesOfIp(ip, s.tick));
    }
    forall model | model != "" ensures Used(r.pool.models, model) == Sum(r.log, SharesOfModel(model, r.daySince)) {
      NothingSince(s, SharesOfModel(model, s.tick));
    }
  }

  lemma ResetKeepsHourly(s: System, now: Clock)
    requires Past(s) && HourlyBalanced(s)
    ensures HourlyBalanced(Noted(s, now).(pool := Reset(s.pool, now)))
  {
    var r := Noted(s, now).(pool := Reset(s.pool, now));
    forall ip | ip != "" ensures UseOf(r.pool, ip).hourly == Sum(r.log, SharesOfIp(ip, r.addressSince)) {
      ResetUse(s.pool, now, ip);
      NothingSince(s, SharesOfIp(ip, s.tick));
    }
    forall hour ensures Used(r.pool.hours, hour) == Sum(r.log, SharesOfHour(hour, HourSince(r, hour))) {
      ResetHour(s.pool, now, hour);
      NothingSince(s, SharesOfHour(hour, s.tick));
    }
  }

  lemma ResetKeepsBalance(s: System, now: Clock)
    requires Balanced(s)
    ensures Balanced(Noted(s, now).(pool := Reset(s.pool, now)))
  {
    ResetKeepsDaily(s, now);
    ResetKeepsHourly(s, now);
  }

  lemma ChargedLayers(p: Pool, ip: string, model: string, tokens: int, hourKey: string)
    ensures
      var q := Charged(p, ip, model, tokens, hourKey);
      && (forall x :: UseOf(q, x).daily == UseOf(p, x).daily + if x == ip && ip != "" then tokens else 0)
      && (forall h :: Used(q.hours, h) == Used(p.hours, h) + if h == hourKey then tokens else 0)
      && (forall m :: Used(q.models, m) == Used(p.models, m) + if m == model && model != "" then tokens else 0)
  {
  }

  /** The change one ticket makes to each sum is the change made to each counter. */
  ghost predicate SumsMove(s: System, log: seq<Ticket>, ip: string, model: string, hour: string, amount: int)
  {
    && Sum(log, AllShares(s.daySince)) == Sum(s.log, AllShares(s.daySince)) + amount
    && (forall x, since | since in {s.daySince, s.addressSince} ::
          Sum(log, SharesOfIp(x, since)) == Sum(s.log, SharesOfIp(x, since)) + if x == ip then amount else 0)
    && (forall m :: Sum(log, SharesOfModel(m, s.daySince)) ==
         Sum(s.log, SharesOfModel(m, s.daySince)) + if m == model then amount else 0)
    && (forall h :: Sum(log, SharesOfHour(h, HourSince(s, h))) ==
         Sum(s.log, SharesOfHour(h, HourSince(s, h))) + if h == hour then amount else 0)
  }

  lemma MovedKeepsDaily(s: System, log: seq<Ticket>, ip: string, model: string, hour: string, amount: int)
    requires DailyBalanced(s) && SumsMove(s, log, ip, model, hour, amount)
    ensures DailyBalanced(s.(pool := Charged(s.pool, ip, model, amount, hour), log := log, tick := s.tick + 1))
  {
    ChargedLayers(s.pool, ip, model, amount, hour);
  }

  lemma MovedKeepsHourly(s: System, log: seq<Ticket>, ip: string, model: string, hour: string, amount: int)
    requires HourlyBalanced(s) && SumsMove(s, log, ip, model, hour, amount)
    ensures HourlyBalanced(s.(pool := Charged(s.pool, ip, model, amount, hour), log := log, tick := s.tick + 1))
  {
    ChargedLayers(s.pool, ip, model, amount, hour);
  }

  lemma MovedKeepsBalance(s: System, log: seq<Ticket>, ip: string, model: string, hour: string, amount: int)
    requires Balanced(s) && SumsMove(s, log, ip, model, hour, amount) && Past(s.(log := log, tick := s.tick + 1))
    ensures Balanced(s.(pool := Charged(s.pool, ip, model, amount, hour), log := log, tick := s.tick + 1))
  {
    MovedKeepsDaily(s, log, ip, model, hour, amount);
    MovedKeepsHourly(s, log, ip, model, hour, amount);
  }

  lemma GrantMoves(s: System, t: Ticket)
    requires Past(s) && t.settled.None? && t.at == s.tick
    ensures SumsMove(s, s.log + [t], t.ip, t.model, t.hour, t.reserved)
  {
    SumMore(s.log, t, AllShares(s.daySince));
    forall x, since | since in {s.daySince, s.addressSince}
      ensures Sum(s.log + [t], SharesOfIp(x, since)) ==
        Sum(s.log, SharesOfIp(x, since)) + if x == t.ip then t.reserved else 0
    {
      SumMore(s.log, t, SharesOfIp(x, since));
      NewShare(t, since);
    }
    forall m
      ensures Sum(s.log + [t], SharesOfModel(m, s.daySince)) ==
        Sum(s.log, SharesOfModel(m, s.daySince)) + if m == t.model then t.reserved else 0
    {
      SumMore(s.log, t, SharesOfModel(m, s.daySince));
      NewShare(t, s.daySince);
    }
    forall h
      ensures Sum(s.log + [t], SharesOfHour(h, HourSince(s, h))) ==
        Sum(s.log, SharesOfHour(h, HourSince(s, h))) + if h == t.hour then t.reserved else 0
    {
      SumMore(s.log, t, SharesOfHour(h, HourSince(s, h)));
      assert HourSince(s, h) <= s.tick;
    }
  }

  lemma NewShare(t: Ticket, since: nat)
    requires t.settled.None? && t.at >= since
    ensures Share(t, since) == t.reserved
  {
  }

  /** The tickets once ticket i is settled. */
  function SettledLog(s: System, i: nat, actual: nat, hour: string): seq<Ticket>
    requires i < |s.log|
  {
    s.log[i := s.log[i].(settled := Some(Settlement(actual, hour, s.tick)))]
  }

  lemma SettleMoves(s: System, i: nat, actual: nat, hour: string)
    requires Past(s) && Pending(s, i)
    ensures SumsMove(s, SettledLog(s, i, actual, hour), s.log[i].ip, s.log[i].model, hour, actual - s.log[i].reserved)
  {
    var t := s.log[i];
    var done := t.(settled := Some(Settlement(actual, hour, s.tick)));
    var log, diff := s.log[i := done], actual - t.reserved;
    SumUpdate(s.log, i, done, AllShares(s.daySince));
    forall x, since | since in {s.daySince, s.addressSince}
      ensures Sum(log, SharesOfIp(x, since)) == Sum(s.log, SharesOfIp(x, since)) + if x == t.ip then diff else 0
    {
      SumUpdate(s.log, i, done, SharesOfIp(x, since));
    }
    forall m
      ensures Sum(log, SharesOfModel(m, s.daySince)) ==
        Sum(s.log, SharesOfModel(m, s.daySince)) + if m == t.model then diff else 0
    {
      SumUpdate(s.log, i, done, SharesOfModel(m, s.daySince));
    }
    forall h
      ensures Sum(log, SharesOfHour(h, HourSince(s, h))) ==
        Sum(s.log, SharesOfHour(h, HourSince(s, h))) + if h == hour then diff else 0
    {
      SumUpdate(s.log, i, done, SharesOfHour(h, HourSince(s, h)));
    }
  }

  lemma TouchedSame(p: Pool, ip: string, why: Reason, x: string)
    ensures UseOf(Touched(p, ip, why), x) == UseOf(p, x)
  {
  }

  /** Time moves on: what lay in the past still does. */
  lemma PastMore(s: System, log: seq<Ticket>)
    requires Past(s)
    requires forall t :: t in log ==>
      t in s.log || (t.at <= s.tick && (t.settled.Some? ==> t.settled.value.at <= s.tick))
    ensures Past(s.(log := log, tick := s.tick + 1))
  {
  }

  /** A grant, once the due resets are done. */
  lemma GrantKeepsBalance(s: System, t: Ticket)
    requires Balanced(s) && t.settled.None? && t.at == s.tick
    ensures Balanced(s.(
      pool := Charged(s.pool, t.ip, t.model, t.reserved, t.hour), log := s.log + [t], tick := s.tick + 1))
  {
    GrantMoves(s, t);
    PastMore(s, s.log + [t]);
    MovedKeepsBalance(s, s.log + [t], t.ip, t.model, t.hour, t.reserved);
  }

  lemma RefusalKeepsBalance(s: System, ip: string, why: Reason)
    requires Balanced(s)
    ensures Balanced(s.(pool := Touched(s.pool, ip, why), tick := s.tick + 1))
  {
    forall x ensures UseOf(Touched(s.pool, ip, why), x) == UseOf(s.pool, x) { TouchedSame(s.pool, ip, why, x); }
    PastMore(s, s.log);
  }

  lemma EnterKeepsBalance(s: System, ip: string, model: string, tokens: nat, now: Clock)
    requires Balanced(s)
    ensures Balanced(Step(s, Enter(ip, model, tokens, now)))
  {
    var r := Noted(s, now).(pool := Reset(s.pool, now));
    ResetKeepsBalance(s, now);
    match Refusal(r.pool, ip, model, tokens, now.hourKey)
    case None => GrantKeepsBalance(r, Ticket(ip, model, tokens, now.hourKey, s.tick, None));
    case Some(why) => RefusalKeepsBalance(r, ip, why);
  }

  lemma SettledPast(s: System, i: nat, actual: nat, hour: string)
    requires Past(s) && Pending(s, i)
    ensures Past(s.(log := SettledLog(s, i, actual, hour), tick := s.tick + 1))
  {
    PastMore(s, SettledLog(s, i, actual, hour));
  }

  /** The state once ticket i is settled, the due resets being done. */
  function SettledState(s: System, i: nat, actual: nat, hour: string): System
    requires i < |s.log|
  {
    s.(pool := Charged(s.pool, s.log[i].ip, s.log[i].model, actual - s.log[i].reserved, hour),
       log := SettledLog(s, i, actual, hour), tick := s.tick + 1)
  }

  lemma SettleKeepsDaily(s: System, i: nat, actual: nat, hour: string)
    requires Past(s) && DailyBalanced(s) && Pending(s, i)
    ensures DailyBalanced(SettledState(s, i, actual, hour))
  {
    SettleMoves(s, i, actual, hour);
    MovedKeepsDaily(s, SettledLog(s, i, actual, hour), s.log[i].ip, s.log[i].model, hour, actual - s.log[i].reserved);
  }

  lemma SettleKeepsHourly(s: System, i: nat, actual: nat, hour: string)
    requires Past(s) && HourlyBalanced(s) && Pending(s, i)
    ensures HourlyBalanced(SettledState(s, i, actual, hour))
  {
    SettleMoves(s, i, actual, hour);
    MovedKeepsHourly(s, SettledLog(s, i, actual, hour), s.log[i].ip, s.log[i].model, hour, actual - s.log[i].reserved);
  }

  lemma SettleKeepsBalance(s: System, i: nat, actual: nat, hour: string)
    requires Balanced(s) && Pending(s, i)
    ensures Balanced(SettledState(s, i, actual, hour))
  {
    SettleKeepsDaily(s, i, actual, hour);
    SettleKeepsHourly(s, i, actual, hour);
    SettledPast(s, i, actual, hour);
  }

  lemma SameChargeKeepsBalance(s: System, log: seq<Ticket>, ip: string, model: string, hour: string)
    requires Balanced(s) && SumsMove(s, log, ip, model, hour, 0)
    ensures DailyBalanced(s.(log := log)) && HourlyBalanced(s.(log := log))
  {
  }

  lemma LeaveAtEstimate(s: System, i: nat, now: Clock)
    requires Balanced(s) && Pending(s, i) && s.log[i].reserved >= 0
    ensures Balanced(Step(s, Leave(i, s.log[i].reserved, now)))
  {
    var t := s.log[i];
    SettleMoves(s, i, t.reserved, now.hourKey);
    SameChargeKeepsBalance(s, SettledLog(s, i, t.reserved, now.hourKey), t.ip, t.model, now.hourKey);
    SettledPast(s, i, t.reserved, now.hourKey);
  }

  lemma LeaveElsewhere(s: System, i: nat, actual: nat, now: Clock)
    requires Balanced(s) && Pending(s, i) && actual != s.log[i].reserved
    ensures Balanced(Step(s, Leave(i, actual, now)))
  {
    ResetKeepsBalance(s, now);
    SettleKeepsBalance(Noted(s, now).(pool := Reset(s.pool, now)), i, actual, now.hourKey);
  }

  lemma LeaveKeepsBalance(s: System, i: nat, actual: nat, now: Clock)
    requires Balanced(s) && Pending(s, i)
    ensures Balanced(Step(s, Leave(i, actual, now)))
  {
    if actual == s.log[i].reserved { LeaveAtEstimate(s, i, now); } else { LeaveElsewhere(s, i, actual, now); }
  }

  lemma StepKeepsBalance(s: System, e: Event)
    requires Balanced(s)
    ensures Balanced(Step(s, e))
  {
    match e
    case Enter(ip, model, tokens, now) => EnterKeepsBalance(s, ip, model, tokens, now);
    case Leave(i, actual, now) => if Pending(s, i) { LeaveKeepsBalance(s, i, actual, now); }
    case Tick(now) =>
      ResetKeepsBalance(s, now);
      PastMore(Noted(s, now).(pool := Reset(s.pool, now)), s.log);
  }

  /**
   In every interleaving of requests and at any clock readings, each counter is what
   the tickets added since it was last started again: the reservations made since,
   and for every request settled since, the difference to its reservation, also when
   the reservation was made before the reset.
   */
  lemma {:induction false} CountersAddUp(limits: Limits, start: Clock, es: seq<Event>)
    ensures Balanced(Run(Opening(limits, start), es))
  {
    if es != [] {
      CountersAddUp(limits, start, es[..|es| - 1]);
      StepKeepsBalance(Run(Opening(limits, start), es[..|es| - 1]), es[|es| - 1]);
    }
  }

  /** All clock readings of the run fall on the day of the opening. */
  predicate OneDay(start: Clock, es: seq<Event>)
  {
    forall e :: e in es ==> e.now.seconds - start.seconds < 86400 && e.now.dayOfMonth == start.dayOfMonth
  }

  lemma {:induction false} NoDailyReset(limits: Limits, start: Clock, es: seq<Event>)
    requires OneDay(start, es)
    ensures Run(Opening(limits, start), es).daySince == 0 && Run(Opening(limits, start), es).pool.lastDaily == start
  {
    if es != [] {
      var n := |es| - 1;
      assert forall e :: e in es[..n] ==> e in es;
      NoDailyReset(limits, start, es[..n]);
      assert es[n] in es;
      SameDayStep(Run(Opening(limits, start), es[..n]), es[n]);
    }
  }

  lemma SameDayStep(s: System, e: Event)
    requires !DayOver(s.pool, e.now)
    ensures Step(s, e).daySince == s.daySince && Step(s, e).pool.lastDaily == s.pool.lastDaily
  {
  }

  /** While the day lasts that is the open reservations plus what the finished requests were settled at. */
  lemma DayIsCharges(limits: Limits, start: Clock, es: seq<Event>)
    requires OneDay(start, es)
    ensures Run(Opening(limits, start), es).pool.global == Sum(Run(Opening(limits, start), es).log, Charge)
  {
    CountersAddUp(limits, start, es);
    NoDailyReset(limits, start, es);
    SumSame(Run(Opening(limits, start), es).log, AllShares(0), Charge);
  }

  // ---------------------------------------------------------------------- limits

  /** No layer is above its limit by more than what requests used beyond their reservations. */
  ghost predicate Bounded(p: Pool, limits: Limits, over: int)
  {
    && p.limits == limits
    && (limits.globalDaily > 0 ==> p.global <= limits.globalDaily + over)
    && (limits.ipDaily > 0 ==> forall ip :: ip != "" ==> UseOf(p, ip).daily <= limits.ipDaily + over)
    && (limits.hourly > 0 ==> forall h :: Used(p.hours, h) <= limits.hourly + over)
    && (forall m :: m != "" && m in limits.models ==> Used(p.models, m) <= limits.models[m] + over)
  }

  lemma ResetBounded(p: Pool, limits: Limits, over: nat, now: Clock)
    requires Bounded(p, limits, over) && ModelLimitsNonNegative(limits)
    ensures Bounded(Reset(p, now), limits, over)
  {
    var q := Reset(p, now);
    forall ip ensures UseOf(q, ip).daily == UseOf(p, ip).daily || UseOf(q, ip).daily == 0 {
    }
    forall h ensures Used(q.hours, h) == Used(p.hours, h) || Used(q.hours, h) == 0 {
    }
  }

  lemma GrantBounded(p: Pool, limits: Limits, over: nat, ip: string, model: string, tokens: nat, hourKey: string)
    requires Bounded(p, limits, over) && Refusal(p, ip, model, tokens, hourKey).None?
    ensures Bounded(Charged(p, ip, model, tokens, hourKey), limits, over)
  {
    var q := Charged(p, ip, model, tokens, hourKey);
    ChargedLayers(p, ip, model, tokens, hourKey);
    assert limits.ipDaily > 0 && ip != "" ==> UseOf(p, ip).daily + tokens <= limits.ipDaily;
  }

  lemma SettleBounded(p: Pool, limits: Limits, over: nat, ip: string, model: string, diff: int, hourKey: string)
    requires Bounded(p, limits, over)
    ensures Bounded(Charged(p, ip, model, diff, hourKey), limits, over + if diff > 0 then diff else 0)
  {
    ChargedLayers(p, ip, model, diff, hourKey);
  }

  lemma {:induction false} OverrunNonNegative(log: seq<Ticket>)
    ensures Sum(log, Overrun) >= 0
  {
    if log != [] { OverrunNonNegative(log[..|log| - 1]); }
  }

  lemma TouchedBounded(p: Pool, limits: Limits, over: nat, ip: string, why: Reason)
    requires Bounded(p, limits, over)
    ensures Bounded(Touched(p, ip, why), limits, over)
  {
    forall x ensures UseOf(Touched(p, ip, why), x) == UseOf(p, x) {
    }
  }

  predicate ModelLimitsNonNegative(limits: Limits)
  {
    forall m :: m in limits.models ==> limits.models[m] >= 0
  }

  lemma EnterBounded(s: System, limits: Limits, ip: string, model: string, tokens: nat, now: Clock)
    requires Bounded(s.pool, limits, Sum(s.log, Overrun)) && ModelLimitsNonNegative(limits)
    ensures Bounded(Step(s, Enter(ip, model, tokens, now)).pool, limits,
      Sum(Step(s, Enter(ip, model, tokens, now)).log, Overrun))
  {
    OverrunNonNegative(s.log);
    var over := Sum(s.log, Overrun);
    var q := Reset(s.pool, now);
    ResetBounded(s.pool, limits, over, now);
    match Refusal(q, ip, model, tokens, now.hourKey)
    case None =>
      GrantBounded(q, limits, over, ip, model, tokens, now.hourKey);
      SumMore(s.log, Ticket(ip, model, tokens, now.hourKey, s.tick, None), Overrun);
    case Some(why) => TouchedBounded(q, limits, over, ip, why);
  }

  lemma LeaveBounded(s: System, limits: Limits, i: nat, actual: nat, now: Clock)
    requires Bounded(s.pool, limits, Sum(s.log, Overrun)) && ModelLimitsNonNegative(limits) && Pending(s, i)
    ensures Bounded(Step(s, Leave(i, actual, now)).pool, limits, Sum(Step(s, Leave(i, actual, now)).log, Overrun))
  {
    var t := s.log[i];
    var done := t.(settled := Some(Settlement(actual, now.hourKey, s.tick)));
    OverrunNonNegative(s.log);
    SumUpdate(s.log, i, done, Overrun);
    AdjustBounded(s.pool, limits, Sum(s.log, Overrun), t, actual, now);
  }

  lemma AdjustBounded(p: Pool, limits: Limits, over: nat, t: Ticket, actual: nat, now: Clock)
    requires Bounded(p, limits, over) && ModelLimitsNonNegative(limits)
    ensures Bounded(Adjusted(p, t.ip, t.model, t.reserved, actual, now), limits,
      over + if actual > t.reserved then actual - t.reserved else 0)
  {
    if actual != t.reserved {
      ResetBounded(p, limits, over, now);
      SettleBounded(Reset(p, now), limits, over, t.ip, t.model, actual - t.reserved, now.hourKey);
    }
  }

  lemma StepBounded(s: System, limits: Limits, e: Event)
    requires Bounded(s.pool, limits, Sum(s.log, Overrun)) && ModelLimitsNonNegative(limits)
    ensures Bounded(Step(s, e).pool, limits, Sum(Step(s, e).log, Overrun))
  {
    match e
    case Enter(ip, model, tokens, now) => EnterBounded(s, limits, ip, model, tokens, now);
    case Leave(i, actual, now) => if Pending(s, i) { LeaveBounded(s, limits, i, actual, now); }
    case Tick(now) =>
      OverrunNonNegative(s.log);
      ResetBounded(s.pool, limits, Sum(s.log, Overrun), now);
  }

  /** Over every run and every clock, a limit is passed by no more than the overruns add up to. */
  lemma {:induction false} LimitsHold(limits: Limits, start: Clock, es: seq<Event>)
    requires ModelLimitsNonNegative(limits)
    ensures
      var s := Run(Opening(limits, start), es);
      Bounded(s.pool, limits, Sum(s.log, Overrun))
  {
    if es != [] {
      var n := |es| - 1;
      LimitsHold(limits, start, es[..n]);
      StepBounded(Run(Opening(limits, start), es[..n]), limits, es[n]);
    }
  }

  // ------------------------------------------------------- one request, two clocks

  /** The counters of a granted request, reserved at one clock reading and settled at another. */
  function Settled(p: Pool, ip: string, model: string, reserved: int, actual: int, first: Clock, last: Clock): Pool
  {
    Adjusted(Reserved(p, ip, model, reserved, first), ip, model, reserved, actual, last)
  }

  /**
   The hour a request is reported in ends up with its actual amount exactly when it
   was settled under the same hour key, or at its estimate, or the key was dropped in
   between and there was nothing to report.
   */
  lemma HourAttributionIff(p: Pool, ip: string, model: string, reserved: nat, actual: nat, first: Clock, last: Clock)
    requires reserved > 0 && Refusal(Reset(p, first), ip, model, reserved, first.hourKey).None?
    ensures
      var q := Reset(p, first);
      Used(Settled(p, ip, model, reserved, actual, first, last).hours, first.hourKey) ==
        Used(q.hours, first.hourKey) + actual <==>
        || first.hourKey == last.hourKey
        || actual == reserved
        || (HourOver(q, last) && Used(q.hours, first.hourKey) + actual == 0)
  {
    var q := Reset(p, first);
    var r := Charged(q, ip, model, reserved, first.hourKey);
    ChargedLayers(q, ip, model, reserved, first.hourKey);
    ResetHour(r, last, first.hourKey);
    ChargedLayers(Reset(r, last), ip, model, actual - reserved, last.hourKey);
  }

  /** After a daily reset a refund is charged against empty counters, which go below zero exactly when it is one. */
  lemma RefundAfterReset(p: Pool, ip: string, model: string, reserved: int, actual: int, first: Clock, last: Clock)
    requires DayOver(Reset(p, first), last) && actual != reserved
    requires Refusal(Reset(p, first), ip, model, reserved, first.hourKey).None?
    ensures Settled(p, ip, model, reserved, actual, first, last).global == actual - reserved
    ensures Settled(p, ip, model, reserved, actual, first, last).global < 0 <==> actual < reserved
  {
  }
}
