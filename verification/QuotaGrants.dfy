// When a reservation is granted and what it leaves on each counter, for the public
// key and for a guest key, in terms of clocks, limits and amounts.

module QuotaGrants {
  import opened Wrappers
  import opened Quota
  import opened GuestRuns

  // --------------------------------------------------------- the public key

  /** A new day of the month, or a day's worth of seconds, since the daily counters began. */
  predicate NewDay(p: Pool, now: Clock)
  {
    now.dayOfMonth != p.lastDaily.dayOfMonth || now.seconds >= p.lastDaily.seconds + 24 * 3600
  }

  predicate NewHour(p: Pool, now: Clock)
  {
    now.seconds >= p.lastHourly.seconds + 3600
  }

  /** What each counter stands at by this clock. */
  function GlobalNow(p: Pool, now: Clock): int
  {
    if NewDay(p, now) then 0 else p.global
  }

  function AddressNow(p: Pool, now: Clock, ip: string): int
  {
    if NewDay(p, now) || ip !in p.ips then 0 else p.ips[ip].daily
  }

  function AddressHourNow(p: Pool, now: Clock, ip: string): int
  {
    if NewDay(p, now) || NewHour(p, now) || ip !in p.ips then 0 else p.ips[ip].hourly
  }

  function ModelNow(p: Pool, now: Clock, model: string): int
  {
    if NewDay(p, now) || model !in p.models then 0 else p.models[model]
  }

  function HourNow(p: Pool, now: Clock, hour: string): int
  {
    if hour !in p.hours || (NewHour(p, now) && hour != now.hourKey) then 0 else p.hours[hour]
  }

  /** Within the limits, layer by layer; no limit, no address or no model lets everything pass. */
  predicate GlobalFits(p: Pool, tokens: int, now: Clock)
  {
    p.limits.globalDaily > 0 ==>
      GlobalNow(p, now) < p.limits.globalDaily && GlobalNow(p, now) + tokens <= p.limits.globalDaily
  }

  predicate AddressFits(p: Pool, ip: string, tokens: int, now: Clock)
  {
    p.limits.ipDaily > 0 && ip != "" ==> AddressNow(p, now, ip) + tokens <= p.limits.ipDaily
  }

  predicate HourFits(p: Pool, tokens: int, now: Clock)
  {
    p.limits.hourly > 0 ==> HourNow(p, now, now.hourKey) + tokens <= p.limits.hourly
  }

  predicate ModelFits(p: Pool, model: string, tokens: int, now: Clock)
  {
    model != "" && model in p.limits.models ==> ModelNow(p, now, model) + tokens <= p.limits.models[model]
  }

  /** Every counter stands where it stands by this clock, plus the amount on the request's own layers. */
  ghost predicate Counts(p: Pool, q: Pool, ip: string, model: string, amount: int, now: Clock)
  {
    && q.limits == p.limits
    && q.global == GlobalNow(p, now) + amount
    && (forall x :: UseOf(q, x).daily == AddressNow(p, now, x) + if x == ip && x != "" then amount else 0)
    && (forall x :: UseOf(q, x).hourly == AddressHourNow(p, now, x) + if x == ip && x != "" then amount else 0)
    && (forall h :: Used(q.hours, h) == HourNow(p, now, h) + if h == now.hourKey then amount else 0)
    && (forall m :: Used(q.models, m) == ModelNow(p, now, m) + if m == model && m != "" then amount else 0)
    && q.lastDaily == (if NewDay(p, now) then now else p.lastDaily)
    && q.lastHourly == (if NewHour(p, now) then now else p.lastHourly)
  }

  lemma ResetCounts(p: Pool, now: Clock)
    ensures Counts(p, Reset(p, now), "", "", 0, now)
  {
  }

  lemma ChargedCounts(p: Pool, q: Pool, ip: string, model: string, amount: int, now: Clock)
    requires Counts(p, q, "", "", 0, now)
    ensures Counts(p, Charged(q, ip, model, amount, now.hourKey), ip, model, amount, now)
  {
    ChargedAddresses(q, ip, model, amount, now.hourKey);
    ChargedTotals(q, ip, model, amount, now.hourKey);
  }

  lemma ChargedAddresses(q: Pool, ip: string, model: string, amount: int, hour: string)
    ensures
      var r := Charged(q, ip, model, amount, hour);
      && (forall x :: UseOf(r, x).daily == UseOf(q, x).daily + if x == ip && x != "" then amount else 0)
      && (forall x :: UseOf(r, x).hourly == UseOf(q, x).hourly + if x == ip && x != "" then amount else 0)
  {
  }

  lemma ChargedTotals(q: Pool, ip: string, model: string, amount: int, hour: string)
    ensures
      var r := Charged(q, ip, model, amount, hour);
      && r.limits == q.limits && r.lastDaily == q.lastDaily && r.lastHourly == q.lastHourly
      && r.global == q.global + amount
      && (forall h :: Used(r.hours, h) == Used(q.hours, h) + if h == hour then amount else 0)
      && (forall m :: Used(r.models, m) == Used(q.models, m) + if m == model && m != "" then amount else 0)
  {
  }

  lemma TouchedCounts(p: Pool, q: Pool, ip: string, why: Reason, now: Clock)
    requires Counts(p, q, "", "", 0, now)
    ensures Counts(p, Touched(q, ip, why), "", "", 0, now)
  {
    forall x ensures UseOf(Touched(q, ip, why), x) == UseOf(q, x) {
    }
  }

  /**
   A reservation within all limits is granted, and only such a one; the reason of a
   refusal is the first layer it breaks.
   */
  lemma GrantedIff(p: Pool, ip: string, model: string, tokens: int, now: Clock)
    ensures
      var why := Refusal(Reset(p, now), ip, model, tokens, now.hourKey);
      && (why == None <==>
           GlobalFits(p, tokens, now) && AddressFits(p, ip, tokens, now) && HourFits(p, tokens, now)
           && ModelFits(p, model, tokens, now))
      && (why.Some? ==>
           match why.value
           case GlobalExhausted => p.limits.globalDaily > 0 && GlobalNow(p, now) >= p.limits.globalDaily
           case GlobalWouldExceed => !GlobalFits(p, tokens, now) && GlobalNow(p, now) < p.limits.globalDaily
           case IpExceeded => GlobalFits(p, tokens, now) && !AddressFits(p, ip, tokens, now)
           case HourlyExceeded =>
             GlobalFits(p, tokens, now) && AddressFits(p, ip, tokens, now) && !HourFits(p, tokens, now)
           case ModelExceeded =>
             GlobalFits(p, tokens, now) && AddressFits(p, ip, tokens, now) && HourFits(p, tokens, now)
             && !ModelFits(p, model, tokens, now))
  {
    ResetCounts(p, now);
  }

  /** A granted reservation counts on every layer at once, a refused one on none. */
  lemma ReservedCounts(p: Pool, ip: string, model: string, tokens: int, now: Clock)
    ensures
      var granted := GlobalFits(p, tokens, now) && AddressFits(p, ip, tokens, now) && HourFits(p, tokens, now)
                     && ModelFits(p, model, tokens, now);
      Counts(p, Reserved(p, ip, model, tokens, now), ip, model, if granted then tokens else 0, now)
  {
    GrantedIff(p, ip, model, tokens, now);
    ResetCounts(p, now);
    var q := Reset(p, now);
    match Refusal(q, ip, model, tokens, now.hourKey)
    case Some(why) => TouchedCounts(p, q, ip, why, now);
    case None => ChargedCounts(p, q, ip, model, tokens, now);
  }

  /** A settlement corrects every layer by the difference, and does nothing when there is none. */
  lemma AdjustedCounts(p: Pool, ip: string, model: string, reserved: int, actual: int, now: Clock)
    ensures actual == reserved ==> Adjusted(p, ip, model, reserved, actual, now) == p
    ensures actual != reserved ==>
      Counts(p, Adjusted(p, ip, model, reserved, actual, now), ip, model, actual - reserved, now)
  {
    ResetCounts(p, now);
    ChargedCounts(p, Reset(p, now), ip, model, actual - reserved, now);
  }

  // ------------------------------------------------------------- a guest key

  /** What a window's journal has for the key: nothing once its name has changed. */
  function WindowNow(g: Guest, w: Window, now: Stamp, key: string): int
  {
    if NameOf(g.stamp, w) != "" && NameOf(g.stamp, w) != NameOf(now, w) then 0 else Used(Journal(g, w), key)
  }

  function RequestsNow(g: Guest, now: Stamp, key: string): int
  {
    if g.stamp.minute != "" && g.stamp.minute != now.minute then 0 else Used(g.rpm, key)
  }

  /** A window without a limit lets everything pass; one with a limit, what is left of it. */
  predicate WindowFits(limit: int, used: int, tokens: int)
  {
    limit <= 0 || (used < limit && (tokens <= 0 || used + tokens <= limit))
  }

  /** A guest key's reservation is granted exactly within its own cap, both windows, and the requests of the minute. */
  lemma GuestGrantedIff(g: Guest, key: string, lim: GuestLimits, tokens: int, now: Stamp)
    ensures GuestAllowed(Rolled(g, now), key, lim, tokens) <==>
      && (lim.perRequest <= 0 || tokens <= lim.perRequest)
      && WindowFits(lim.daily, WindowNow(g, Daily, now, key), tokens)
      && WindowFits(lim.hourly, WindowNow(g, Hourly, now, key), tokens)
      && (lim.rpm <= 0 || RequestsNow(g, now, key) < lim.rpm)
  {
  }

  /**
   It then counts once among the minute's requests, and its tokens count in each window
   with a limit; a refused one counts nowhere, and other keys keep what they have.
   */
  lemma GuestReservedCounts(g: Guest, key: string, lim: GuestLimits, tokens: int, now: Stamp, k: string, w: Window)
    ensures
      var after := GuestReserved(g, key, lim, tokens, now);
      var granted := k == key && GuestAllowed(Rolled(g, now), key, lim, tokens);
      && after.stamp == now
      && Used(after.rpm, k) == RequestsNow(g, now, k) + (if granted then 1 else 0)
      && Used(Journal(after, w), k) ==
           WindowNow(g, w, now, k) + if granted && LimitOf(lim, w) > 0 && tokens > 0 then tokens else 0
  {
  }

  /** A settlement corrects both windows, never below zero, and leaves the requests alone. */
  lemma GuestAdjustedCounts(g: Guest, key: string, reserved: int, actual: int, now: Stamp, k: string, w: Window)
    ensures
      var after := GuestAdjusted(g, key, reserved, actual, now);
      if reserved <= 0 && actual <= 0 then after == g
      else
        && after.stamp == now && Used(after.rpm, k) == RequestsNow(g, now, k)
        && var used := WindowNow(g, w, now, k);
           Used(Journal(after, w), k) ==
             if k != key then used
             else if used + actual - reserved < 0 then 0
             else used + actual - reserved
  {
  }
}
