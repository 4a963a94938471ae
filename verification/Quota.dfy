// Token quotas that are reserved before a request is served and settled after
// it: the four-layer quota of the public key and the windows of a guest key.

module Quota {
  import opened Wrappers

  function Used(m: map<string, int>, k: string): int
  {
    if k in m then m[k] else 0
  }

  function Plus(m: map<string, int>, k: string, n: int): map<string, int>
  {
    m[k := Used(m, k) + n]
  }

  // ------------------------------------------------------- the public key

  /** A reading of the clock: seconds, day of the month, and the hour as a key. */
  datatype Clock = Clock(seconds: int, dayOfMonth: int, hourKey: string)

  datatype IpUse = IpUse(daily: int, hourly: int)

  /** Zero means unlimited, a model without an entry is unlimited. */
  datatype Limits = Limits(globalDaily: int, ipDaily: int, hourly: int, models: map<string, int>)

  datatype Reason = GlobalExhausted | GlobalWouldExceed | IpExceeded | HourlyExceeded | ModelExceeded

  datatype Pool = Pool(
    limits: Limits, global: int, ips: map<string, IpUse>, hours: map<string, int>, models: map<string, int>,
    lastDaily: Clock, lastHourly: Clock)

  function UseOf(p: Pool, ip: string): IpUse
  {
    if ip in p.ips then p.ips[ip] else IpUse(0, 0)
  }

  predicate DayOver(p: Pool, now: Clock)
  {
    now.seconds - p.lastDaily.seconds >= 86400 || now.dayOfMonth != p.lastDaily.dayOfMonth
  }

  predicate HourOver(p: Pool, now: Clock)
  {
    now.seconds - p.lastHourly.seconds >= 3600
  }

  /** Counters start again when their window is over. */
  function Reset(p: Pool, now: Clock): Pool
  {
    var q := if DayOver(p, now) then p.(global := 0, ips := map[], models := map[], lastDaily := now) else p;
    if HourOver(p, now)
    then q.(hours := map k | k in q.hours && k == now.hourKey :: q.hours[k],
            ips := map ip | ip in q.ips :: q.ips[ip].(hourly := 0),
            lastHourly := now)
    else q
  }

  /** Why a reservation is refused, the layers in the order they are tried. */
  function Refusal(p: Pool, ip: string, model: string, tokens: int, hourKey: string): Option<Reason>
  {
    if p.limits.globalDaily > 0 && p.limits.globalDaily - p.global <= 0 then Some(GlobalExhausted)
    else if p.limits.globalDaily > 0 && p.global + tokens > p.limits.globalDaily then Some(GlobalWouldExceed)
    else if p.limits.ipDaily > 0 && ip != "" && UseOf(p, ip).daily + tokens > p.limits.ipDaily then Some(IpExceeded)
    else if p.limits.hourly > 0 && Used(p.hours, hourKey) + tokens > p.limits.hourly then Some(HourlyExceeded)
    else if model != "" && model in p.limits.models && Used(p.models, model) + tokens > p.limits.models[model]
    then Some(ModelExceeded)
    else None
  }

  /** The same amount on every layer; negative amounts refund. */
  function Charged(p: Pool, ip: string, model: string, tokens: int, hourKey: string): Pool
  {
    p.(global := p.global + tokens,
       ips := if ip == "" then p.ips else p.ips[ip := IpUse(UseOf(p, ip).daily + tokens, UseOf(p, ip).hourly + tokens)],
       hours := Plus(p.hours, hourKey, tokens),
       models := if model == "" then p.models else Plus(p.models, model, tokens))
  }

  /** Under a per-IP limit the address has an entry, an empty one if it is new. */
  function Tracked(p: Pool, ip: string): Pool
  {
    if p.limits.ipDaily <= 0 || ip == "" then p else p.(ips := p.ips[ip := UseOf(p, ip)])
  }

  /** A refused request may still have got an empty per-IP entry. */
  function Touched(p: Pool, ip: string, why: Reason): Pool
  {
    if why.GlobalExhausted? || why.GlobalWouldExceed? then p else Tracked(p, ip)
  }

  function Reserved(p: Pool, ip: string, model: string, tokens: int, now: Clock): Pool
  {
    var q := Reset(p, now);
    match Refusal(q, ip, model, tokens, now.hourKey)
    case Some(why) => Touched(q, ip, why)
    case None => Charged(q, ip, model, tokens, now.hourKey)
  }

  function Adjusted(p: Pool, ip: string, model: string, reserved: int, actual: int, now: Clock): Pool
  {
    if actual == reserved then p
    else Charged(Reset(p, now), ip, model, actual - reserved, now.hourKey)
  }

  lemma TrackedCharge(p: Pool, ip: string, model: string, tokens: int, hourKey: string)
    ensures Charged(Tracked(p, ip), ip, model, tokens, hourKey) == Charged(p, ip, model, tokens, hourKey)
  {
    if p.limits.ipDaily > 0 && ip != "" {
      var use := IpUse(UseOf(p, ip).daily + tokens, UseOf(p, ip).hourly + tokens);
      assert p.ips[ip := UseOf(p, ip)][ip := use] == p.ips[ip := use];
    }
  }

  class PublicKeyQuota {
    const limits: Limits
    var globalUsedToday: int
    var ipUsage: map<string, IpUse>
    var hourlyUsage: map<string, int>
    var modelUsage: map<string, int>
    var lastDailyReset: Clock
    var lastHourlyReset: Clock

    function State(): Pool
      reads this
    {
      Pool(limits, globalUsedToday, ipUsage, hourlyUsage, modelUsage, lastDailyReset, lastHourlyReset)
    }

    constructor (limits: Limits, now: Clock)
      ensures State() == Pool(limits, 0, map[], map[], map[], now, now)
    {
      this.limits := limits;
      globalUsedToday, ipUsage, hourlyUsage, modelUsage := 0, map[], map[], map[];
      lastDailyReset, lastHourlyReset := now, now;
    }

    method ResetIfNeeded(now: Clock)
      modifies this
      ensures State() == Reset(old(State()), now)
    {
      if now.seconds - lastDailyReset.seconds >= 86400 || now.dayOfMonth != lastDailyReset.dayOfMonth {
        globalUsedToday, ipUsage, modelUsage, lastDailyReset := 0, map[], map[], now;
      }
      if now.seconds - lastHourlyReset.seconds >= 3600 {
        hourlyUsage := map k | k in hourlyUsage && k == now.hourKey :: hourlyUsage[k];
        ipUsage := map ip | ip in ipUsage :: ipUsage[ip].(hourly := 0);
        lastHourlyReset := now;
      }
    }

    /** Try the layers in order; the second one opens a tracker for a new address. */
    method CheckLayers(ip: string, model: string, tokens: int, hourKey: string) returns (refused: Option<Reason>)
      modifies this`ipUsage
      ensures refused == Refusal(old(State()), ip, model, tokens, hourKey)
      ensures refused.Some? ==> State() == Touched(old(State()), ip, refused.value)
      ensures refused.None? ==> State() == Tracked(old(State()), ip)
    {
      if limits.globalDaily > 0 {
        if limits.globalDaily - globalUsedToday <= 0 { return Some(GlobalExhausted); }
        if globalUsedToday + tokens > limits.globalDaily { return Some(GlobalWouldExceed); }
      }
      if limits.ipDaily > 0 && ip != "" {
        ipUsage := ipUsage[ip := UseOf(State(), ip)];
        if ipUsage[ip].daily + tokens > limits.ipDaily { return Some(IpExceeded); }
      }
      if limits.hourly > 0 && Used(hourlyUsage, hourKey) + tokens > limits.hourly {
        return Some(HourlyExceeded);
      }
      if model != "" && model in limits.models && Used(modelUsage, model) + tokens > limits.models[model] {
        return Some(ModelExceeded);
      }
      refused := None;
    }

    /** Check all layers, then deduct from all of them at once. */
    method ReserveQuota(ip: string, model: string, tokens: int, now: Clock) returns (refused: Option<Reason>)
      modifies this
      ensures State() == Reserved(old(State()), ip, model, tokens, now)
      ensures refused == Refusal(Reset(old(State()), now), ip, model, tokens, now.hourKey)
    {
      ResetIfNeeded(now);
      ghost var due := State();
      refused := CheckLayers(ip, model, tokens, now.hourKey);
      if refused.Some? { return; }
      TrackedCharge(due, ip, model, tokens, now.hourKey);
      Charge(ip, model, tokens, now.hourKey);
    }

    method AdjustQuota(ip: string, model: string, reserved: int, actual: int, now: Clock)
      modifies this
      ensures State() == Adjusted(old(State()), ip, model, reserved, actual, now)
    {
      var diff := actual - reserved;
      if diff == 0 { return; }
      ResetIfNeeded(now);
      Charge(ip, model, diff, now.hourKey);
    }

    method Charge(ip: string, model: string, tokens: int, hourKey: string)
      modifies this
      ensures State() == Charged(old(State()), ip, model, tokens, hourKey)
    {
      globalUsedToday := globalUsedToday + tokens;
      if ip != "" {
        var use := UseOf(State(), ip);
        ipUsage := ipUsage[ip := IpUse(use.daily + tokens, use.hourly + tokens)];
      }
      hourlyUsage := Plus(hourlyUsage, hourKey, tokens);
      if model != "" { modelUsage := Plus(modelUsage, model, tokens); }
    }
  }

  // --------------------------------------------------------- a guest key

  /** The current day, hour and minute as the journals name them. */
  datatype Stamp = Stamp(day: string, hour: string, minute: string)

  /** Zero or less means no limit. */
  datatype GuestLimits = GuestLimits(daily: int, hourly: int, perRequest: int, rpm: int)

  datatype Guest = Guest(usage: map<string, int>, hourly: map<string, int>, rpm: map<string, int>, stamp: Stamp)

  /** A stale window starts empty, a missing stamp keeps what is there. */
  function Rolled(g: Guest, now: Stamp): Guest
  {
    Guest(
      if g.stamp.day != now.day && g.stamp.day != "" then map[] else g.usage,
      if g.stamp.hour != now.hour && g.stamp.hour != "" then map[] else g.hourly,
      if g.stamp.minute != now.minute && g.stamp.minute != "" then map[] else g.rpm,
      now)
  }

  predicate Fits(limit: int, used: int, tokens: int)
  {
    limit > 0 ==> limit - used > 0 && (tokens > 0 ==> tokens <= limit - used)
  }

  predicate GuestAllowed(g: Guest, key: string, lim: GuestLimits, tokens: int)
  {
    && (lim.perRequest > 0 ==> tokens <= lim.perRequest)
    && Fits(lim.daily, Used(g.usage, key), tokens)
    && Fits(lim.hourly, Used(g.hourly, key), tokens)
    && (lim.rpm > 0 ==> Used(g.rpm, key) < lim.rpm)
  }

  /** Only windows with a limit are charged; the request count always is. */
  function GuestReserved(g: Guest, key: string, lim: GuestLimits, tokens: int, now: Stamp): Guest
  {
    var h := Rolled(g, now);
    if !GuestAllowed(h, key, lim, tokens) then h
    else h.(usage := if lim.daily > 0 && tokens > 0 then Plus(h.usage, key, tokens) else h.usage,
            hourly := if lim.hourly > 0 && tokens > 0 then Plus(h.hourly, key, tokens) else h.hourly,
            rpm := Plus(h.rpm, key, 1))
  }

  function Floored(n: int): int
  {
    if n < 0 then 0 else n
  }

  function GuestAdjusted(g: Guest, key: string, reserved: int, actual: int, now: Stamp): Guest
  {
    if reserved <= 0 && actual <= 0 then g
    else
      var h := Rolled(g, now);
      h.(usage := h.usage[key := Floored(Used(h.usage, key) + actual - reserved)],
         hourly := h.hourly[key := Floored(Used(h.hourly, key) + actual - reserved)])
  }

  class GuestKeyUsage {
    var usage: map<string, int>
    var hourly: map<string, int>
    var rpm: map<string, int>
    var stamp: Stamp

    function State(): Guest
      reads this
    {
      Guest(usage, hourly, rpm, stamp)
    }

    constructor ()
      ensures State() == Guest(map[], map[], map[], Stamp("", "", ""))
    {
      usage, hourly, rpm, stamp := map[], map[], map[], Stamp("", "", "");
    }

    method EnsureJournals(now: Stamp)
      modifies this
      ensures State() == Rolled(old(State()), now)
    {
      var initDay, initHour, initMinute := stamp.day == "", stamp.hour == "", stamp.minute == "";
      if stamp.day != now.day && !initDay { usage := map[]; }
      if stamp.hour != now.hour && !initHour { hourly := map[]; }
      if stamp.minute != now.minute && !initMinute { rpm := map[]; }
      stamp := now;
    }

    method CheckAndReserveFull(key: string, lim: GuestLimits, tokens: int, now: Stamp) returns (allowed: bool)
      modifies this
      ensures allowed <==> GuestAllowed(Rolled(old(State()), now), key, lim, tokens)
      ensures State() == GuestReserved(old(State()), key, lim, tokens, now)
    {
      EnsureJournals(now);
      if lim.perRequest > 0 && tokens > lim.perRequest { return false; }
      if lim.daily > 0 {
        var remaining := lim.daily - Used(usage, key);
        if remaining <= 0 || (tokens > 0 && tokens > remaining) { return false; }
      }
      if lim.hourly > 0 {
        var remaining := lim.hourly - Used(hourly, key);
        if remaining <= 0 || (tokens > 0 && tokens > remaining) { return false; }
      }
      if lim.rpm > 0 && Used(rpm, key) >= lim.rpm { return false; }
      if lim.daily > 0 && tokens > 0 { usage := Plus(usage, key, tokens); }
      if lim.hourly > 0 && tokens > 0 { hourly := Plus(hourly, key, tokens); }
      rpm := Plus(rpm, key, 1);
      allowed := true;
    }

    method Adjust(key: string, reserved: int, actual: int, now: Stamp)
      modifies this
      ensures State() == GuestAdjusted(old(State()), key, reserved, actual, now)
    {
      if reserved <= 0 && actual <= 0 { return; }
      EnsureJournals(now);
      var diff := actual - reserved;
      var day := Used(usage, key) + diff;
      if day < 0 { day := 0; }
      usage := usage[key := day];
      var hour := Used(hourly, key) + diff;
      if hour < 0 { hour := 0; }
      hourly := hourly[key := hour];
    }
  }
}
