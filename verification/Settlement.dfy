// One chat completion on this node: reserve, try the candidates in order,
// settle what was reserved. Reservations are settled on every way out.

module Settlement {
  import opened Wrappers
  import opened Quota
  import QuotaRuns
  import GuestRuns

  datatype UpstreamError = UpstreamError(rateLimited: bool)

  datatype Usage = Usage(prompt: int, completion: int)

  /**
   A provider to try: what it would write to the client and how its stream would
   end, or what it would answer. writes lists the bytes the client took, write by
   write. Rate limits are recognised in the text of an error, and the error for a
   missing key quotes the provider's name; nameReadsLimited says it would match.
   */
  datatype Candidate = Candidate(
    hasKey: bool, nameReadsLimited: bool, writes: seq<nat>, streamError: Option<UpstreamError>,
    answer: Result<Option<Usage>, UpstreamError>)

  datatype GuestKey = GuestKey(key: string, limits: GuestLimits)

  /** publicIp is set for a direct request on the public key, guest for a verified guest key. */
  datatype Request = Request(
    model: string, maxTokens: Option<int>, stream: bool, canFlush: bool,
    publicIp: Option<string>, guest: Option<GuestKey>, poolsOk: bool, candidates: seq<Candidate>)

  /** When the request is reserved and when it is settled. */
  datatype Times = Times(first: Clock, last: Clock, guestFirst: Stamp, guestLast: Stamp)

  datatype Reply =
    | PublicRefused(reason: Reason)
    | GuestRefused
    | PoolsExhausted
    | NoProvider
    | Streamed
    | StreamBroken
    | Answered(usage: Option<Usage>)
    | RateLimited
    | AllFailed

  const NOT_STREAMABLE: UpstreamError := UpstreamError(false)

  function Estimate(r: Request): int
  {
    if r.maxTokens.Some? && r.maxTokens.value > 0 then r.maxTokens.value else 4096
  }

  // ------------------------------------------------------------- candidates

  predicate BytesSent(r: Request, c: Candidate)
  {
    r.stream && c.hasKey && r.canFlush && exists i :: 0 <= i < |c.writes| && c.writes[i] > 0
  }

  /** The error a candidate ends with, if it does. */
  function ErrorOf(r: Request, c: Candidate): Option<UpstreamError>
  {
    if !c.hasKey then Some(UpstreamError(c.nameReadsLimited))
    else if r.stream then (if r.canFlush then c.streamError else Some(NOT_STREAMABLE))
    else match c.answer case Success(_) => None case Failure(e) => Some(e)
  }

  /** The loop stops at a candidate that succeeds, or that has already reached the client. */
  predicate Finishes(r: Request, c: Candidate)
  {
    ErrorOf(r, c).None? || BytesSent(r, c)
  }

  function Tokens(u: Option<Usage>): int
  {
    match u
    case None => 0
    case Some(Usage(prompt, completion)) => prompt + completion
  }

  /** What a candidate that ends the loop is charged. */
  function ChargeFor(r: Request, c: Candidate): int
  {
    if r.stream then Estimate(r) else if c.answer.Success? then Tokens(c.answer.value) else 0
  }

  function ReplyFor(r: Request, c: Candidate): Reply
    requires Finishes(r, c)
  {
    if r.stream then (if ErrorOf(r, c).None? then Streamed else StreamBroken) else Answered(c.answer.value)
  }

  /** Stream one candidate to the client; reports whether any byte went out. */
  method StreamProxy(r: Request, c: Candidate) returns (dataSent: bool, err: Option<UpstreamError>)
    requires r.stream && c.hasKey
    ensures dataSent <==> BytesSent(r, c)
    ensures err == ErrorOf(r, c)
  {
    if !r.canFlush { return false, Some(NOT_STREAMABLE); }
    var bytes := 0;
    for i := 0 to |c.writes|
      invariant bytes >= 0
      invariant bytes > 0 <==> exists k :: 0 <= k < i && c.writes[k] > 0
    {
      bytes := bytes + c.writes[i];
    }
    return bytes > 0, c.streamError;
  }

  /**
   The candidate loop. The last candidate tried is the first one that finishes;
   before it none put a byte on the wire.
   */
  method TryCandidates(r: Request) returns (reply: Reply, actual: int, tried: nat)
    requires r.candidates != []
    ensures 1 <= tried <= |r.candidates|
    ensures forall k :: 0 <= k < tried - 1 ==> !Finishes(r, r.candidates[k]) && !BytesSent(r, r.candidates[k])
    ensures Finishes(r, r.candidates[tried - 1]) ==>
      reply == ReplyFor(r, r.candidates[tried - 1]) && actual == ChargeFor(r, r.candidates[tried - 1])
    ensures !Finishes(r, r.candidates[tried - 1]) ==>
      && tried == |r.candidates| && actual == 0
      && reply == if ErrorOf(r, r.candidates[tried - 1]).value.rateLimited then RateLimited else AllFailed
  {
    actual := 0;
    var lastErr: Option<UpstreamError> := None;
    for i := 0 to |r.candidates|
      invariant forall k :: 0 <= k < i ==> !Finishes(r, r.candidates[k])
      invariant i > 0 ==> lastErr == ErrorOf(r, r.candidates[i - 1])
      invariant actual == 0
    {
      var c := r.candidates[i];
      if !c.hasKey {
        lastErr := Some(UpstreamError(c.nameReadsLimited));
        continue;
      }
      if r.stream {
        var dataSent, err := StreamProxy(r, c);
        if err.None? {
          return Streamed, Estimate(r), i + 1;
        }
        if dataSent {
          return StreamBroken, Estimate(r), i + 1;
        }
        lastErr := err;
      } else {
        match c.answer {
          case Failure(e) => lastErr := Some(e);
          case Success(usage) =>
            var promptTok, compTok := 0, 0;
            if usage.Some? { promptTok, compTok := usage.value.prompt, usage.value.completion; }
            return Answered(usage), promptTok + compTok, i + 1;
        }
      }
    }
    tried := |r.candidates|;
    reply := if lastErr.Some? && lastErr.value.rateLimited then RateLimited else AllFailed;
  }

  // -------------------------------------------------------------- the request

  function FirstFinish(r: Request, n: nat): nat
    requires n <= |r.candidates|
    decreases |r.candidates| - n
  {
    if n == |r.candidates| || Finishes(r, r.candidates[n]) then n else FirstFinish(r, n + 1)
  }

  lemma {:induction false} FirstFinishIs(r: Request, n: nat, i: nat)
    requires n <= i <= |r.candidates|
    requires forall k :: n <= k < i ==> !Finishes(r, r.candidates[k])
    requires i < |r.candidates| ==> Finishes(r, r.candidates[i])
    ensures FirstFinish(r, n) == i
    decreases i - n
  {
    if n < i { FirstFinishIs(r, n + 1, i); }
  }

  datatype Served = Served(reply: Reply, actual: int)

  /** What serving comes to once the reservations are made. */
  function Serve(r: Request): Served
  {
    if !r.poolsOk then Served(PoolsExhausted, 0)
    else if r.candidates == [] then Served(NoProvider, 0)
    else
      var i := FirstFinishOrEnd(r);
      if i < |r.candidates| then Served(ReplyFor(r, r.candidates[i]), ChargeFor(r, r.candidates[i]))
      else Served(if ErrorOf(r, r.candidates[i - 1]).value.rateLimited then RateLimited else AllFailed, 0)
  }

  function FirstFinishOrEnd(r: Request): (i: nat)
    ensures i <= |r.candidates|
    ensures i < |r.candidates| ==> Finishes(r, r.candidates[i])
    ensures forall k :: 0 <= k < i ==> !Finishes(r, r.candidates[k])
  {
    FirstFinishFinds(r, 0);
    FirstFinish(r, 0)
  }

  lemma {:induction false} FirstFinishFinds(r: Request, n: nat)
    requires n <= |r.candidates|
    ensures n <= FirstFinish(r, n) <= |r.candidates|
    ensures FirstFinish(r, n) < |r.candidates| ==> Finishes(r, r.candidates[FirstFinish(r, n)])
    ensures forall k :: n <= k < FirstFinish(r, n) ==> !Finishes(r, r.candidates[k])
    decreases |r.candidates| - n
  {
    if n < |r.candidates| && !Finishes(r, r.candidates[n]) { FirstFinishFinds(r, n + 1); }
  }

  function PublicRefusal(p: Pool, r: Request, t: Times): Option<Reason>
  {
    match r.publicIp
    case None => None
    case Some(ip) => Refusal(Reset(p, t.first), ip, r.model, Estimate(r), t.first.hourKey)
  }

  predicate GuestOk(g: Guest, r: Request, t: Times)
  {
    r.guest.Some? ==> GuestAllowed(Rolled(g, t.guestFirst), r.guest.value.key, r.guest.value.limits, Estimate(r))
  }

  /** Reply and charge of the whole request. */
  function Outcome(p: Pool, g: Guest, r: Request, t: Times): Served
  {
    match PublicRefusal(p, r, t)
    case Some(why) => Served(PublicRefused(why), 0)
    case None => if GuestOk(g, r, t) then Serve(r) else Served(GuestRefused, 0)
  }

  function PublicAfter(p: Pool, g: Guest, r: Request, t: Times): Pool
  {
    match r.publicIp
    case None => p
    case Some(ip) =>
      var reserved := Reserved(p, ip, r.model, Estimate(r), t.first);
      if PublicRefusal(p, r, t).Some? then reserved
      else Adjusted(reserved, ip, r.model, Estimate(r), Outcome(p, g, r, t).actual, t.last)
  }

  function GuestAfter(p: Pool, g: Guest, r: Request, t: Times): Guest
  {
    if PublicRefusal(p, r, t).Some? || r.guest.None? then g
    else
      var k := r.guest.value;
      var reserved := GuestReserved(g, k.key, k.limits, Estimate(r), t.guestFirst);
      if GuestOk(g, r, t) then GuestAdjusted(reserved, k.key, Estimate(r), Outcome(p, g, r, t).actual, t.guestLast)
      else reserved
  }

  method ServeReserved(r: Request) returns (reply: Reply, actual: int)
    ensures Served(reply, actual) == Serve(r)
  {
    if !r.poolsOk { return PoolsExhausted, 0; }
    if r.candidates == [] { return NoProvider, 0; }
    var tried;
    reply, actual, tried := TryCandidates(r);
    FirstFinishIs(r, 0, if Finishes(r, r.candidates[tried - 1]) then tried - 1 else tried);
  }

  /** The handler: each reservation that was made is settled once, whichever way the request ends. */
  method HandleChatCompletions(pq: PublicKeyQuota, gk: GuestKeyUsage, r: Request, t: Times) returns (reply: Reply)
    modifies pq, gk
    ensures reply == Outcome(old(pq.State()), old(gk.State()), r, t).reply
    ensures pq.State() == PublicAfter(old(pq.State()), old(gk.State()), r, t)
    ensures gk.State() == GuestAfter(old(pq.State()), old(gk.State()), r, t)
  {
    var pqDirect, gkSettled := false, false;
    if r.publicIp.Some? {
      var refused := pq.ReserveQuota(r.publicIp.value, r.model, Estimate(r), t.first);
      if refused.Some? { return PublicRefused(refused.value); }
      pqDirect := true;
    }
    var allowed := true;
    if r.guest.Some? {
      allowed := gk.CheckAndReserveFull(r.guest.value.key, r.guest.value.limits, Estimate(r), t.guestFirst);
      gkSettled := allowed;
    }
    var actual := 0;
    if allowed {
      reply, actual := ServeReserved(r);
    } else {
      reply := GuestRefused;
    }
    if gkSettled { gk.Adjust(r.guest.value.key, Estimate(r), actual, t.guestLast); }
    if pqDirect { pq.AdjustQuota(r.publicIp.value, r.model, Estimate(r), actual, t.last); }
  }

  // ---------------------------------------------------------------- properties

  /** The charge by the kind of ending, for every list of candidate outcomes. */
  lemma ChargeByReply(p: Pool, g: Guest, r: Request, t: Times)
    ensures
      var s := Outcome(p, g, r, t);
      s.actual == match s.reply
                  case Streamed => Estimate(r)
                  case StreamBroken => Estimate(r)
                  case Answered(usage) => Tokens(usage)
                  case _ => 0
  {
  }

  predicate WasServed(reply: Reply)
  {
    reply.Streamed? || reply.StreamBroken? || reply.Answered?
  }

  lemma EstimatePositive(r: Request)
    ensures Estimate(r) > 0
  {
  }

  /**
   A served request is free exactly when it was not streamed and the candidate that
   served it, the first that finishes, reported no tokens or no usage at all.
   */
  lemma FreeServiceIff(p: Pool, g: Guest, r: Request, t: Times)
    requires WasServed(Outcome(p, g, r, t).reply)
    ensures
      var i := FirstFinishOrEnd(r);
      && i < |r.candidates|
      && (Outcome(p, g, r, t).actual == 0 <==>
           !r.stream && r.candidates[i].answer.Success? && Tokens(r.candidates[i].answer.value) == 0)
  {
    EstimatePositive(r);
  }

  /** A plain request whose one provider answers without usage. */
  function WithoutUsage(model: string): Request
  {
    Request(model, None, false, true, None, None, true, [Candidate(true, false, [], None, Success(None))])
  }

  /** The estimate of such a request is 4096 tokens, and its charge is nothing. */
  lemma UnknownUsageIsFree(p: Pool, g: Guest, model: string, t: Times)
    ensures Estimate(WithoutUsage(model)) == 4096
    ensures Outcome(p, g, WithoutUsage(model), t) == Served(Answered(None), 0)
  {
    var r := WithoutUsage(model);
    assert Finishes(r, r.candidates[0]);
    assert FirstFinish(r, 0) == 0;
  }

  /** Served exactly when some candidate finishes and nothing refused the request before. */
  lemma ServedIff(p: Pool, g: Guest, r: Request, t: Times)
    ensures WasServed(Outcome(p, g, r, t).reply) <==>
      && PublicRefusal(p, r, t).None? && GuestOk(g, r, t) && r.poolsOk
      && exists i :: 0 <= i < |r.candidates| && Finishes(r, r.candidates[i])
  {
    var i := FirstFinishOrEnd(r);
    if r.poolsOk && r.candidates != [] && i < |r.candidates| {
      assert Finishes(r, r.candidates[i]);
    }
  }

  /** Both readings of the clock fall into the windows the counters stand for. */
  predicate SameWindows(p: Pool, t: Times)
  {
    && !DayOver(p, t.first) && !HourOver(p, t.first) && !DayOver(p, t.last) && !HourOver(p, t.last)
    && t.first.hourKey == t.last.hourKey
  }

  lemma ChargedTwice(p: Pool, ip: string, model: string, a: int, b: int, hourKey: string)
    ensures
      var q := Charged(Charged(p, ip, model, a, hourKey), ip, model, b, hourKey);
      && q.global == p.global + a + b
      && (forall x :: UseOf(q, x).daily == UseOf(p, x).daily + if x == ip && x != "" then a + b else 0)
      && (forall x :: UseOf(q, x).hourly == UseOf(p, x).hourly + if x == ip && x != "" then a + b else 0)
      && (forall h :: Used(q.hours, h) == Used(p.hours, h) + if h == hourKey then a + b else 0)
      && (forall m :: Used(q.models, m) == Used(p.models, m) + if m == model && m != "" then a + b else 0)
  {
    QuotaRuns.ChargedLayers(p, ip, model, a, hourKey);
    QuotaRuns.ChargedLayers(Charged(p, ip, model, a, hourKey), ip, model, b, hourKey);
  }

  /** b is a plus net on every layer of one request, and a elsewhere. */
  ghost predicate NetOf(a: Pool, b: Pool, ip: string, model: string, net: int, hourKey: string)
  {
    && b.global == a.global + net
    && (forall x :: UseOf(b, x).daily == UseOf(a, x).daily + if x == ip && x != "" then net else 0)
    && (forall x :: UseOf(b, x).hourly == UseOf(a, x).hourly + if x == ip && x != "" then net else 0)
    && (forall h :: Used(b.hours, h) == Used(a.hours, h) + if h == hourKey then net else 0)
    && (forall m :: Used(b.models, m) == Used(a.models, m) + if m == model && m != "" then net else 0)
  }

  lemma RefusedNetsZero(p: Pool, ip: string, model: string, why: Reason, hourKey: string)
    ensures NetOf(p, Touched(p, ip, why), ip, model, 0, hourKey)
  {
    forall x ensures UseOf(Touched(p, ip, why), x) == UseOf(p, x) { QuotaRuns.TouchedSame(p, ip, why, x); }
  }

  lemma SettledNets(p: Pool, ip: string, model: string, est: int, actual: int, now: Clock)
    requires !DayOver(p, now) && !HourOver(p, now)
    ensures NetOf(p, Adjusted(Charged(p, ip, model, est, now.hourKey), ip, model, est, actual, now), ip, model, actual,
      now.hourKey)
  {
    ChargedTwice(p, ip, model, est, actual - est, now.hourKey);
    QuotaRuns.ChargedLayers(p, ip, model, est, now.hourKey);
  }

  /** What a settled public request leaves on every layer: its charge, and nothing else. */
  lemma PublicNetCharge(p: Pool, g: Guest, r: Request, t: Times)
    requires r.publicIp.Some? && SameWindows(p, t)
    ensures NetOf(p, PublicAfter(p, g, r, t), r.publicIp.value, r.model, Outcome(p, g, r, t).actual, t.first.hourKey)
  {
    var ip, est := r.publicIp.value, Estimate(r);
    match PublicRefusal(p, r, t)
    case Some(why) => RefusedNetsZero(p, ip, r.model, why, t.first.hourKey);
    case None => SettledNets(p, ip, r.model, est, Outcome(p, g, r, t).actual, t.last);
  }

  /**
   The same for a guest key, for each window with a limit in which the request begins
   and ends, whatever the journal was stamped with before.
   */
  lemma GuestNetCharge(p: Pool, g: Guest, r: Request, t: Times, w: GuestRuns.Window)
    requires r.guest.Some? && PublicRefusal(p, r, t).None?
    requires GuestRuns.LimitOf(r.guest.value.limits, w) > 0
    requires GuestRuns.NameOf(t.guestFirst, w) == GuestRuns.NameOf(t.guestLast, w)
    requires Used(GuestRuns.Journal(Rolled(g, t.guestFirst), w), r.guest.value.key) >= 0
    ensures
      var used := Used(GuestRuns.Journal(Rolled(g, t.guestFirst), w), r.guest.value.key);
      Used(GuestRuns.Journal(GuestAfter(p, g, r, t), w), r.guest.value.key) ==
        Floored(used + Outcome(p, g, r, t).actual)
  {
    EstimatePositive(r);
  }
}
