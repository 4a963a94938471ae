// What a chat completion costs, by what its providers did: the tokens an answer
// reports, the estimate of a stream, and nothing when nobody served it.

module ChatCharges {
  import opened Wrappers
  import opened Quota
  import opened Settlement
  import QuotaGrants
  import GuestRuns

  // ------------------------------------------------------------------ endings

  /** A provider that ends the request: a stream that went through or reached the client, or an answer. */
  predicate Ends(r: Request, c: Candidate)
  {
    c.hasKey &&
    if r.stream
    then r.canFlush && (c.streamError == None || exists i :: 0 <= i < |c.writes| && c.writes[i] > 0)
    else c.answer.Success?
  }

  lemma EndsIsFinishes(r: Request, c: Candidate)
    ensures Ends(r, c) <==> Finishes(r, c)
  {
  }

  /** Provider i is the first of the list that ends the request. */
  ghost predicate EndedBy(r: Request, i: nat)
  {
    i < |r.candidates| && Ends(r, r.candidates[i]) && forall k :: 0 <= k < i ==> !Ends(r, r.candidates[k])
  }

  ghost predicate EndedByNone(r: Request)
  {
    forall k :: 0 <= k < |r.candidates| ==> !Ends(r, r.candidates[k])
  }

  /** Nothing refused the request before its providers were tried. */
  predicate Admitted(p: Pool, g: Guest, r: Request, t: Times)
  {
    PublicRefusal(p, r, t) == None && GuestOk(g, r, t) && r.poolsOk
  }

  lemma EndedByIs(r: Request, i: nat)
    requires EndedBy(r, i)
    ensures FirstFinishOrEnd(r) == i
  {
    forall k | 0 <= k < |r.candidates| ensures Ends(r, r.candidates[k]) <==> Finishes(r, r.candidates[k]) {
      EndsIsFinishes(r, r.candidates[k]);
    }
    FirstFinishIs(r, 0, i);
  }

  lemma EndedByNoneIs(r: Request)
    requires EndedByNone(r)
    ensures FirstFinishOrEnd(r) == |r.candidates|
  {
    forall k | 0 <= k < |r.candidates| ensures !Finishes(r, r.candidates[k]) {
      EndsIsFinishes(r, r.candidates[k]);
    }
    FirstFinishIs(r, 0, |r.candidates|);
  }

  /** The tokens a request asks its quotas for: the most it wants, or 4096. */
  function AsksFor(r: Request): int
  {
    match r.maxTokens
    case Some(n) => if n > 0 then n else 4096
    case None => 4096
  }

  /**
   A request gets to its providers exactly when what it asks for is granted by every
   quota it is under, and the pools allow it.
   */
  lemma AdmittedIff(p: Pool, g: Guest, r: Request, t: Times)
    ensures Admitted(p, g, r, t) <==>
      && (r.publicIp.Some? ==>
           && QuotaGrants.GlobalFits(p, AsksFor(r), t.first)
           && QuotaGrants.AddressFits(p, r.publicIp.value, AsksFor(r), t.first)
           && QuotaGrants.HourFits(p, AsksFor(r), t.first) && QuotaGrants.ModelFits(p, r.model, AsksFor(r), t.first))
      && (r.guest.Some? ==>
           var k := r.guest.value;
           && (k.limits.perRequest <= 0 || AsksFor(r) <= k.limits.perRequest)
           && QuotaGrants.WindowFits(
                k.limits.daily, QuotaGrants.WindowNow(g, GuestRuns.Daily, t.guestFirst, k.key), AsksFor(r))
           && QuotaGrants.WindowFits(
                k.limits.hourly, QuotaGrants.WindowNow(g, GuestRuns.Hourly, t.guestFirst, k.key), AsksFor(r))
           && (k.limits.rpm <= 0 || QuotaGrants.RequestsNow(g, t.guestFirst, k.key) < k.limits.rpm))
      && r.poolsOk
  {
    if r.publicIp.Some? { QuotaGrants.GrantedIff(p, r.publicIp.value, r.model, AsksFor(r), t.first); }
    if r.guest.Some? {
      QuotaGrants.GuestGrantedIff(g, r.guest.value.key, r.guest.value.limits, AsksFor(r), t.guestFirst);
    }
  }

  // ------------------------------------------------------------------ charges

  /** The window has a limit for the request's guest key, and the request begins and ends in it. */
  predicate InWindow(g: Guest, r: Request, t: Times, w: GuestRuns.Window)
  {
    && r.guest.Some? && GuestRuns.LimitOf(r.guest.value.limits, w) > 0
    && GuestRuns.NameOf(t.guestFirst, w) == GuestRuns.NameOf(t.guestLast, w)
    && Used(GuestRuns.Journal(Rolled(g, t.guestFirst), w), r.guest.value.key) >= 0
  }

  /** In the end every layer of the public quota and every such guest window has grown by this amount. */
  ghost predicate Costs(p: Pool, g: Guest, r: Request, t: Times, amount: int)
  {
    && (r.publicIp.Some? && SameWindows(p, t) ==>
         NetOf(p, PublicAfter(p, g, r, t), r.publicIp.value, r.model, amount, t.first.hourKey))
    && (PublicRefusal(p, r, t) == None ==> forall w | InWindow(g, r, t, w) ::
         var used := Used(GuestRuns.Journal(Rolled(g, t.guestFirst), w), r.guest.value.key);
         Used(GuestRuns.Journal(GuestAfter(p, g, r, t), w), r.guest.value.key) ==
           if used + amount < 0 then 0 else used + amount)
  }

  lemma OutcomeCosts(p: Pool, g: Guest, r: Request, t: Times)
    ensures Costs(p, g, r, t, Outcome(p, g, r, t).actual)
  {
    if r.publicIp.Some? && SameWindows(p, t) { PublicNetCharge(p, g, r, t); }
    if PublicRefusal(p, r, t) == None {
      forall w | InWindow(g, r, t, w)
        ensures
          var used, amount :=
            Used(GuestRuns.Journal(Rolled(g, t.guestFirst), w), r.guest.value.key), Outcome(p, g, r, t).actual;
          Used(GuestRuns.Journal(GuestAfter(p, g, r, t), w), r.guest.value.key) ==
            if used + amount < 0 then 0 else used + amount
      {
        GuestNetCharge(p, g, r, t, w);
      }
    }
  }

  /** An answer that reports its usage costs its prompt and its completion tokens, and is passed on with them. */
  lemma AnswerCosts(p: Pool, g: Guest, r: Request, t: Times, i: nat, prompt: int, completion: int)
    requires Admitted(p, g, r, t) && !r.stream && EndedBy(r, i)
    requires r.candidates[i].answer == Success(Some(Usage(prompt, completion)))
    ensures Outcome(p, g, r, t).reply == Answered(Some(Usage(prompt, completion)))
    ensures Costs(p, g, r, t, prompt + completion)
  {
    EndedByIs(r, i);
    OutcomeCosts(p, g, r, t);
  }

  /** One that reports none costs nothing. */
  lemma SilentAnswerCosts(p: Pool, g: Guest, r: Request, t: Times, i: nat)
    requires Admitted(p, g, r, t) && !r.stream && EndedBy(r, i) && r.candidates[i].answer == Success(None)
    ensures Outcome(p, g, r, t).reply == Answered(None) && Costs(p, g, r, t, 0)
  {
    EndedByIs(r, i);
    OutcomeCosts(p, g, r, t);
  }

  /** A stream costs the most tokens it asked for, or 4096, also when it broke after the first bytes. */
  lemma StreamCosts(p: Pool, g: Guest, r: Request, t: Times, i: nat)
    requires Admitted(p, g, r, t) && r.stream && EndedBy(r, i)
    ensures Outcome(p, g, r, t).reply == if r.candidates[i].streamError == None then Streamed else StreamBroken
    ensures Costs(p, g, r, t, AsksFor(r))
  {
    EndedByIs(r, i);
    OutcomeCosts(p, g, r, t);
  }

  /** The last provider failed for a rate limit, in the words of its error. */
  predicate LimitedBy(r: Request, c: Candidate)
  {
    if !c.hasKey then c.nameReadsLimited
    else if r.stream then r.canFlush && c.streamError.Some? && c.streamError.value.rateLimited
    else c.answer.Failure? && c.answer.error.rateLimited
  }

  /** When every provider fails the request costs nothing, and the last one's error says whether to try later. */
  lemma FailureCosts(p: Pool, g: Guest, r: Request, t: Times)
    requires Admitted(p, g, r, t) && r.candidates != [] && EndedByNone(r)
    ensures Outcome(p, g, r, t).reply ==
      if LimitedBy(r, r.candidates[|r.candidates| - 1]) then RateLimited else AllFailed
    ensures Costs(p, g, r, t, 0)
  {
    EndedByNoneIs(r);
    OutcomeCosts(p, g, r, t);
  }

  /** So does one that was turned away, by either quota, by the pools, or for want of a provider. */
  lemma RefusalCosts(p: Pool, g: Guest, r: Request, t: Times)
    requires !Admitted(p, g, r, t) || r.candidates == []
    ensures
      var reply := Outcome(p, g, r, t).reply;
      match PublicRefusal(p, r, t)
      case Some(why) => reply == PublicRefused(why)
      case None =>
        reply == if !GuestOk(g, r, t) then GuestRefused else if !r.poolsOk then PoolsExhausted else NoProvider
    ensures Costs(p, g, r, t, 0)
  {
    OutcomeCosts(p, g, r, t);
  }

  /** However it ends, a request of a guest key counts once among the requests of its minute if it was admitted. */
  lemma RequestIsCounted(p: Pool, g: Guest, r: Request, t: Times)
    requires r.guest.Some? && PublicRefusal(p, r, t) == None && t.guestFirst.minute == t.guestLast.minute
    ensures Used(GuestAfter(p, g, r, t).rpm, r.guest.value.key) ==
      QuotaGrants.RequestsNow(g, t.guestFirst, r.guest.value.key) + if GuestOk(g, r, t) then 1 else 0
  {
    var k := r.guest.value;
    var reserved := GuestReserved(g, k.key, k.limits, Estimate(r), t.guestFirst);
    QuotaGrants.GuestReservedCounts(g, k.key, k.limits, Estimate(r), t.guestFirst, k.key, GuestRuns.Daily);
    QuotaGrants.GuestAdjustedCounts(
      reserved, k.key, Estimate(r), Outcome(p, g, r, t).actual, t.guestLast, k.key, GuestRuns.Daily);
  }
}
