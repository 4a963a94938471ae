// Runs of the algorithm governor: the history alone tells every proposal's
// status and every voter's last choice, nothing follows a resolution, and the
// tally counts voters.

module AlgorithmRuns {
  import opened Wrappers
  import opened AlgorithmGovernance

  datatype Call = Call(op: Op, local: Local, now: string)

  function Run(g: Governor, calls: seq<Call>): Governor
  {
    if calls == [] then g
    else
      var c := calls[|calls| - 1];
      Step(Run(g, calls[..|calls| - 1]), c.local, c.op, c.now)
  }

  const NEW_GOVERNOR: Governor := Governor(map[], [])

  // ------------------------------------------------------------ event replay

  /** What the history does not record is left out: description, target, comments and reasons. */
  function Recorded(p: Proposal): Proposal
  {
    p.(description := "", target := None, resolveReason := "", votes := RecordedVotes(p.votes))
  }

  function RecordedVotes(votes: seq<Vote>): seq<Vote>
  {
    seq(|votes|, i requires 0 <= i < |votes| => votes[i].(comment := ""))
  }

  function RecordedAll(ps: map<string, Proposal>): map<string, Proposal>
  {
    map id | id in ps :: Recorded(ps[id])
  }

  function ReplayEvent(ps: map<string, Proposal>, e: Event): map<string, Proposal>
  {
    var id := e.proposalId;
    if e.kind == CREATED then
      ps[id := Proposal(id, e.detail, "", e.actor, e.actorName, STATUS_OPEN, e.at, "", "", "", None, [])]
    else if id !in ps then ps
    else if e.kind == VOTE_CAST then
      ps[id := ps[id].(votes := Placed(ps[id].votes, Vote(e.actor, e.actorName, e.detail, "", e.at)))]
    else if e.kind == RESOLVED then
      ps[id := ps[id].(status := e.detail, closedAt := e.at, resolvedBy := e.actor)]
    else ps
  }

  /** The proposals as the history tells them. */
  function Replay(h: seq<Event>): map<string, Proposal>
  {
    if h == [] then map[] else ReplayEvent(Replay(h[..|h| - 1]), h[|h| - 1])
  }

  ghost predicate Keyed(ps: map<string, Proposal>)
  {
    forall id :: id in ps ==> ps[id].id == id
  }

  lemma {:induction false} PlacedRecorded(votes: seq<Vote>, v: Vote)
    ensures RecordedVotes(Placed(votes, v)) == Placed(RecordedVotes(votes), v.(comment := ""))
  {
    if votes != [] && votes[0].voter != v.voter {
      PlacedRecorded(votes[1..], v);
      assert RecordedVotes(votes)[1..] == RecordedVotes(votes[1..]);
    }
  }

  lemma ReplayMore(h: seq<Event>, e: Event)
    ensures Replay(h + [e]) == ReplayEvent(Replay(h), e)
  {
    assert (h + [e])[..|h|] == h;
  }

  lemma CreateReplays(g: Governor, p: Proposal)
    requires Replay(g.history) == RecordedAll(g.proposals)
    requires p.status == STATUS_OPEN && p.votes == [] && p.closedAt == "" && p.resolvedBy == "" && p.resolveReason == ""
    ensures Replay(WithProposal(g, p).history) == RecordedAll(WithProposal(g, p).proposals)
  {
    ReplayMore(g.history, Event(CREATED, p.id, p.proposer, p.proposerName, p.title, p.createdAt));
    assert RecordedVotes([]) == [];
  }

  lemma VoteReplays(g: Governor, id: string, v: Vote)
    requires Replay(g.history) == RecordedAll(g.proposals) && Keyed(g.proposals) && id in g.proposals
    ensures Replay(WithVote(g, id, v).history) == RecordedAll(WithVote(g, id, v).proposals)
  {
    ReplayMore(g.history, Event(VOTE_CAST, id, v.voter, v.voterName, v.choice, v.votedAt));
    PlacedRecorded(g.proposals[id].votes, v);
  }

  lemma ResolveReplays(g: Governor, id: string, resolver: string, reason: string, status: string, now: string)
    requires Replay(g.history) == RecordedAll(g.proposals) && Keyed(g.proposals) && id in g.proposals
    ensures
      var after := WithResolution(g, id, resolver, reason, status, now);
      Replay(after.history) == RecordedAll(after.proposals)
  {
    ReplayMore(g.history, Event(RESOLVED, id, resolver, "", status, now));
  }

  lemma StepReplays(g: Governor, c: Call)
    requires Replay(g.history) == RecordedAll(g.proposals) && Keyed(g.proposals)
    ensures
      var after := Step(g, c.local, c.op, c.now);
      Replay(after.history) == RecordedAll(after.proposals) && Keyed(after.proposals)
  {
    match c.op
    case CreateOp(id, title, description, proposer, name, target) =>
      CreateReplays(g, NewProposal(c.local, id, title, description, proposer, name, target, c.now));
    case VoteOp(id, voter, name, choice, comment) =>
      if VoteRefusal(g, id, choice).None? { VoteReplays(g, id, NewVote(c.local, voter, name, choice, comment, c.now)); }
    case ResolveOp(id, resolver, reason, status) =>
      if id in g.proposals { ResolveReplays(g, id, ActorId(c.local, resolver), Trim(reason), status, c.now); }
  }

  /** Folding the history rebuilds every proposal: status, resolution, and each ballot in its place. */
  lemma {:induction false} HistoryReproduces(calls: seq<Call>)
    ensures
      var g := Run(NEW_GOVERNOR, calls);
      Replay(g.history) == RecordedAll(g.proposals) && Keyed(g.proposals)
  {
    if calls != [] {
      HistoryReproduces(calls[..|calls| - 1]);
      StepReplays(Run(NEW_GOVERNOR, calls[..|calls| - 1]), calls[|calls| - 1]);
    }
  }

  // --------------------------------------------- last choice and last status

  function ChoiceIn(votes: seq<Vote>, voter: string): Option<string>
  {
    if votes == [] then None
    else if votes[0].voter == voter then Some(votes[0].choice)
    else ChoiceIn(votes[1..], voter)
  }

  /** The latest choice of a voter in the history, since the proposal was created. */
  function LastChoice(h: seq<Event>, id: string, voter: string): Option<string>
  {
    if h == [] then None
    else
      var e := h[|h| - 1];
      if e.proposalId == id && e.kind == CREATED then None
      else if e.proposalId == id && e.kind == VOTE_CAST && e.actor == voter then Some(e.detail)
      else LastChoice(h[..|h| - 1], id, voter)
  }

  function LastStatus(h: seq<Event>, id: string): string
  {
    if h == [] then STATUS_OPEN
    else
      var e := h[|h| - 1];
      if e.proposalId == id && e.kind == CREATED then STATUS_OPEN
      else if e.proposalId == id && e.kind == RESOLVED then e.detail
      else LastStatus(h[..|h| - 1], id)
  }

  lemma {:induction false} PlacedChoice(votes: seq<Vote>, v: Vote, voter: string)
    ensures ChoiceIn(Placed(votes, v), voter) == if voter == v.voter then Some(v.choice) else ChoiceIn(votes, voter)
  {
    if votes != [] && votes[0].voter != v.voter {
      PlacedChoice(votes[1..], v, voter);
    }
  }

  lemma {:induction false} ReplayTellsLast(h: seq<Event>, id: string, voter: string)
    requires id in Replay(h)
    ensures Replay(h)[id].status == LastStatus(h, id)
    ensures ChoiceIn(Replay(h)[id].votes, voter) == LastChoice(h, id, voter)
  {
    var e := h[|h| - 1];
    var before := Replay(h[..|h| - 1]);
    if id in before { ReplayTellsLast(h[..|h| - 1], id, voter); }
    if e.proposalId == id && e.kind == VOTE_CAST && id in before {
      PlacedChoice(before[id].votes, Vote(e.actor, e.actorName, e.detail, "", e.at), voter);
    }
  }

  lemma {:induction false} RecordedChoice(votes: seq<Vote>, voter: string)
    ensures ChoiceIn(RecordedVotes(votes), voter) == ChoiceIn(votes, voter)
  {
    if votes != [] {
      assert RecordedVotes(votes)[1..] == RecordedVotes(votes[1..]);
      RecordedChoice(votes[1..], voter);
    }
  }

  /** A proposal's status and every voter's counted choice are the last ones in the history. */
  lemma LastWordCounts(calls: seq<Call>, id: string, voter: string)
    requires id in Run(NEW_GOVERNOR, calls).proposals
    ensures
      var g := Run(NEW_GOVERNOR, calls);
      && g.proposals[id].status == LastStatus(g.history, id)
      && ChoiceIn(g.proposals[id].votes, voter) == LastChoice(g.history, id, voter)
  {
    var g := Run(NEW_GOVERNOR, calls);
    HistoryReproduces(calls);
    assert id in RecordedAll(g.proposals);
    ReplayTellsLast(g.history, id, voter);
    RecordedChoice(g.proposals[id].votes, voter);
  }

  // ------------------------------------------------------ order of the events

  /** Every proposal of the run gets an id no earlier one has. */
  ghost predicate FreshIds(g: Governor, calls: seq<Call>)
  {
    calls == [] ||
    (var n := |calls| - 1;
     && FreshIds(g, calls[..n])
     && (calls[n].op.CreateOp? ==> calls[n].op.id !in Run(g, calls[..n]).proposals))
  }

  ghost predicate Mentioned(h: seq<Event>, id: string)
  {
    exists e :: e in h && e.proposalId == id
  }

  ghost predicate IsResolved(h: seq<Event>, id: string)
  {
    exists e :: e in h && e.proposalId == id && e.kind == RESOLVED
  }

  /** A creation comes before every other event of its proposal, and nothing comes after a resolution. */
  ghost predicate Fits(h: seq<Event>, e: Event)
  {
    (e.kind == CREATED <==> !Mentioned(h, e.proposalId)) && !IsResolved(h, e.proposalId)
  }

  ghost predicate EventsOrdered(h: seq<Event>)
  {
    forall j :: 0 <= j < |h| ==> Fits(h[..j], h[j])
  }

  ghost predicate HistoryOk(g: Governor)
  {
    && Keyed(g.proposals) && EventsOrdered(g.history)
    && (forall id :: id in g.proposals <==> Mentioned(g.history, id))
    && (forall id :: IsResolved(g.history, id) ==> id in g.proposals && IsTerminal(g.proposals[id].status))
  }

  lemma EventAppended(h: seq<Event>, e: Event)
    requires EventsOrdered(h) && Fits(h, e)
    ensures EventsOrdered(h + [e])
  {
    forall j | 0 <= j < |h| + 1 ensures Fits((h + [e])[..j], (h + [e])[j]) {
      if j < |h| {
        assert (h + [e])[..j] == h[..j];
        assert Fits(h[..j], h[j]);
      } else {
        assert (h + [e])[..j] == h;
      }
    }
  }

  lemma MentionedMore(h: seq<Event>, e: Event, id: string)
    ensures Mentioned(h + [e], id) <==> Mentioned(h, id) || e.proposalId == id
    ensures IsResolved(h + [e], id) <==> IsResolved(h, id) || (e.proposalId == id && e.kind == RESOLVED)
  {
    assert e in h + [e];
    if Mentioned(h, id) {
      var f :| f in h && f.proposalId == id;
      assert f in h + [e];
    }
    if IsResolved(h, id) {
      var f :| f in h && f.proposalId == id && f.kind == RESOLVED;
      assert f in h + [e];
    }
  }

  /** One more event that fits, and the proposals it speaks of. */
  lemma EventKeepsHistory(a: Governor, b: Governor, e: Event)
    requires HistoryOk(a) && Fits(a.history, e) && b.history == a.history + [e]
    requires b.proposals.Keys == a.proposals.Keys + {e.proposalId} && Keyed(b.proposals)
    requires forall id :: id in a.proposals && id != e.proposalId ==> b.proposals[id] == a.proposals[id]
    requires e.kind == RESOLVED ==> IsTerminal(b.proposals[e.proposalId].status)
    ensures HistoryOk(b)
  {
    EventAppended(a.history, e);
    forall id
      ensures id in b.proposals <==> Mentioned(b.history, id)
      ensures IsResolved(b.history, id) ==> id in b.proposals && IsTerminal(b.proposals[id].status)
    {
      MentionedMore(a.history, e, id);
    }
  }

  lemma CreateKeepsHistory(g: Governor, p: Proposal)
    requires HistoryOk(g) && p.id !in g.proposals
    ensures HistoryOk(WithProposal(g, p))
  {
    EventKeepsHistory(g, WithProposal(g, p), Event(CREATED, p.id, p.proposer, p.proposerName, p.title, p.createdAt));
  }

  lemma VoteKeepsHistory(g: Governor, id: string, v: Vote)
    requires HistoryOk(g) && id in g.proposals && !IsTerminal(g.proposals[id].status)
    ensures HistoryOk(WithVote(g, id, v))
  {
    EventKeepsHistory(g, WithVote(g, id, v), Event(VOTE_CAST, id, v.voter, v.voterName, v.choice, v.votedAt));
  }

  lemma ResolveKeepsHistory(g: Governor, id: string, resolver: string, reason: string, status: string, now: string)
    requires HistoryOk(g) && id in g.proposals && !IsTerminal(g.proposals[id].status) && IsTerminal(status)
    ensures HistoryOk(WithResolution(g, id, resolver, reason, status, now))
  {
    EventKeepsHistory(g, WithResolution(g, id, resolver, reason, status, now),
      Event(RESOLVED, id, resolver, "", status, now));
  }

  lemma StepKeepsHistory(g: Governor, c: Call)
    requires HistoryOk(g) && (c.op.CreateOp? ==> c.op.id !in g.proposals)
    ensures HistoryOk(Step(g, c.local, c.op, c.now))
  {
    match c.op
    case CreateOp(id, title, description, proposer, name, target) =>
      CreateKeepsHistory(g, NewProposal(c.local, id, title, description, proposer, name, target, c.now));
    case VoteOp(id, voter, name, choice, comment) =>
      if VoteRefusal(g, id, choice).None? {
        VoteKeepsHistory(g, id, NewVote(c.local, voter, name, choice, comment, c.now));
      }
    case ResolveOp(id, resolver, reason, status) =>
      if IsTerminal(status) && id in g.proposals && !IsTerminal(g.proposals[id].status) {
        ResolveKeepsHistory(g, id, ActorId(c.local, resolver), Trim(reason), status, c.now);
      }
  }

  /** With fresh ids, a creation comes first, nothing follows a resolution, and there is at most one. */
  lemma {:induction false} NothingAfterResolution(calls: seq<Call>)
    requires FreshIds(NEW_GOVERNOR, calls)
    ensures HistoryOk(Run(NEW_GOVERNOR, calls))
  {
    if calls != [] {
      NothingAfterResolution(calls[..|calls| - 1]);
      StepKeepsHistory(Run(NEW_GOVERNOR, calls[..|calls| - 1]), calls[|calls| - 1]);
    }
  }

  /** A resolved proposal never changes again, and the history only grows. */
  lemma ResolvedIsFinal(g: Governor, c: Call, id: string)
    requires id in g.proposals && IsTerminal(g.proposals[id].status)
    requires c.op.CreateOp? ==> c.op.id != id
    ensures
      var after := Step(g, c.local, c.op, c.now);
      id in after.proposals && after.proposals[id] == g.proposals[id] && g.history <= after.history
  {
  }

  // ---------------------------------------------------------------- tallying

  ghost predicate BallotsOk(votes: seq<Vote>)
  {
    && (forall i, j :: 0 <= i < j < |votes| ==> votes[i].voter != votes[j].voter)
    && (forall i :: 0 <= i < |votes| ==> IsChoice(votes[i].choice))
  }

  lemma {:induction false} PlacedKeepsBallots(votes: seq<Vote>, v: Vote)
    requires BallotsOk(votes) && IsChoice(v.choice)
    ensures BallotsOk(Placed(votes, v))
    ensures forall w :: w in Placed(votes, v) ==> w == v || w in votes
  {
    if votes != [] && votes[0].voter != v.voter {
      PlacedKeepsBallots(votes[1..], v);
      var rest := Placed(votes[1..], v);
      forall j | 0 <= j < |rest| ensures rest[j].voter != votes[0].voter {
        assert rest[j] in rest;
      }
    }
  }

  ghost predicate AllBallotsOk(g: Governor)
  {
    forall id :: id in g.proposals ==> BallotsOk(g.proposals[id].votes)
  }

  lemma StepKeepsBallots(g: Governor, c: Call)
    requires AllBallotsOk(g)
    ensures AllBallotsOk(Step(g, c.local, c.op, c.now))
  {
    if c.op.VoteOp? && VoteRefusal(g, c.op.id, c.op.choice).None? {
      PlacedKeepsBallots(g.proposals[c.op.id].votes,
        NewVote(c.local, c.op.voter, c.op.name, c.op.choice, c.op.comment, c.now));
    }
  }

  lemma {:induction false} RunKeepsBallots(calls: seq<Call>)
    ensures AllBallotsOk(Run(NEW_GOVERNOR, calls))
  {
    if calls != [] {
      RunKeepsBallots(calls[..|calls| - 1]);
      StepKeepsBallots(Run(NEW_GOVERNOR, calls[..|calls| - 1]), calls[|calls| - 1]);
    }
  }

  function VotersOf(votes: seq<Vote>): set<string>
  {
    set v | v in votes :: v.voter
  }

  lemma {:induction false} ChoicesAddUp(votes: seq<Vote>)
    requires forall v :: v in votes ==> IsChoice(v.choice)
    ensures CountChoice(votes, "yes") + CountChoice(votes, "no") + CountChoice(votes, "abstain") == |votes|
  {
    if votes != [] {
      var n := |votes| - 1;
      ChoicesAddUp(votes[..n]);
      assert IsChoice(votes[n].choice);
    }
  }

  lemma {:induction false} VotersAreVotes(votes: seq<Vote>)
    requires forall i, j :: 0 <= i < j < |votes| ==> votes[i].voter != votes[j].voter
    ensures |VotersOf(votes)| == |votes|
  {
    if votes != [] {
      var n := |votes| - 1;
      VotersAreVotes(votes[..n]);
      assert votes == votes[..n] + [votes[n]];
      assert VotersOf(votes) == VotersOf(votes[..n]) + {votes[n].voter};
      assert votes[n].voter !in VotersOf(votes[..n]);
    }
  }

  /** In every run yes, no and abstain add up to the number of distinct voters. */
  lemma TallyCountsVoters(calls: seq<Call>, id: string)
    requires id in Run(NEW_GOVERNOR, calls).proposals
    ensures
      var votes := Run(NEW_GOVERNOR, calls).proposals[id].votes;
      CountChoice(votes, "yes") + CountChoice(votes, "no") + CountChoice(votes, "abstain") ==
        |votes| == |VotersOf(votes)|
  {
    RunKeepsBallots(calls);
    ChoicesAddUp(Run(NEW_GOVERNOR, calls).proposals[id].votes);
    VotersAreVotes(Run(NEW_GOVERNOR, calls).proposals[id].votes);
  }

  // ---------------------------------------------------------------- restart

  /** Loading files every proposal of a list under its id. */
  function Filed(list: seq<Proposal>): map<string, Proposal>
  {
    if list == [] then map[] else Filed(list[..|list| - 1])[list[|list| - 1].id := list[|list| - 1]]
  }

  lemma {:induction false} FiledFinds(list: seq<Proposal>, ps: map<string, Proposal>)
    requires Keyed(ps) && forall p :: p in list ==> p.id in ps && ps[p.id] == p
    ensures forall id :: id in Filed(list) <==> id in ps && ps[id] in list
    ensures forall id :: id in Filed(list) ==> Filed(list)[id] == ps[id]
  {
    if list != [] {
      var n := |list| - 1;
      FiledFinds(list[..n], ps);
      assert list == list[..n] + [list[n]];
    }
  }

  /** A snapshot lists the proposals in any order; loading it gives them all back. */
  lemma RestartRestores(calls: seq<Call>, list: seq<Proposal>)
    requires forall p :: p in list <==> p in Run(NEW_GOVERNOR, calls).proposals.Values
    ensures Filed(list) == Run(NEW_GOVERNOR, calls).proposals
  {
    var ps := Run(NEW_GOVERNOR, calls).proposals;
    HistoryReproduces(calls);
    forall p | p in list ensures p.id in ps && ps[p.id] == p {
      assert p in ps.Values;
    }
    FiledFinds(list, ps);
    assert forall id :: id in ps ==> ps[id] in ps.Values;
  }

  // ----------------------------------------------------------------- trimming

  ghost predicate AllBlank(s: string)
  {
    forall i :: 0 <= i < |s| ==> IsBlank(s[i])
  }

  lemma {:induction false} TrimLeftCuts(s: string)
    ensures |TrimLeft(s)| <= |s| && s == s[..|s| - |TrimLeft(s)|] + TrimLeft(s)
    ensures AllBlank(s[..|s| - |TrimLeft(s)|])
    ensures TrimLeft(s) != "" ==> !IsBlank(TrimLeft(s)[0])
  {
    if s != "" && IsBlank(s[0]) {
      TrimLeftCuts(s[1..]);
      var k := |s| - |TrimLeft(s)|;
      assert s[1..][..k - 1] == s[1..k];
      assert s[..k] == [s[0]] + s[1..k];
    }
  }

  lemma {:induction false} TrimRightCuts(s: string)
    ensures |TrimRight(s)| <= |s| && s == TrimRight(s) + s[|TrimRight(s)|..]
    ensures AllBlank(s[|TrimRight(s)|..])
    ensures TrimRight(s) != "" ==> TrimRight(s)[0] == s[0] && !IsBlank(TrimRight(s)[|TrimRight(s)| - 1])
  {
    if s != "" && IsBlank(s[|s| - 1]) {
      var n := |s| - 1;
      TrimRightCuts(s[..n]);
      var k := |TrimRight(s)|;
      assert s[..n][k..] == s[k..n];
      assert s[k..] == s[k..n] + [s[n]];
    }
  }

  /** Trimming cuts blanks off both ends, and exactly those. */
  lemma TrimMeaning(s: string)
    ensures exists i, j :: 0 <= i <= j <= |s| && Trim(s) == s[i..j] && AllBlank(s[..i]) && AllBlank(s[j..])
    ensures Trim(s) != "" ==> !IsBlank(Trim(s)[0]) && !IsBlank(Trim(s)[|Trim(s)| - 1])
  {
    TrimLeftCuts(s);
    var t := TrimLeft(s);
    var i := |s| - |t|;
    TrimRightCuts(t);
    var j := i + |Trim(s)|;
    assert Trim(s) == s[i..j];
    assert s[j..] == t[|Trim(s)|..];
  }
}
