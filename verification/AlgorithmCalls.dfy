// What the calls of the algorithm governor come to: after any sequence of calls every
// proposal says what its creator, its resolver and each of its voters passed.

module AlgorithmCalls {
  import opened Wrappers
  import opened AlgorithmGovernance
  import opened AlgorithmRuns

  // ------------------------------------------------------------- as it was called

  predicate Final(status: string)
  {
    status in {"passed", "rejected", "closed"}
  }

  /** Who acts: the id that was given, else this node, else the administrator. */
  function Who(local: Local, id: string): string
  {
    if id != "" then id
    else match local.nodeId case Some(node) => node case None => "admin"
  }

  /** The name shown: the one given, else this node's GitHub user, else the one from the environment. */
  function Shown(local: Local, name: string): string
  {
    if name != "" then name
    else if local.nodeId == None || local.githubUser == "" then local.envName
    else local.githubUser
  }

  /**
   The proposal as the calls made it, without its ballots: what its creator passed, and
   what the first to resolve it passed.
   */
  function Made(calls: seq<Call>, id: string): Option<Proposal>
  {
    if calls == [] then None
    else
      var before := Made(calls[..|calls| - 1], id);
      var c := calls[|calls| - 1];
      match c.op
      case CreateOp(pid, title, description, proposer, name, target) =>
        if pid == id && Trim(title) != ""
        then Some(Proposal(id, Trim(title), Trim(description), Who(c.local, proposer), Shown(c.local, name),
                           "open", c.now, "", "", "", target, []))
        else before
      case VoteOp(_, _, _, _, _) => before
      case ResolveOp(pid, resolver, reason, status) =>
        if pid == id && before.Some? && before.value.status == "open" && Final(status)
        then Some(before.value.(status := status, closedAt := c.now, resolvedBy := Who(c.local, resolver),
                                resolveReason := Trim(reason)))
        else before
  }

  /** A voter's ballot as the calls made it: what the voter passed last, while the proposal was open. */
  function Balloted(calls: seq<Call>, id: string, voter: string): Option<Vote>
  {
    if calls == [] then None
    else
      var front, c := calls[..|calls| - 1], calls[|calls| - 1];
      match c.op
      case CreateOp(pid, title, _, _, _, _) =>
        if pid == id && Trim(title) != "" then None else Balloted(front, id, voter)
      case VoteOp(pid, who, name, choice, comment) =>
        if pid == id && Made(front, id).Some? && Made(front, id).value.status == "open"
           && Trim(choice) in {"yes", "no", "abstain"} && Who(c.local, who) == voter
        then Some(Vote(voter, Shown(c.local, name), Trim(choice), Trim(comment), c.now))
        else Balloted(front, id, voter)
      case ResolveOp(_, _, _, _) => Balloted(front, id, voter)
  }

  // ----------------------------------------------------------------- as it is

  /** A voter's ballot in the list. */
  function BallotOf(votes: seq<Vote>, voter: string): Option<Vote>
  {
    if votes == [] then None
    else if votes[0].voter == voter then Some(votes[0])
    else BallotOf(votes[1..], voter)
  }

  lemma {:induction false} PlacedBallot(votes: seq<Vote>, v: Vote, voter: string)
    ensures BallotOf(Placed(votes, v), voter) == if voter == v.voter then Some(v) else BallotOf(votes, voter)
  {
    if votes != [] && votes[0].voter != v.voter {
      PlacedBallot(votes[1..], v, voter);
    }
  }

  lemma {:induction false} OpenOrFinal(calls: seq<Call>, id: string)
    ensures Made(calls, id).Some? ==> Made(calls, id).value.status == "open" || Final(Made(calls, id).value.status)
  {
    if calls != [] { OpenOrFinal(calls[..|calls| - 1], id); }
  }

  /** The state says of the proposal and of the voter what the calls say. */
  ghost predicate Agrees(g: Governor, calls: seq<Call>, id: string, voter: string)
  {
    && (id in g.proposals <==> Made(calls, id).Some?)
    && (id in g.proposals ==>
         && g.proposals[id].(votes := []) == Made(calls, id).value
         && BallotOf(g.proposals[id].votes, voter) == Balloted(calls, id, voter))
  }

  lemma CreateAgrees(g: Governor, calls: seq<Call>, c: Call, id: string, voter: string)
    requires Agrees(g, calls, id, voter) && c.op.CreateOp?
    ensures Agrees(Step(g, c.local, c.op, c.now), calls + [c], id, voter)
  {
    assert (calls + [c])[..|calls|] == calls;
  }

  lemma VoteAgrees(g: Governor, calls: seq<Call>, c: Call, id: string, voter: string)
    requires Agrees(g, calls, id, voter) && c.op.VoteOp?
    ensures Agrees(Step(g, c.local, c.op, c.now), calls + [c], id, voter)
  {
    assert (calls + [c])[..|calls|] == calls;
    OpenOrFinal(calls, id);
    if id in g.proposals {
      PlacedBallot(g.proposals[id].votes, NewVote(c.local, c.op.voter, c.op.name, c.op.choice, c.op.comment, c.now),
        voter);
    }
  }

  lemma ResolveAgrees(g: Governor, calls: seq<Call>, c: Call, id: string, voter: string)
    requires Agrees(g, calls, id, voter) && c.op.ResolveOp?
    ensures Agrees(Step(g, c.local, c.op, c.now), calls + [c], id, voter)
  {
    assert (calls + [c])[..|calls|] == calls;
    OpenOrFinal(calls, id);
  }

  /**
   After any calls, a proposal is there exactly when one created it; it says what its
   creator and its first resolver passed, and each voter's ballot is what the voter
   passed last while it was open.
   */
  lemma {:induction false} RunIsCalls(calls: seq<Call>, id: string, voter: string)
    ensures Agrees(Run(NEW_GOVERNOR, calls), calls, id, voter)
  {
    if calls != [] {
      var front, c := calls[..|calls| - 1], calls[|calls| - 1];
      assert calls == front + [c];
      RunIsCalls(front, id, voter);
      match c.op
      case CreateOp(_, _, _, _, _, _) => CreateAgrees(Run(NEW_GOVERNOR, front), front, c, id, voter);
      case VoteOp(_, _, _, _, _) => VoteAgrees(Run(NEW_GOVERNOR, front), front, c, id, voter);
      case ResolveOp(_, _, _, _) => ResolveAgrees(Run(NEW_GOVERNOR, front), front, c, id, voter);
    }
  }

  /**
   Why a ballot is refused after any calls: a choice that is none, a proposal nobody
   created, or one that is resolved.
   */
  lemma RefusalIsCalls(calls: seq<Call>, id: string, choice: string)
    ensures
      var made := Made(calls, id);
      VoteRefusal(Run(NEW_GOVERNOR, calls), id, choice) ==
        if Trim(choice) !in {"yes", "no", "abstain"} then Some(BadChoice)
        else if made == None then Some(NotFound)
        else if made.value.status != "open" then Some(NoLongerVotable(made.value.status))
        else None
  {
    RunIsCalls(calls, id, "");
    OpenOrFinal(calls, id);
  }

  // ---------------------------------------------------------------- its events

  /** The event a call leaves in the history, if it does anything. */
  function EventOf(calls: seq<Call>, c: Call): Option<Event>
  {
    match c.op
    case CreateOp(id, title, _, proposer, name, _) =>
      if Trim(title) == "" then None
      else Some(Event("proposal_created", id, Who(c.local, proposer), Shown(c.local, name), Trim(title), c.now))
    case VoteOp(id, voter, name, choice, _) =>
      if Made(calls, id).Some? && Made(calls, id).value.status == "open" && Trim(choice) in {"yes", "no", "abstain"}
      then Some(Event("vote_cast", id, Who(c.local, voter), Shown(c.local, name), Trim(choice), c.now))
      else None
    case ResolveOp(id, resolver, _, status) =>
      if Made(calls, id).Some? && Made(calls, id).value.status == "open" && Final(status)
      then Some(Event("proposal_resolved", id, Who(c.local, resolver), "", status, c.now))
      else None
  }

  /** The history as the calls made it. */
  function Logged(calls: seq<Call>): seq<Event>
  {
    if calls == [] then []
    else
      var front, c := calls[..|calls| - 1], calls[|calls| - 1];
      Logged(front) + match EventOf(front, c) case Some(e) => [e] case None => []
  }

  /** After any calls the history has one event for each call that did something, in order, saying what was passed. */
  lemma {:induction false} HistoryIsCalls(calls: seq<Call>)
    ensures Run(NEW_GOVERNOR, calls).history == Logged(calls)
  {
    if calls != [] {
      var front, c := calls[..|calls| - 1], calls[|calls| - 1];
      HistoryIsCalls(front);
      HistoryReproduces(front);
      RunIsCalls(front, c.op.id, "");
      OpenOrFinal(front, c.op.id);
      EventIsCall(Run(NEW_GOVERNOR, front), front, c);
    }
  }

  lemma EventIsCall(g: Governor, calls: seq<Call>, c: Call)
    requires Agrees(g, calls, c.op.id, "") && Keyed(g.proposals)
    requires Made(calls, c.op.id).Some? ==>
      Made(calls, c.op.id).value.status == "open" || Final(Made(calls, c.op.id).value.status)
    ensures Step(g, c.local, c.op, c.now).history ==
      g.history + match EventOf(calls, c) case Some(e) => [e] case None => []
  {
    assert g.history + [] == g.history;
  }
}
