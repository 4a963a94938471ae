// Node-local votes on algorithm parameters: proposals with one ballot per
// voter, and a history of events that is only ever appended to.

module AlgorithmGovernance {
  import opened Wrappers

  const STATUS_OPEN := "open"
  const CREATED := "proposal_created"
  const VOTE_CAST := "vote_cast"
  const RESOLVED := "proposal_resolved"

  predicate IsTerminal(status: string)
  {
    status == "passed" || status == "rejected" || status == "closed"
  }

  predicate IsChoice(choice: string)
  {
    choice == "yes" || choice == "no" || choice == "abstain"
  }

  datatype Vote = Vote(voter: string, voterName: string, choice: string, comment: string, votedAt: string)

  datatype Proposal = Proposal(
    id: string, title: string, description: string, proposer: string, proposerName: string,
    status: string, createdAt: string, closedAt: string, resolvedBy: string, resolveReason: string,
    target: Option<string>, votes: seq<Vote>)

  datatype Event = Event(kind: string, proposalId: string, actor: string, actorName: string, detail: string, at: string)

  datatype Tally = Tally(yes: nat, no: nat, abstain: nat, total: nat)

  datatype GovernorError = TitleRequired | BadChoice | BadDecision | NotFound | NoLongerVotable(status: string)

  /** The local identity that stands in for an empty actor. */
  datatype Local = Local(nodeId: Option<string>, githubUser: string, envName: string)

  datatype Governor = Governor(proposals: map<string, Proposal>, history: seq<Event>)

  // ----------------------------------------------------------- small helpers

  predicate IsBlank(c: char)
  {
    c == ' ' || c == '\t' || c == '\n' || c == '\r'
  }

  function TrimLeft(s: string): string
  {
    if s != "" && IsBlank(s[0]) then TrimLeft(s[1..]) else s
  }

  function TrimRight(s: string): string
  {
    if s != "" && IsBlank(s[|s| - 1]) then TrimRight(s[..|s| - 1]) else s
  }

  function Trim(s: string): string
  {
    TrimRight(TrimLeft(s))
  }

  method TrimSpace(s: string) returns (r: string)
    ensures r == Trim(s)
  {
    var start := 0;
    while start < |s| && IsBlank(s[start])
      invariant start <= |s| && TrimLeft(s[start..]) == TrimLeft(s)
    {
      assert s[start..][0] == s[start] && s[start..][1..] == s[start + 1..];
      start := start + 1;
    }
    assert start < |s| ==> s[start..][0] == s[start];
    assert TrimLeft(s[start..]) == s[start..];
    var end := |s|;
    assert s[start..end] == s[start..];
    while end > start && IsBlank(s[end - 1])
      invariant start <= end <= |s| && TrimRight(s[start..end]) == TrimRight(s[start..])
    {
      assert s[start..end][..end - start - 1] == s[start..end - 1];
      end := end - 1;
    }
    r := s[start..end];
  }

  function ActorId(local: Local, id: string): string
  {
    if id != "" then id else if local.nodeId.Some? then local.nodeId.value else "admin"
  }

  function ActorName(local: Local, name: string): string
  {
    if name != "" then name
    else if local.nodeId.Some? && local.githubUser != "" then local.githubUser
    else local.envName
  }

  // -------------------------------------------------------------- operations

  function NewProposal(local: Local, id: string, title: string, description: string, proposer: string, name: string,
                       target: Option<string>, now: string): Proposal
  {
    Proposal(id, Trim(title), Trim(description), ActorId(local, proposer), ActorName(local, name),
      STATUS_OPEN, now, "", "", "", target, [])
  }

  function WithProposal(g: Governor, p: Proposal): Governor
  {
    Governor(g.proposals[p.id := p],
      g.history + [Event(CREATED, p.id, p.proposer, p.proposerName, p.title, p.createdAt)])
  }

  /** A voter's ballot replaces the earlier one in place, or goes to the end. */
  function Placed(votes: seq<Vote>, v: Vote): seq<Vote>
  {
    if votes == [] then [v]
    else if votes[0].voter == v.voter then [v] + votes[1..]
    else [votes[0]] + Placed(votes[1..], v)
  }

  method PlaceVote(votes: seq<Vote>, v: Vote) returns (r: seq<Vote>)
    ensures r == Placed(votes, v)
  {
    var i := 0;
    while i < |votes| && votes[i].voter != v.voter
      invariant i <= |votes|
      invariant forall k :: 0 <= k < i ==> votes[k].voter != v.voter
    {
      i := i + 1;
    }
    PlacedAt(votes, v, i);
    r := if i < |votes| then votes[i := v] else votes + [v];
  }

  lemma {:induction false} PlacedAt(votes: seq<Vote>, v: Vote, i: nat)
    requires i <= |votes| && (forall k :: 0 <= k < i ==> votes[k].voter != v.voter)
    requires i < |votes| ==> votes[i].voter == v.voter
    ensures Placed(votes, v) == if i < |votes| then votes[i := v] else votes + [v]
  {
    if i > 0 { PlacedAt(votes[1..], v, i - 1); }
  }

  function VoteRefusal(g: Governor, id: string, choice: string): Option<GovernorError>
  {
    if !IsChoice(Trim(choice)) then Some(BadChoice)
    else if id !in g.proposals then Some(NotFound)
    else if IsTerminal(g.proposals[id].status) then Some(NoLongerVotable(g.proposals[id].status))
    else None
  }

  function NewVote(local: Local, voter: string, name: string, choice: string, comment: string, now: string): Vote
  {
    Vote(ActorId(local, voter), ActorName(local, name), Trim(choice), Trim(comment), now)
  }

  function WithVote(g: Governor, id: string, v: Vote): Governor
    requires id in g.proposals
  {
    var p := g.proposals[id];
    Governor(g.proposals[id := p.(votes := Placed(p.votes, v))],
      g.history + [Event(VOTE_CAST, p.id, v.voter, v.voterName, v.choice, v.votedAt)])
  }

  function WithResolution(g: Governor, id: string, resolver: string, reason: string, status: string, now: string)
      : Governor
    requires id in g.proposals
  {
    var p := g.proposals[id];
    Governor(g.proposals[id := p.(status := status, closedAt := now, resolvedBy := resolver, resolveReason := reason)],
      g.history + [Event(RESOLVED, p.id, resolver, "", status, now)])
  }

  datatype Op =
    | CreateOp(id: string, title: string, description: string, proposer: string, name: string, target: Option<string>)
    | VoteOp(id: string, voter: string, name: string, choice: string, comment: string)
    | ResolveOp(id: string, resolver: string, reason: string, status: string)

  /** What one call does to the governor; the id of a new proposal is the caller's. */
  function Step(g: Governor, local: Local, op: Op, now: string): Governor
  {
    match op
    case CreateOp(id, title, description, proposer, name, target) =>
      if Trim(title) == "" then g
      else WithProposal(g, NewProposal(local, id, title, description, proposer, name, target, now))
    case VoteOp(id, voter, name, choice, comment) =>
      if VoteRefusal(g, id, choice).Some? then g else WithVote(g, id, NewVote(local, voter, name, choice, comment, now))
    case ResolveOp(id, resolver, reason, status) =>
      if !IsTerminal(status) || id !in g.proposals || IsTerminal(g.proposals[id].status) then g
      else WithResolution(g, id, ActorId(local, resolver), Trim(reason), status, now)
  }

  // ------------------------------------------------------------- the class

  class AlgorithmGovernor {
    var proposals: map<string, Proposal>
    var history: seq<Event>

    function State(): Governor
      reads this
    {
      Governor(proposals, history)
    }

    constructor ()
      ensures State() == Governor(map[], [])
    {
      proposals, history := map[], [];
    }

    method CreateProposal(local: Local, id: string, title: string, description: string, proposer: string, name: string,
                          target: Option<string>, now: string)
      returns (r: Result<Proposal, GovernorError>)
      modifies this
      ensures State() == Step(old(State()), local, CreateOp(id, title, description, proposer, name, target), now)
      ensures r.Failure? <==> Trim(title) == ""
      ensures r.Success? ==> id in proposals && r.value == proposals[id]
    {
      var t := TrimSpace(title);
      if t == "" {
        return Failure(TitleRequired);
      }
      var d := TrimSpace(description);
      var p := Proposal(id, t, d, ActorId(local, proposer), ActorName(local, name), STATUS_OPEN, now, "", "", "",
        target, []);
      proposals := proposals[id := p];
      history := history + [Event(CREATED, id, p.proposer, p.proposerName, t, now)];
      r := Success(p);
    }

    method CastVote(local: Local, id: string, voter: string, name: string, choice: string, comment: string, now: string)
      returns (r: Result<Proposal, GovernorError>)
      modifies this
      ensures State() == Step(old(State()), local, VoteOp(id, voter, name, choice, comment), now)
      ensures match VoteRefusal(old(State()), id, choice)
              case Some(e) => r == Failure(e)
              case None => id in proposals && r == Success(proposals[id])
    {
      var c := TrimSpace(choice);
      if !IsChoice(c) {
        return Failure(BadChoice);
      }
      if id !in proposals {
        return Failure(NotFound);
      }
      var p := proposals[id];
      if IsTerminal(p.status) {
        return Failure(NoLongerVotable(p.status));
      }
      var text := TrimSpace(comment);
      var v := Vote(ActorId(local, voter), ActorName(local, name), c, text, now);
      var votes := PlaceVote(p.votes, v);
      p := p.(votes := votes);
      proposals := proposals[id := p];
      history := history + [Event(VOTE_CAST, p.id, v.voter, v.voterName, v.choice, v.votedAt)];
      r := Success(p);
    }

    /** Resolving what is already resolved returns it unchanged. */
    method ResolveProposal(local: Local, id: string, resolver: string, reason: string, status: string, now: string)
      returns (r: Result<Proposal, GovernorError>)
      modifies this
      ensures State() == Step(old(State()), local, ResolveOp(id, resolver, reason, status), now)
      ensures r == if !IsTerminal(status) then Failure(BadDecision)
                   else if id !in old(proposals) then Failure(NotFound)
                   else Success(proposals[id])
    {
      if !IsTerminal(status) {
        return Failure(BadDecision);
      }
      if id !in proposals {
        return Failure(NotFound);
      }
      var p := proposals[id];
      if IsTerminal(p.status) {
        return Success(p);
      }
      var why := TrimSpace(reason);
      p := p.(status := status, closedAt := now, resolvedBy := ActorId(local, resolver), resolveReason := why);
      proposals := proposals[id := p];
      history := history + [Event(RESOLVED, p.id, p.resolvedBy, "", status, now)];
      r := Success(p);
    }

    /** A copy of the history, newest first. */
    method GetHistory() returns (out: array<Event>)
      ensures fresh(out) && out[..] == Reversed(history)
    {
      out := new Event[|history|](i requires 0 <= i < |history| reads this => history[i]);
      assert out[..] == history;
      ReverseInPlace(out);
    }
  }

  method ReverseInPlace(out: array<Event>)
    modifies out
    ensures out[..] == Reversed(old(out[..]))
  {
    ghost var was := out[..];
    var i, j := 0, out.Length - 1;
    assert out[..] == Mirrored(was, 0);
    while i < j
      invariant 0 <= i <= j + 2 && i + j == out.Length - 1
      invariant out[..] == Mirrored(was, i)
    {
      ghost var before := out[..];
      out[i], out[j] := out[j], out[i];
      assert out[..] == before[i := before[j]][j := before[i]];
      MirrorStep(was, i);
      i, j := i + 1, j - 1;
    }
    MirrorIsReversed(was, i);
  }

  /** The list with its first and last i elements exchanged. */
  function Mirrored(s: seq<Event>, i: nat): (r: seq<Event>)
    ensures |r| == |s|
  {
    seq(|s|, k requires 0 <= k < |s| => s[if k < i || k > |s| - 1 - i then |s| - 1 - k else k])
  }

  lemma MirrorStep(s: seq<Event>, i: nat)
    requires i < |s| - 1 - i
    ensures
      var m, j := Mirrored(s, i), |s| - 1 - i;
      m[i := m[j]][j := m[i]] == Mirrored(s, i + 1)
  {
  }

  lemma MirrorAt(s: seq<Event>, i: nat, k: nat)
    requires i >= |s| - 1 - i && k < |s|
    ensures Mirrored(s, i)[k] == s[|s| - 1 - k]
  {
  }

  lemma MirrorIsReversed(s: seq<Event>, i: nat)
    requires i >= |s| - 1 - i
    ensures Mirrored(s, i) == Reversed(s)
  {
    var m, r := Mirrored(s, i), Reversed(s);
    forall k | 0 <= k < |s| ensures m[k] == r[k] {
      MirrorAt(s, i, k);
      ReversedAt(s, k);
    }
  }

  function Reversed(s: seq<Event>): (r: seq<Event>)
    ensures |r| == |s|
  {
    if s == [] then [] else [s[|s| - 1]] + Reversed(s[..|s| - 1])
  }

  lemma {:induction false} ReversedAt(s: seq<Event>, k: nat)
    requires k < |s|
    ensures Reversed(s)[k] == s[|s| - 1 - k]
  {
    if k > 0 { ReversedAt(s[..|s| - 1], k - 1); }
  }

  function CountChoice(votes: seq<Vote>, choice: string): nat
  {
    if votes == [] then 0
    else CountChoice(votes[..|votes| - 1], choice) + if votes[|votes| - 1].choice == choice then 1 else 0
  }

  method TallyVotes(p: Proposal) returns (t: Tally)
    ensures t == Tally(CountChoice(p.votes, "yes"), CountChoice(p.votes, "no"), CountChoice(p.votes, "abstain"),
      |p.votes|)
  {
    t := Tally(0, 0, 0, 0);
    for i := 0 to |p.votes|
      invariant t == Tally(CountChoice(p.votes[..i], "yes"), CountChoice(p.votes[..i], "no"),
        CountChoice(p.votes[..i], "abstain"), i)
    {
      assert p.votes[..i + 1][..i] == p.votes[..i];
      var c := p.votes[i].choice;
      if c == "yes" {
        t := t.(yes := t.yes + 1);
      } else if c == "no" {
        t := t.(no := t.no + 1);
      } else if c == "abstain" {
        t := t.(abstain := t.abstain + 1);
      }
      t := t.(total := t.total + 1);
    }
    assert p.votes[..|p.votes|] == p.votes;
  }
}
