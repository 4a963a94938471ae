// Community co-governance: proposals and ratifications on two hash-linked
// lists, closed by a two-thirds majority of the eligible voters, with rosters
// derived from what was ratified.

module Governance {
  import opened Wrappers
  import opened ByteText

  datatype Status = Open | Ratified | Rejected

  /** The payload text, and the ids it yields when it is read as JSON (None: not readable). */
  datatype Payload = Payload(text: string, nodeId: Option<string>, modelId: Option<string>)

  datatype Proposal = Proposal(
    id: string, kind: string, title: string, payload: Payload, proposer: string,
    createdAt: int, status: Status, seqNo: nat, prev: string, hash: string)

  datatype Ratification = Ratification(
    proposalId: string, node: string, approve: bool, at: int, seqNo: nat, prev: string, hash: string)

  datatype GovError = MissingTypeOrTitle | TooManyOpen | NotFound | NotOpen(status: Status) | AlreadyRatified

  /** index maps an id to its place in the list, so that both see one status. */
  datatype GovState = GovState(
    self: string,
    proposals: seq<Proposal>, index: map<string, nat>,
    ratifications: seq<Ratification>, voted: map<string, set<string>>,
    openBy: map<string, int>, seqNo: nat,
    lastP: string, lastR: string,
    admitted: set<string>, allowed: set<string>)

  datatype Snapshot = Snapshot(proposals: seq<Proposal>, ratifications: seq<Ratification>, lastP: string,
                               lastR: string, seqNo: nat)

  const MAX_OPEN_PER_PROPOSER := 5

  function Empty(self: string): GovState
  {
    GovState(self, [], map[], [], map[], map[], 0, "", "", {}, {})
  }

  /** Votes needed among n eligible voters: two thirds rounded up, at least one. */
  function Supermajority(n: int): int
  {
    if n <= 0 then 1 else (2 * n + 2) / 3
  }

  /** With no eligible voter the local node decides alone. */
  function Need(eligible: nat): int
  {
    Supermajority(if eligible == 0 then 1 else eligible)
  }

  function OpenCount(m: map<string, int>, proposer: string): int
  {
    if proposer in m then m[proposer] else 0
  }

  function Voters(m: map<string, set<string>>, id: string): set<string>
  {
    if id in m then m[id] else {}
  }

  // --------------------------------------------------------------- hashing

  function ProposalText(p: Proposal): string
  {
    p.id + "|" + p.kind + "|" + p.title + "|" + p.payload.text + "|" + p.proposer + "|" + Signed(p.createdAt)
  }

  function RatificationText(r: Ratification): string
  {
    r.proposalId + "|" + r.node + "|" + (if r.approve then "true" else "false") + "|" + Signed(r.at)
  }

  function PrevOfProposal(ps: seq<Proposal>, i: nat): string
    requires i <= |ps|
  {
    if i == 0 then "" else ps[i - 1].hash
  }

  function PrevOfRatification(rs: seq<Ratification>, i: nat): string
    requires i <= |rs|
  {
    if i == 0 then "" else rs[i - 1].hash
  }

  predicate ProposalOk(sha: string -> string, ps: seq<Proposal>, i: nat)
    requires i < |ps|
  {
    ps[i].prev == PrevOfProposal(ps, i) && ps[i].hash == sha(ProposalText(ps[i]))
  }

  predicate RatificationOk(sha: string -> string, rs: seq<Ratification>, i: nat)
    requires i < |rs|
  {
    rs[i].prev == PrevOfRatification(rs, i) && rs[i].hash == sha(RatificationText(rs[i]))
  }

  predicate ChainsOk(sha: string -> string, ps: seq<Proposal>, rs: seq<Ratification>)
  {
    && (forall i :: 0 <= i < |ps| ==> ProposalOk(sha, ps, i))
    && (forall i :: 0 <= i < |rs| ==> RatificationOk(sha, rs, i))
  }

  // ------------------------------------------------------------- proposing

  function GovId(self: string, n: nat): string
  {
    "gov-" + self + "-" + Dec(n)
  }

  function NewProposal(g: GovState, sha: string -> string, proposer: string, kind: string, title: string,
                       payload: Payload, now: int): Proposal
  {
    var p := Proposal(GovId(g.self, g.seqNo + 1), kind, title, payload, proposer, now, Open, g.seqNo + 1, g.lastP, "");
    p.(hash := sha(ProposalText(p)))
  }

  function WithProposal(g: GovState, p: Proposal): GovState
  {
    g.(seqNo := g.seqNo + 1,
       lastP := p.hash,
       proposals := g.proposals + [p],
       index := g.index[p.id := |g.proposals|],
       openBy := g.openBy[p.proposer := OpenCount(g.openBy, p.proposer) + 1])
  }

  function OrSelf(g: GovState, who: string): string
  {
    if who == "" then g.self else who
  }

  function ProposeRefusal(g: GovState, proposer: string, kind: string, title: string): Option<GovError>
  {
    if kind == "" || title == "" then Some(MissingTypeOrTitle)
    else if OpenCount(g.openBy, proposer) >= MAX_OPEN_PER_PROPOSER then Some(TooManyOpen)
    else None
  }

  function Proposed(g: GovState, sha: string -> string, who: string, kind: string, title: string, payload: Payload,
                    now: int): GovState
  {
    var proposer := OrSelf(g, who);
    if ProposeRefusal(g, proposer, kind, title).Some? then g
    else WithProposal(g, NewProposal(g, sha, proposer, kind, title, payload, now))
  }

  // ------------------------------------------------------------- ratifying

  function RatifyRefusal(g: GovState, id: string, node: string): Option<GovError>
    requires id in g.index ==> g.index[id] < |g.proposals|
  {
    if id !in g.index then Some(NotFound)
    else if g.proposals[g.index[id]].status != Open then Some(NotOpen(g.proposals[g.index[id]].status))
    else if node in Voters(g.voted, id) then Some(AlreadyRatified)
    else None
  }

  function NewRatification(g: GovState, sha: string -> string, id: string, node: string, approve: bool, now: int)
      : Ratification
  {
    var r := Ratification(id, node, approve, now, |g.ratifications| + 1, g.lastR, "");
    r.(hash := sha(RatificationText(r)))
  }

  function WithRatification(g: GovState, r: Ratification): GovState
  {
    g.(lastR := r.hash,
       ratifications := g.ratifications + [r],
       voted := g.voted[r.proposalId := Voters(g.voted, r.proposalId) + {r.node}])
  }

  /** How many recorded ballots on a proposal say yes (or no). */
  function Ballots(rs: seq<Ratification>, id: string, approve: bool): nat
  {
    if rs == [] then 0
    else
      var r := rs[|rs| - 1];
      Ballots(rs[..|rs| - 1], id, approve) + if r.proposalId == id && r.approve == approve then 1 else 0
  }

  function Released(m: map<string, int>, proposer: string): map<string, int>
  {
    m[proposer := if OpenCount(m, proposer) - 1 < 0 then 0 else OpenCount(m, proposer) - 1]
  }

  function Closed(g: GovState, i: nat, status: Status): GovState
    requires i < |g.proposals|
  {
    g.(proposals := g.proposals[i := g.proposals[i].(status := status)],
       openBy := Released(g.openBy, g.proposals[i].proposer))
  }

  /** The node a ratified proposal admits. */
  function Admits(p: Proposal): set<string>
  {
    if p.kind == "admit_node" && p.payload.nodeId.Some? && p.payload.nodeId.value != ""
    then {p.payload.nodeId.value} else {}
  }

  /** The model a ratified proposal allows. */
  function Allows(p: Proposal): set<string>
  {
    if p.kind == "allow_model" && p.payload.modelId.Some? && p.payload.modelId.value != ""
    then {p.payload.modelId.value} else {}
  }

  function Executed(g: GovState, p: Proposal): GovState
  {
    g.(admitted := g.admitted + Admits(p), allowed := g.allowed + Allows(p))
  }

  function Recomputed(g: GovState, i: nat, eligible: nat): GovState
    requires i < |g.proposals|
  {
    var p := g.proposals[i];
    if Ballots(g.ratifications, p.id, true) >= Need(eligible) then Executed(Closed(g, i, Ratified), p)
    else if Ballots(g.ratifications, p.id, false) >= Need(eligible) then Closed(g, i, Rejected)
    else g
  }

  function RatifiedBy(g: GovState, sha: string -> string, id: string, who: string, approve: bool, eligible: nat,
                      now: int): GovState
    requires id in g.index ==> g.index[id] < |g.proposals|
  {
    var node := OrSelf(g, who);
    if RatifyRefusal(g, id, node).Some? then g
    else Recomputed(WithRatification(g, NewRatification(g, sha, id, node, approve, now)), g.index[id], eligible)
  }

  // ---------------------------------------------------------- persistence

  /** Saving re-encodes every payload text; the JSON value stays the same. */
  function Saved(g: GovState, reencode: string -> string): Snapshot
  {
    Snapshot(SavedProposals(g.proposals, reencode), g.ratifications, g.lastP, g.lastR, g.seqNo)
  }

  function SavedProposals(ps: seq<Proposal>, reencode: string -> string): seq<Proposal>
  {
    seq(|ps|, i requires 0 <= i < |ps| => ps[i].(payload := ps[i].payload.(text := reencode(ps[i].payload.text))))
  }

  function IndexOf(ps: seq<Proposal>): map<string, nat>
  {
    if ps == [] then map[] else IndexOf(ps[..|ps| - 1])[ps[|ps| - 1].id := |ps| - 1]
  }

  function OpenOf(ps: seq<Proposal>): map<string, int>
  {
    if ps == [] then map[]
    else
      var before := OpenOf(ps[..|ps| - 1]);
      var p := ps[|ps| - 1];
      if p.status == Open then before[p.proposer := OpenCount(before, p.proposer) + 1] else before
  }

  function VotedOf(rs: seq<Ratification>): map<string, set<string>>
  {
    if rs == [] then map[]
    else
      var before := VotedOf(rs[..|rs| - 1]);
      var r := rs[|rs| - 1];
      before[r.proposalId := Voters(before, r.proposalId) + {r.node}]
  }

  /** Every ratified proposal, executed in list order. */
  function Rebuilt(g: GovState, ps: seq<Proposal>): GovState
  {
    if ps == [] then g
    else
      var before := Rebuilt(g, ps[..|ps| - 1]);
      if ps[|ps| - 1].status == Ratified then Executed(before, ps[|ps| - 1]) else before
  }

  function Applied(g: GovState, s: Snapshot): GovState
  {
    Rebuilt(
      g.(proposals := s.proposals, ratifications := s.ratifications,
         lastP := s.lastP, lastR := s.lastR, seqNo := s.seqNo,
         index := IndexOf(s.proposals), voted := VotedOf(s.ratifications), openBy := OpenOf(s.proposals)),
      s.proposals)
  }

  // ------------------------------------------------------------- the class

  class GovernanceLedger {
    const selfID: string
    const sha: string -> string
    var proposalList: seq<Proposal>
    var proposalIndex: map<string, nat>
    var ratifications: seq<Ratification>
    var ratIndex: map<string, set<string>>
    var openByProp: map<string, int>
    var proposalSeq: nat
    var lastPHash: string
    var lastRHash: string
    var admittedNodes: set<string>
    var allowedModels: set<string>

    function State(): GovState
      reads this
    {
      GovState(selfID, proposalList, proposalIndex, ratifications, ratIndex, openByProp, proposalSeq,
        lastPHash, lastRHash, admittedNodes, allowedModels)
    }

    /** The index points into the list. */
    predicate Valid()
      reads this
    {
      forall id :: id in proposalIndex ==> proposalIndex[id] < |proposalList|
    }

    constructor (selfID: string, sha: string -> string)
      ensures Valid() && State() == Empty(selfID) && this.sha == sha
    {
      this.selfID, this.sha := selfID, sha;
      proposalList, proposalIndex, ratifications, ratIndex := [], map[], [], map[];
      openByProp, proposalSeq, lastPHash, lastRHash := map[], 0, "", "";
      admittedNodes, allowedModels := {}, {};
    }

    method Propose(who: string, kind: string, title: string, payload: Payload, now: int)
        returns (r: Result<Proposal, GovError>)
      requires Valid()
      modifies this
      ensures Valid()
      ensures State() == Proposed(old(State()), sha, who, kind, title, payload, now)
      ensures r.Failure? ==>
        ProposeRefusal(old(State()), OrSelf(old(State()), who), kind, title) == Some(r.error)
      ensures r.Success? ==> proposalList == old(proposalList) + [r.value]
    {
      var proposer := OrSelf(State(), who);
      if kind == "" || title == "" {
        return Failure(MissingTypeOrTitle);
      }
      if OpenCount(openByProp, proposer) >= MAX_OPEN_PER_PROPOSER {
        return Failure(TooManyOpen);
      }
      var p := Proposal(
        GovId(selfID, proposalSeq + 1), kind, title, payload, proposer, now, Open, proposalSeq + 1, lastPHash, "");
      p := p.(hash := sha(ProposalText(p)));
      AppendProposal(p);
      r := Success(p);
    }

    method AppendProposal(p: Proposal)
      requires Valid()
      modifies this
      ensures Valid()
      ensures State() == WithProposal(old(State()), p)
    {
      proposalSeq := proposalSeq + 1;
      lastPHash := p.hash;
      proposalIndex := proposalIndex[p.id := |proposalList|];
      proposalList := proposalList + [p];
      openByProp := openByProp[p.proposer := OpenCount(openByProp, p.proposer) + 1];
    }

    method Ratify(id: string, who: string, approve: bool, eligible: nat, now: int)
        returns (r: Result<Ratification, GovError>)
      requires Valid()
      modifies this
      ensures Valid()
      ensures State() == RatifiedBy(old(State()), sha, id, who, approve, eligible, now)
      ensures r.Failure? ==> RatifyRefusal(old(State()), id, OrSelf(old(State()), who)) == Some(r.error)
      ensures r.Success? ==> ratifications == old(ratifications) + [r.value]
    {
      var node := OrSelf(State(), who);
      if id !in proposalIndex {
        return Failure(NotFound);
      }
      var i := proposalIndex[id];
      if proposalList[i].status != Open {
        return Failure(NotOpen(proposalList[i].status));
      }
      if node in Voters(ratIndex, id) {
        return Failure(AlreadyRatified);
      }
      var b := Ratification(id, node, approve, now, |ratifications| + 1, lastRHash, "");
      b := b.(hash := sha(RatificationText(b)));
      lastRHash := b.hash;
      ratifications := ratifications + [b];
      ratIndex := ratIndex[id := Voters(ratIndex, id) + {node}];
      Recompute(i, eligible);
      r := Success(b);
    }

    /** Count the ballots on one proposal and close it once either side has enough. */
    method Recompute(i: nat, eligible: nat)
      requires Valid() && i < |proposalList|
      modifies this`proposalList, this`openByProp, this`admittedNodes, this`allowedModels
      ensures Valid()
      ensures State() == Recomputed(old(State()), i, eligible)
    {
      var n := if eligible == 0 then 1 else eligible;
      var need := Supermajority(n);
      var p := proposalList[i];
      var approve, reject := 0, 0;
      for k := 0 to |ratifications|
        invariant approve == Ballots(ratifications[..k], p.id, true)
        invariant reject == Ballots(ratifications[..k], p.id, false)
      {
        assert ratifications[..k + 1][..k] == ratifications[..k];
        if ratifications[k].proposalId == p.id {
          if ratifications[k].approve { approve := approve + 1; } else { reject := reject + 1; }
        }
      }
      assert ratifications[..|ratifications|] == ratifications;
      if approve >= need {
        proposalList := proposalList[i := p.(status := Ratified)];
        openByProp := Released(openByProp, p.proposer);
        ExecuteRatified(p);
      } else if reject >= need {
        proposalList := proposalList[i := p.(status := Rejected)];
        openByProp := Released(openByProp, p.proposer);
      }
    }

    method ExecuteRatified(p: Proposal)
      modifies this`admittedNodes, this`allowedModels
      ensures State() == Executed(old(State()), p)
    {
      if p.kind == "admit_node" {
        if p.payload.nodeId.Some? && p.payload.nodeId.value != "" {
          admittedNodes := admittedNodes + {p.payload.nodeId.value};
        }
      } else if p.kind == "allow_model" {
        if p.payload.modelId.Some? && p.payload.modelId.value != "" {
          allowedModels := allowedModels + {p.payload.modelId.value};
        }
      }
    }

    method RebuildEffect()
      modifies this`admittedNodes, this`allowedModels
      ensures State() == Rebuilt(old(State()), proposalList)
    {
      for i := 0 to |proposalList|
        invariant State() == Rebuilt(old(State()), proposalList[..i])
      {
        assert proposalList[..i + 1][..i] == proposalList[..i];
        if proposalList[i].status == Ratified { ExecuteRatified(proposalList[i]); }
      }
      assert proposalList[..|proposalList|] == proposalList;
    }

    method IndexProposals()
      modifies this`proposalIndex, this`openByProp
      ensures proposalIndex == IndexOf(proposalList) && openByProp == OpenOf(proposalList)
      ensures Valid()
    {
      proposalIndex, openByProp := map[], map[];
      for i := 0 to |proposalList|
        invariant proposalIndex == IndexOf(proposalList[..i]) && openByProp == OpenOf(proposalList[..i])
        invariant forall id :: id in proposalIndex ==> proposalIndex[id] < i
      {
        assert proposalList[..i + 1][..i] == proposalList[..i];
        var p := proposalList[i];
        proposalIndex := proposalIndex[p.id := i];
        if p.status == Open { openByProp := openByProp[p.proposer := OpenCount(openByProp, p.proposer) + 1]; }
      }
      assert proposalList[..|proposalList|] == proposalList;
    }

    method IndexRatifications()
      modifies this`ratIndex
      ensures ratIndex == VotedOf(ratifications)
    {
      ratIndex := map[];
      for i := 0 to |ratifications|
        invariant ratIndex == VotedOf(ratifications[..i])
      {
        assert ratifications[..i + 1][..i] == ratifications[..i];
        var r := ratifications[i];
        ratIndex := ratIndex[r.proposalId := Voters(ratIndex, r.proposalId) + {r.node}];
      }
      assert ratifications[..|ratifications|] == ratifications;
    }

    /** Take over the two lists and index them. */
    method TakeOver(s: Snapshot)
      modifies this
      ensures Valid()
      ensures State() == old(State()).(
        proposals := s.proposals, ratifications := s.ratifications,
        lastP := s.lastP, lastR := s.lastR, seqNo := s.seqNo,
        index := IndexOf(s.proposals), voted := VotedOf(s.ratifications), openBy := OpenOf(s.proposals))
    {
      proposalList, ratifications, lastPHash, lastRHash, proposalSeq :=
        s.proposals, s.ratifications, s.lastP, s.lastR, s.seqNo;
      ghost var taken := State();
      IndexProposals();
      ghost var indexed := State();
      assert indexed == taken.(index := IndexOf(s.proposals), openBy := OpenOf(s.proposals));
      IndexRatifications();
      assert State() == indexed.(voted := VotedOf(s.ratifications));
    }

    /** Take over a snapshot and rebuild every index from its two lists. */
    method ApplySnapshot(s: Snapshot)
      modifies this
      ensures Valid()
      ensures State() == Applied(old(State()), s)
    {
      TakeOver(s);
      RebuildEffect();
    }

    method VerifyChain() returns (ok: bool)
      ensures ok <==> ChainsOk(sha, proposalList, ratifications)
    {
      var prev := "";
      for i := 0 to |proposalList|
        invariant prev == PrevOfProposal(proposalList, i)
        invariant forall j :: 0 <= j < i ==> ProposalOk(sha, proposalList, j)
      {
        if proposalList[i].prev != prev || proposalList[i].hash != sha(ProposalText(proposalList[i])) {
          assert !ProposalOk(sha, proposalList, i);
          return false;
        }
        prev := proposalList[i].hash;
      }
      prev := "";
      for i := 0 to |ratifications|
        invariant prev == PrevOfRatification(ratifications, i)
        invariant forall j :: 0 <= j < i ==> RatificationOk(sha, ratifications, j)
      {
        if ratifications[i].prev != prev || ratifications[i].hash != sha(RatificationText(ratifications[i])) {
          assert !RatificationOk(sha, ratifications, i);
          return false;
        }
        prev := ratifications[i].hash;
      }
      ok := true;
    }
  }
}
