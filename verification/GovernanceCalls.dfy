// What the calls of the co-governance ledger come to, in terms of the proposals and
// ballots themselves: whom the rosters admit, what a proposal and a ballot record, and
// when a call is accepted.

module GovernanceCalls {
  import opened Wrappers
  import opened ByteText
  import opened Governance
  import opened GovernanceRuns

  // -------------------------------------------------------------------- rosters

  /** A ratified proposal of the kind admit_node names this node. */
  ghost predicate RatifiedNode(ps: seq<Proposal>, node: string)
  {
    exists i :: 0 <= i < |ps| && ps[i].status == Ratified && ps[i].kind == "admit_node"
      && ps[i].payload.nodeId == Some(node)
  }

  /** A ratified proposal of the kind allow_model names this model. */
  ghost predicate RatifiedModel(ps: seq<Proposal>, model: string)
  {
    exists i :: 0 <= i < |ps| && ps[i].status == Ratified && ps[i].kind == "allow_model"
      && ps[i].payload.modelId == Some(model)
  }

  ghost predicate RostersAre(g: GovState)
  {
    && (forall node :: node in g.admitted <==> node != "" && RatifiedNode(g.proposals, node))
    && (forall model :: model in g.allowed <==> model != "" && RatifiedModel(g.proposals, model))
  }

  lemma AdmittedNode(ps: seq<Proposal>, node: string)
    ensures AdmittedIn(ps, node) <==> node != "" && RatifiedNode(ps, node)
  {
    if AdmittedIn(ps, node) {
      var p :| p in ps && p.status == Ratified && node in Admits(p);
      var i :| 0 <= i < |ps| && ps[i] == p;
      assert ps[i].kind == "admit_node";
    }
    if node != "" && RatifiedNode(ps, node) {
      var i :| 0 <= i < |ps| && ps[i].status == Ratified && ps[i].kind == "admit_node"
        && ps[i].payload.nodeId == Some(node);
      assert node in Admits(ps[i]);
    }
  }

  lemma AllowedModel(ps: seq<Proposal>, model: string)
    ensures AllowedIn(ps, model) <==> model != "" && RatifiedModel(ps, model)
  {
    if AllowedIn(ps, model) {
      var p :| p in ps && p.status == Ratified && model in Allows(p);
      var i :| 0 <= i < |ps| && ps[i] == p;
      assert ps[i].kind == "allow_model";
    }
    if model != "" && RatifiedModel(ps, model) {
      var i :| 0 <= i < |ps| && ps[i].status == Ratified && ps[i].kind == "allow_model"
        && ps[i].payload.modelId == Some(model);
      assert model in Allows(ps[i]);
    }
  }

  lemma RostersSay(g: GovState)
    requires RostersOk(g)
    ensures RostersAre(g)
  {
    forall node ensures node in g.admitted <==> node != "" && RatifiedNode(g.proposals, node) {
      AdmittedNode(g.proposals, node);
    }
    forall model ensures model in g.allowed <==> model != "" && RatifiedModel(g.proposals, model) {
      AllowedModel(g.proposals, model);
    }
  }

  /**
   After any run of a new ledger, restarts included, exactly the nodes and models of
   ratified proposals are admitted.
   */
  lemma RunRosters(self: string, sha: string -> string, ops: seq<Op>)
    ensures Inv(Empty(self), sha) && RostersAre(Run(Empty(self), sha, ops))
  {
    NewLedgerInv(self, sha, ops);
    RostersSay(Run(Empty(self), sha, ops));
  }

  /** Between a and b a proposal of this kind was ratified. */
  ghost predicate NewlyRatified(a: GovState, b: GovState, kind: string)
  {
    exists i :: 0 <= i < |a.proposals| && i < |b.proposals| && a.proposals[i].status == Open
                && b.proposals[i].status == Ratified && b.proposals[i].kind == kind
  }

  /** Proposals that are new in b are open there. */
  ghost predicate NewOnesOpen(a: GovState, b: GovState)
  {
    forall i :: |a.proposals| <= i < |b.proposals| ==> b.proposals[i].status == Open
  }

  lemma RatifiedBefore(a: GovState, b: GovState, kind: string, i: nat)
    requires Extends(a, b) && NewOnesOpen(a, b) && !NewlyRatified(a, b, kind)
    requires i < |b.proposals| && b.proposals[i].status == Ratified && b.proposals[i].kind == kind
    ensures i < |a.proposals| && a.proposals[i] == b.proposals[i]
  {
    assert i < |a.proposals| ==> b.proposals[i] == a.proposals[i].(status := b.proposals[i].status);
  }

  lemma SameNodes(a: GovState, b: GovState, node: string)
    requires Extends(a, b) && NewOnesOpen(a, b) && !NewlyRatified(a, b, "admit_node")
    ensures RatifiedNode(b.proposals, node) <==> RatifiedNode(a.proposals, node)
  {
    if RatifiedNode(b.proposals, node) {
      var i :| 0 <= i < |b.proposals| && b.proposals[i].status == Ratified && b.proposals[i].kind == "admit_node"
               && b.proposals[i].payload.nodeId == Some(node);
      RatifiedBefore(a, b, "admit_node", i);
    }
    if RatifiedNode(a.proposals, node) {
      var i :| 0 <= i < |a.proposals| && a.proposals[i].status == Ratified && a.proposals[i].kind == "admit_node"
               && a.proposals[i].payload.nodeId == Some(node);
      assert b.proposals[i] == a.proposals[i];
    }
  }

  lemma SameModels(a: GovState, b: GovState, model: string)
    requires Extends(a, b) && NewOnesOpen(a, b) && !NewlyRatified(a, b, "allow_model")
    ensures RatifiedModel(b.proposals, model) <==> RatifiedModel(a.proposals, model)
  {
    if RatifiedModel(b.proposals, model) {
      var i :| 0 <= i < |b.proposals| && b.proposals[i].status == Ratified && b.proposals[i].kind == "allow_model"
               && b.proposals[i].payload.modelId == Some(model);
      RatifiedBefore(a, b, "allow_model", i);
    }
    if RatifiedModel(a.proposals, model) {
      var i :| 0 <= i < |a.proposals| && a.proposals[i].status == Ratified && a.proposals[i].kind == "allow_model"
               && a.proposals[i].payload.modelId == Some(model);
      assert b.proposals[i] == a.proposals[i];
    }
  }

  lemma NewlyOpen(g: GovState, sha: string -> string, op: Op)
    requires Inv(g, sha)
    ensures NewOnesOpen(g, Step(g, sha, op))
  {
    match op
    case ProposeOp(who, kind, title, payload, now) =>
    case RatifyOp(id, who, approve, eligible, now) => BallotsAddNoProposal(g, sha, id, who, approve, eligible, now);
    case RestartOp => ReloadSame(g, sha);
  }

  lemma BallotsAddNoProposal(g: GovState, sha: string -> string, id: string, who: string, approve: bool, eligible: nat,
                             now: int)
    requires IdsOk(g)
    ensures |RatifiedBy(g, sha, id, who, approve, eligible, now).proposals| == |g.proposals|
  {
    if RatifyRefusal(g, id, OrSelf(g, who)).None? { RatifyIs(g, sha, id, who, approve, eligible, now); }
  }

  lemma RosterSteps(g: GovState, sha: string -> string, op: Op)
    requires Inv(g, sha)
    ensures
      var after := Step(g, sha, op);
      Extends(g, after) && NewOnesOpen(g, after) && RostersAre(g) && RostersAre(after)
  {
    StepKeepsInv(g, sha, op);
    StepExtends(g, sha, op);
    NewlyOpen(g, sha, op);
    RostersSay(g);
    RostersSay(Step(g, sha, op));
  }

  lemma AdmittedKept(a: GovState, b: GovState)
    requires Extends(a, b) && NewOnesOpen(a, b) && RostersAre(a) && RostersAre(b) && !NewlyRatified(a, b, "admit_node")
    ensures b.admitted == a.admitted
  {
    forall node ensures node in b.admitted <==> node in a.admitted { SameNodes(a, b, node); }
  }

  lemma AllowedKept(a: GovState, b: GovState)
    requires Extends(a, b) && NewOnesOpen(a, b) && RostersAre(a) && RostersAre(b) && !NewlyRatified(a, b, "allow_model")
    ensures b.allowed == a.allowed
  {
    forall model ensures model in b.allowed <==> model in a.allowed { SameModels(a, b, model); }
  }

  /** A roster changes only with the ratification of a proposal of its own kind. */
  lemma RosterKinds(g: GovState, sha: string -> string, op: Op)
    requires Inv(g, sha)
    ensures
      var after := Step(g, sha, op);
      && (!NewlyRatified(g, after, "admit_node") ==> after.admitted == g.admitted)
      && (!NewlyRatified(g, after, "allow_model") ==> after.allowed == g.allowed)
  {
    var after := Step(g, sha, op);
    RosterSteps(g, sha, op);
    if !NewlyRatified(g, after, "admit_node") { AdmittedKept(g, after); }
    if !NewlyRatified(g, after, "allow_model") { AllowedKept(g, after); }
  }

  /** So ratifying nothing but param_change proposals never changes one, whatever their payloads say. */
  lemma ParamChangesNoRoster(g: GovState, sha: string -> string, op: Op)
    requires Inv(g, sha)
    requires forall kind :: NewlyRatified(g, Step(g, sha, op), kind) ==> kind == "param_change"
    ensures Step(g, sha, op).admitted == g.admitted && Step(g, sha, op).allowed == g.allowed
  {
    RosterKinds(g, sha, op);
  }

  // ------------------------------------------------------------------ proposals

  /** A proposal as its proposer made it. */
  predicate ProposedAs(p: Proposal, self: string, n: nat, who: string, kind: string, title: string, payload: Payload,
                       now: int)
  {
    && p.id == "gov-" + self + "-" + Dec(n) && p.seqNo == n && p.status == Open
    && p.kind == kind && p.title == title && p.payload == payload && p.createdAt == now
    && p.proposer == if who == "" then self else who
  }

  /**
   A proposal is accepted with a kind and a title while its proposer has fewer than five
   open, and records what was proposed.
   */
  lemma ProposeSays(g: GovState, sha: string -> string, who: string, kind: string, title: string, payload: Payload,
                    now: int)
    requires Inv(g, sha)
    ensures
      var after := Proposed(g, sha, who, kind, title, payload, now);
      var proposer := if who == "" then g.self else who;
      if kind == "" || title == "" || CountOpen(g.proposals, proposer) >= 5 then after == g
      else
        && |after.proposals| == |g.proposals| + 1 && after.proposals[..|g.proposals|] == g.proposals
        && ProposedAs(after.proposals[|g.proposals|], g.self, |g.proposals| + 1, who, kind, title, payload, now)
        && after.ratifications == g.ratifications && after.admitted == g.admitted && after.allowed == g.allowed
  {
    var proposer := if who == "" then g.self else who;
    assert OpenCount(g.openBy, proposer) == CountOpen(g.proposals, proposer);
  }

  // -------------------------------------------------------------------- ballots

  /** The proposal with this id is there and open. */
  ghost predicate OpenProposal(ps: seq<Proposal>, id: string)
  {
    exists i :: 0 <= i < |ps| && ps[i].id == id && ps[i].status == Open
  }

  lemma OpenAt(g: GovState, id: string)
    requires IdsOk(g)
    ensures OpenProposal(g.proposals, id) <==> id in g.index && g.proposals[g.index[id]].status == Open
  {
    if OpenProposal(g.proposals, id) {
      var i :| 0 <= i < |g.proposals| && g.proposals[i].id == id && g.proposals[i].status == Open;
      assert g.proposals[i].id in g.index && g.index[g.proposals[i].id] == i;
    }
  }

  /** A ballot is accepted on an open proposal from a node that has not voted on it, and records what was voted. */
  lemma RatifySays(g: GovState, sha: string -> string, id: string, who: string, approve: bool, eligible: nat, now: int)
    requires Inv(g, sha)
    ensures
      var after := RatifiedBy(g, sha, id, who, approve, eligible, now);
      var node := if who == "" then g.self else who;
      if !OpenProposal(g.proposals, id) || HasVoted(g.ratifications, id, node) then after == g
      else
        && |after.ratifications| == |g.ratifications| + 1 && after.ratifications[..|g.ratifications|] == g.ratifications
        && var r := after.ratifications[|g.ratifications|];
           r.proposalId == id && r.node == node && r.approve == approve && r.at == now
             && r.seqNo == |g.ratifications| + 1
  {
    var node := if who == "" then g.self else who;
    OpenAt(g, id);
    assert node in Voters(g.voted, id) <==> HasVoted(g.ratifications, id, node);
    if RatifyRefusal(g, id, node).None? {
      RatifyIs(g, sha, id, who, approve, eligible, now);
      RecomputeKeepsBallots(WithRatification(g, NewRatification(g, sha, id, node, approve, now)), g.index[id],
        eligible);
    }
  }

  lemma RecomputeKeepsBallots(g: GovState, i: nat, eligible: nat)
    requires i < |g.proposals|
    ensures Recomputed(g, i, eligible).ratifications == g.ratifications
  {
  }

  // --------------------------------------------------------------------- hashes

  function YesNo(b: bool): string { if b then "true" else "false" }

  /** After any run every hash is that of the fields it covers, and none of those it does not. */
  lemma HashesSay(self: string, sha: string -> string, ops: seq<Op>, i: nat)
    requires Inv(Empty(self), sha)
    ensures
      var g := Run(Empty(self), sha, ops);
      && (i < |g.proposals| ==>
           var p := g.proposals[i];
           p.hash == sha(p.id + "|" + p.kind + "|" + p.title + "|" + p.payload.text + "|" + p.proposer + "|"
                         + Signed(p.createdAt)))
      && (i < |g.ratifications| ==>
           var r := g.ratifications[i];
           r.hash == sha(r.proposalId + "|" + r.node + "|" + YesNo(r.approve) + "|" + Signed(r.at)))
  {
    var g := Run(Empty(self), sha, ops);
    if i < |g.proposals| { assert ProposalOk(sha, g.proposals, i); }
    if i < |g.ratifications| { assert RatificationOk(sha, g.ratifications, i); }
  }
}
