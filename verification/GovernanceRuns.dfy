// What every run of the co-governance ledger keeps, what a reload gives back,
// and how far its hash chains reach.

module GovernanceRuns {
  import opened ByteText
  import opened Governance
  import opened Hashing

  // -------------------------------------------------------- the invariant

  function CountOpen(ps: seq<Proposal>, who: string): nat
  {
    if ps == [] then 0
    else
      var p := ps[|ps| - 1];
      CountOpen(ps[..|ps| - 1], who) + if p.status == Open && p.proposer == who then 1 else 0
  }

  ghost predicate HasVoted(rs: seq<Ratification>, id: string, node: string)
  {
    exists r :: r in rs && r.proposalId == id && r.node == node
  }

  ghost predicate AdmittedIn(ps: seq<Proposal>, node: string)
  {
    exists p :: p in ps && p.status == Ratified && node in Admits(p)
  }

  ghost predicate AllowedIn(ps: seq<Proposal>, model: string)
  {
    exists p :: p in ps && p.status == Ratified && model in Allows(p)
  }

  /** Ids count up, and the index finds each proposal. */
  ghost predicate IdsOk(g: GovState)
  {
    && |g.proposals| == g.seqNo
    && (forall i :: 0 <= i < |g.proposals| ==>
         g.proposals[i].id == GovId(g.self, i + 1) && g.proposals[i].seqNo == i + 1)
    && (forall i :: 0 <= i < |g.proposals| ==> g.proposals[i].id in g.index && g.index[g.proposals[i].id] == i)
    && (forall id :: id in g.index ==> g.index[id] < |g.proposals| && g.proposals[g.index[id]].id == id)
  }

  ghost predicate OpenOk(g: GovState)
  {
    forall who :: OpenCount(g.openBy, who) == CountOpen(g.proposals, who) <= MAX_OPEN_PER_PROPOSER
  }

  /** The ballot index matches the list, and no node voted twice on one proposal. */
  ghost predicate VotesOk(g: GovState)
  {
    && (forall id, node :: node in Voters(g.voted, id) <==> HasVoted(g.ratifications, id, node))
    && (forall i, j :: 0 <= i < j < |g.ratifications| ==>
         g.ratifications[i].proposalId != g.ratifications[j].proposalId
           || g.ratifications[i].node != g.ratifications[j].node)
    && (forall i :: 0 <= i < |g.ratifications| ==>
         g.ratifications[i].seqNo == i + 1 && g.ratifications[i].proposalId in g.index)
  }

  ghost predicate RostersOk(g: GovState)
  {
    && (forall node :: node in g.admitted <==> AdmittedIn(g.proposals, node))
    && (forall model :: model in g.allowed <==> AllowedIn(g.proposals, model))
  }

  ghost predicate LinksOk(g: GovState, sha: string -> string)
  {
    && ChainsOk(sha, g.proposals, g.ratifications)
    && g.lastP == PrevOfProposal(g.proposals, |g.proposals|)
    && g.lastR == PrevOfRatification(g.ratifications, |g.ratifications|)
  }

  ghost predicate Inv(g: GovState, sha: string -> string)
  {
    IdsOk(g) && OpenOk(g) && VotesOk(g) && RostersOk(g) && LinksOk(g, sha)
  }

  lemma EmptyInv(self: string, sha: string -> string)
    ensures Inv(Empty(self), sha)
  {
  }

  lemma GovIdInjective(self: string, m: nat, n: nat)
    requires GovId(self, m) == GovId(self, n)
    ensures m == n
  {
    var p := "gov-" + self + "-";
    assert GovId(self, m)[|p|..] == Dec(m) && GovId(self, n)[|p|..] == Dec(n);
    DecInjective(m, n);
  }

  // -------------------------------------------------------------- proposing

  lemma NewIdUnused(g: GovState)
    requires IdsOk(g)
    ensures GovId(g.self, g.seqNo + 1) !in g.index
  {
    var id := GovId(g.self, g.seqNo + 1);
    if id in g.index { GovIdInjective(g.self, g.index[id] + 1, g.seqNo + 1); }
  }

  lemma ProposeIds(g: GovState, p: Proposal)
    requires IdsOk(g) && p.id == GovId(g.self, g.seqNo + 1) && p.seqNo == g.seqNo + 1
    ensures IdsOk(WithProposal(g, p))
  {
    NewIdUnused(g);
  }

  lemma ProposeOpen(g: GovState, p: Proposal)
    requires OpenOk(g) && p.status == Open && OpenCount(g.openBy, p.proposer) < MAX_OPEN_PER_PROPOSER
    ensures OpenOk(WithProposal(g, p))
  {
    assert (g.proposals + [p])[..|g.proposals|] == g.proposals;
  }

  lemma ProposeRosters(g: GovState, p: Proposal)
    requires RostersOk(g) && p.status == Open
    ensures RostersOk(WithProposal(g, p))
  {
    var ps := g.proposals + [p];
    forall node ensures AdmittedIn(ps, node) <==> AdmittedIn(g.proposals, node) {
      if AdmittedIn(g.proposals, node) {
        var q :| q in g.proposals && q.status == Ratified && node in Admits(q);
        assert q in ps;
      }
    }
    forall model ensures AllowedIn(ps, model) <==> AllowedIn(g.proposals, model) {
      if AllowedIn(g.proposals, model) {
        var q :| q in g.proposals && q.status == Ratified && model in Allows(q);
        assert q in ps;
      }
    }
  }

  lemma ProposeLinks(g: GovState, sha: string -> string, p: Proposal)
    requires LinksOk(g, sha) && p.prev == g.lastP && p.hash == sha(ProposalText(p))
    ensures LinksOk(WithProposal(g, p), sha)
  {
    var ps := g.proposals + [p];
    forall i | 0 <= i < |ps| ensures ProposalOk(sha, ps, i) {
      if i < |g.proposals| { assert ProposalOk(sha, g.proposals, i); }
    }
  }

  lemma ProposeVotes(g: GovState, p: Proposal)
    requires VotesOk(g)
    ensures VotesOk(WithProposal(g, p))
  {
  }

  lemma ProposeKeepsInv(g: GovState, sha: string -> string, who: string, kind: string, title: string, payload: Payload,
                        now: int)
    requires Inv(g, sha)
    ensures Inv(Proposed(g, sha, who, kind, title, payload, now), sha)
  {
    var proposer := OrSelf(g, who);
    if ProposeRefusal(g, proposer, kind, title).None? {
      var p := NewProposal(g, sha, proposer, kind, title, payload, now);
      assert ProposalText(p) == ProposalText(p.(hash := ""));
      ProposeIds(g, p);
      ProposeOpen(g, p);
      ProposeVotes(g, p);
      ProposeRosters(g, p);
      ProposeLinks(g, sha, p);
    }
  }

  // -------------------------------------------------------------- ratifying

  lemma RecordVotes(g: GovState, r: Ratification)
    requires VotesOk(g) && r.proposalId in g.index && r.seqNo == |g.ratifications| + 1
    requires r.node !in Voters(g.voted, r.proposalId)
    ensures VotesOk(WithRatification(g, r))
  {
    var after := WithRatification(g, r);
    forall id, node ensures node in Voters(after.voted, id) <==> HasVoted(after.ratifications, id, node) {
      assert HasVoted(after.ratifications, id, node) <==>
        HasVoted(g.ratifications, id, node) || (r.proposalId == id && r.node == node);
    }
    forall i, j | 0 <= i < j < |after.ratifications|
      ensures after.ratifications[i].proposalId != after.ratifications[j].proposalId
        || after.ratifications[i].node != after.ratifications[j].node
    {
      if j == |g.ratifications| && g.ratifications[i].proposalId == r.proposalId {
        assert HasVoted(g.ratifications, r.proposalId, g.ratifications[i].node);
      }
    }
  }

  lemma RecordLinks(g: GovState, sha: string -> string, r: Ratification)
    requires LinksOk(g, sha) && r.prev == g.lastR && r.hash == sha(RatificationText(r))
    ensures LinksOk(WithRatification(g, r), sha)
  {
    var rs := g.ratifications + [r];
    forall i | 0 <= i < |rs| ensures RatificationOk(sha, rs, i) {
      if i < |g.ratifications| { assert RatificationOk(sha, g.ratifications, i); }
    }
  }

  lemma {:induction false} CountOpenUpdate(ps: seq<Proposal>, i: nat, status: Status, who: string)
    requires i < |ps| && ps[i].status == Open && status != Open
    ensures CountOpen(ps[i := ps[i].(status := status)], who) ==
      CountOpen(ps, who) - if ps[i].proposer == who then 1 else 0
  {
    var n := |ps| - 1;
    var qs := ps[i := ps[i].(status := status)];
    if i == n {
      assert qs[..n] == ps[..n];
    } else {
      CountOpenUpdate(ps[..n], i, status, who);
      assert qs[..n] == ps[..n][i := ps[i].(status := status)];
    }
  }

  lemma CloseOpen(g: GovState, i: nat, status: Status)
    requires OpenOk(g) && i < |g.proposals| && g.proposals[i].status == Open && status != Open
    ensures OpenOk(Closed(g, i, status))
  {
    forall who
      ensures OpenCount(Closed(g, i, status).openBy, who) ==
        CountOpen(Closed(g, i, status).proposals, who) <= MAX_OPEN_PER_PROPOSER
    {
      CountOpenUpdate(g.proposals, i, status, who);
    }
  }

  lemma CloseIds(g: GovState, i: nat, status: Status)
    requires IdsOk(g) && i < |g.proposals|
    ensures IdsOk(Closed(g, i, status))
  {
  }

  lemma CloseLinks(g: GovState, sha: string -> string, i: nat, status: Status)
    requires LinksOk(g, sha) && i < |g.proposals|
    ensures LinksOk(Closed(g, i, status), sha)
  {
    var ps := Closed(g, i, status).proposals;
    forall j | 0 <= j < |ps| ensures ProposalOk(sha, ps, j) {
      assert ProposalOk(sha, g.proposals, j);
      assert ProposalText(ps[j]) == ProposalText(g.proposals[j]);
    }
  }

  /** Closing one proposal changes the set of ratified ones by at most that one. */
  lemma RatifiedAfterClose(ps: seq<Proposal>, i: nat, status: Status, q: Proposal)
    requires i < |ps| && ps[i].status == Open && q.status == Ratified
    ensures q in ps[i := ps[i].(status := status)] <==>
      q in ps || (status == Ratified && q == ps[i].(status := Ratified))
  {
    var qs := ps[i := ps[i].(status := status)];
    if q in ps {
      var j :| 0 <= j < |ps| && ps[j] == q;
      assert qs[j] == q;
    }
    assert qs[i] == ps[i].(status := status);
  }

  lemma AdmittedAfterClose(ps: seq<Proposal>, i: nat, status: Status, node: string)
    requires i < |ps| && ps[i].status == Open
    ensures AdmittedIn(ps[i := ps[i].(status := status)], node) <==>
      AdmittedIn(ps, node) || (status == Ratified && node in Admits(ps[i]))
  {
    var qs := ps[i := ps[i].(status := status)];
    var won := ps[i].(status := Ratified);
    RatifiedAfterClose(ps, i, status, won);
    if AdmittedIn(ps, node) {
      var q :| q in ps && q.status == Ratified && node in Admits(q);
      RatifiedAfterClose(ps, i, status, q);
    }
    if AdmittedIn(qs, node) {
      var q :| q in qs && q.status == Ratified && node in Admits(q);
      RatifiedAfterClose(ps, i, status, q);
    }
    assert Admits(won) == Admits(ps[i]);
  }

  lemma AllowedAfterClose(ps: seq<Proposal>, i: nat, status: Status, model: string)
    requires i < |ps| && ps[i].status == Open
    ensures AllowedIn(ps[i := ps[i].(status := status)], model) <==>
      AllowedIn(ps, model) || (status == Ratified && model in Allows(ps[i]))
  {
    var qs := ps[i := ps[i].(status := status)];
    var won := ps[i].(status := Ratified);
    RatifiedAfterClose(ps, i, status, won);
    if AllowedIn(ps, model) {
      var q :| q in ps && q.status == Ratified && model in Allows(q);
      RatifiedAfterClose(ps, i, status, q);
    }
    if AllowedIn(qs, model) {
      var q :| q in qs && q.status == Ratified && model in Allows(q);
      RatifiedAfterClose(ps, i, status, q);
    }
    assert Allows(won) == Allows(ps[i]);
  }

  lemma RecomputeRosters(g: GovState, i: nat, eligible: nat)
    requires RostersOk(g) && i < |g.proposals| && g.proposals[i].status == Open
    ensures RostersOk(Recomputed(g, i, eligible))
  {
    var after := Recomputed(g, i, eligible);
    if after != g {
      var status := after.proposals[i].status;
      forall node ensures node in after.admitted <==> AdmittedIn(after.proposals, node) {
        AdmittedAfterClose(g.proposals, i, status, node);
      }
      forall model ensures model in after.allowed <==> AllowedIn(after.proposals, model) {
        AllowedAfterClose(g.proposals, i, status, model);
      }
    }
  }

  /** Everything the invariant says apart from the rosters. */
  ghost predicate CoreOk(g: GovState, sha: string -> string)
  {
    IdsOk(g) && OpenOk(g) && VotesOk(g) && LinksOk(g, sha)
  }

  lemma CloseKeepsCore(g: GovState, sha: string -> string, i: nat, status: Status)
    requires CoreOk(g, sha) && i < |g.proposals| && g.proposals[i].status == Open && status != Open
    ensures CoreOk(Closed(g, i, status), sha)
  {
    CloseOpen(g, i, status);
    CloseIds(g, i, status);
    CloseLinks(g, sha, i, status);
    assert VotesOk(Closed(g, i, status));
  }

  lemma ExecuteKeepsCore(g: GovState, sha: string -> string, p: Proposal)
    requires CoreOk(g, sha)
    ensures CoreOk(Executed(g, p), sha)
  {
  }

  lemma RatifyingKeepsCore(g: GovState, sha: string -> string, i: nat)
    requires CoreOk(g, sha) && i < |g.proposals| && g.proposals[i].status == Open
    ensures CoreOk(Executed(Closed(g, i, Ratified), g.proposals[i]), sha)
  {
    CloseKeepsCore(g, sha, i, Ratified);
    ExecuteKeepsCore(Closed(g, i, Ratified), sha, g.proposals[i]);
  }

  lemma RecomputeKeepsCore(g: GovState, sha: string -> string, i: nat, eligible: nat)
    requires CoreOk(g, sha) && i < |g.proposals| && g.proposals[i].status == Open
    ensures CoreOk(Recomputed(g, i, eligible), sha)
  {
    var after := Recomputed(g, i, eligible);
    if after == Executed(Closed(g, i, Ratified), g.proposals[i]) {
      RatifyingKeepsCore(g, sha, i);
    } else if after == Closed(g, i, Rejected) {
      CloseKeepsCore(g, sha, i, Rejected);
    }
  }

  lemma RecomputeKeepsInv(g: GovState, sha: string -> string, i: nat, eligible: nat)
    requires Inv(g, sha) && i < |g.proposals| && g.proposals[i].status == Open
    ensures Inv(Recomputed(g, i, eligible), sha)
  {
    RecomputeRosters(g, i, eligible);
    RecomputeKeepsCore(g, sha, i, eligible);
  }

  lemma RecordKeepsInv(g: GovState, sha: string -> string, id: string, node: string, approve: bool, now: int)
    requires Inv(g, sha) && RatifyRefusal(g, id, node).None?
    ensures Inv(WithRatification(g, NewRatification(g, sha, id, node, approve, now)), sha)
  {
    var r := NewRatification(g, sha, id, node, approve, now);
    assert RatificationText(r) == RatificationText(r.(hash := ""));
    RecordVotes(g, r);
    RecordLinks(g, sha, r);
    var after := WithRatification(g, r);
    assert IdsOk(after) && OpenOk(after) && RostersOk(after);
  }

  /** What a ballot that is not refused leaves behind. */
  lemma RatifyIs(g: GovState, sha: string -> string, id: string, who: string, approve: bool, eligible: nat, now: int)
    requires IdsOk(g) && RatifyRefusal(g, id, OrSelf(g, who)).None?
    ensures
      var m := WithRatification(g, NewRatification(g, sha, id, OrSelf(g, who), approve, now));
      && id in g.index && g.index[id] < |g.proposals| && g.proposals[g.index[id]].status == Open
      && g.proposals[g.index[id]].id == id && m.proposals == g.proposals
      && RatifiedBy(g, sha, id, who, approve, eligible, now) == Recomputed(m, g.index[id], eligible)
  {
  }

  lemma RatifyKeepsInv(g: GovState, sha: string -> string, id: string, who: string, approve: bool, eligible: nat,
                       now: int)
    requires Inv(g, sha)
    ensures Inv(RatifiedBy(g, sha, id, who, approve, eligible, now), sha)
  {
    var node := OrSelf(g, who);
    if RatifyRefusal(g, id, node).None? {
      RatifyIs(g, sha, id, who, approve, eligible, now);
      RecordKeepsInv(g, sha, id, node, approve, now);
      RecomputeKeepsInv(WithRatification(g, NewRatification(g, sha, id, node, approve, now)), sha, g.index[id],
        eligible);
    }
  }

  // -------------------------------------------------------------- reloading

  lemma {:induction false} IndexFound(ps: seq<Proposal>, self: string, i: nat)
    requires (forall j :: 0 <= j < |ps| ==> ps[j].id == GovId(self, j + 1)) && i < |ps|
    ensures ps[i].id in IndexOf(ps) && IndexOf(ps)[ps[i].id] == i
  {
    var n := |ps| - 1;
    if i < n {
      IndexFound(ps[..n], self, i);
      if ps[i].id == ps[n].id { GovIdInjective(self, i + 1, n + 1); }
    }
  }

  lemma {:induction false} IndexPoints(ps: seq<Proposal>, id: string)
    requires id in IndexOf(ps)
    ensures IndexOf(ps)[id] < |ps| && ps[IndexOf(ps)[id]].id == id
  {
    var n := |ps| - 1;
    if ps[n].id != id { IndexPoints(ps[..n], id); }
  }

  lemma IndexFinds(ps: seq<Proposal>, self: string)
    requires forall i :: 0 <= i < |ps| ==> ps[i].id == GovId(self, i + 1)
    ensures forall i :: 0 <= i < |ps| ==> ps[i].id in IndexOf(ps) && IndexOf(ps)[ps[i].id] == i
    ensures forall id :: id in IndexOf(ps) ==> IndexOf(ps)[id] < |ps| && ps[IndexOf(ps)[id]].id == id
  {
    forall i | 0 <= i < |ps| ensures ps[i].id in IndexOf(ps) && IndexOf(ps)[ps[i].id] == i {
      IndexFound(ps, self, i);
    }
    forall id | id in IndexOf(ps) ensures IndexOf(ps)[id] < |ps| && ps[IndexOf(ps)[id]].id == id {
      IndexPoints(ps, id);
    }
  }

  lemma {:induction false} OpenCounts(ps: seq<Proposal>, who: string)
    ensures OpenCount(OpenOf(ps), who) == CountOpen(ps, who)
  {
    if ps != [] { OpenCounts(ps[..|ps| - 1], who); }
  }

  lemma {:induction false} VotedFinds(rs: seq<Ratification>, id: string, node: string)
    ensures node in Voters(VotedOf(rs), id) <==> HasVoted(rs, id, node)
  {
    if rs != [] {
      var n := |rs| - 1;
      VotedFinds(rs[..n], id, node);
      assert rs == rs[..n] + [rs[n]];
      assert HasVoted(rs, id, node) <==> HasVoted(rs[..n], id, node) || (rs[n].proposalId == id && rs[n].node == node);
    }
  }

  lemma {:induction false} RebuiltRosters(g: GovState, ps: seq<Proposal>, x: string)
    requires g.admitted == {} && g.allowed == {}
    ensures x in Rebuilt(g, ps).admitted <==> AdmittedIn(ps, x)
    ensures x in Rebuilt(g, ps).allowed <==> AllowedIn(ps, x)
    ensures Rebuilt(g, ps) == g.(admitted := Rebuilt(g, ps).admitted, allowed := Rebuilt(g, ps).allowed)
  {
    if ps != [] {
      var n := |ps| - 1;
      RebuiltRosters(g, ps[..n], x);
      assert ps == ps[..n] + [ps[n]];
      assert AdmittedIn(ps, x) <==> AdmittedIn(ps[..n], x) || (ps[n].status == Ratified && x in Admits(ps[n]));
      assert AllowedIn(ps, x) <==> AllowedIn(ps[..n], x) || (ps[n].status == Ratified && x in Allows(ps[n]));
    }
  }

  /** The ledger a restart builds from what was saved. */
  function Reloaded(g: GovState, reencode: string -> string): GovState
  {
    Applied(Empty(g.self), Saved(g, reencode))
  }

  /** Equal up to absent and zero entries of the two counting maps. */
  ghost predicate SameLedger(a: GovState, b: GovState)
  {
    && a.self == b.self && a.proposals == b.proposals && a.ratifications == b.ratifications
    && a.index == b.index && a.seqNo == b.seqNo && a.lastP == b.lastP && a.lastR == b.lastR
    && a.admitted == b.admitted && a.allowed == b.allowed
    && (forall who :: OpenCount(a.openBy, who) == OpenCount(b.openBy, who))
    && (forall id :: Voters(a.voted, id) == Voters(b.voted, id))
  }

  lemma SameLedgerInv(a: GovState, b: GovState, sha: string -> string)
    requires Inv(a, sha) && SameLedger(a, b)
    ensures Inv(b, sha)
  {
  }

  function Untouched(text: string): string { text }

  /** The state before the rosters are rebuilt. */
  function Reindexed(g: GovState, ps: seq<Proposal>): GovState
  {
    Empty(g.self).(
      proposals := ps, ratifications := g.ratifications, lastP := g.lastP, lastR := g.lastR, seqNo := g.seqNo,
      index := IndexOf(ps), voted := VotedOf(g.ratifications), openBy := OpenOf(ps))
  }

  lemma SavedUntouched(ps: seq<Proposal>)
    ensures SavedProposals(ps, Untouched) == ps
  {
    forall i | 0 <= i < |ps| ensures SavedProposals(ps, Untouched)[i] == ps[i] {
      assert Untouched(ps[i].payload.text) == ps[i].payload.text;
    }
  }

  lemma ReloadIs(g: GovState)
    ensures
      var b := Rebuilt(Reindexed(g, g.proposals), g.proposals);
      && Reloaded(g, Untouched) == b
      && b == Reindexed(g, g.proposals).(admitted := b.admitted, allowed := b.allowed)
  {
    SavedUntouched(g.proposals);
    RebuiltRosters(Reindexed(g, g.proposals), g.proposals, "");
  }

  lemma ReloadRosters(g: GovState)
    requires RostersOk(g)
    ensures Reloaded(g, Untouched).admitted == g.admitted && Reloaded(g, Untouched).allowed == g.allowed
  {
    ReloadIs(g);
    var b := Rebuilt(Reindexed(g, g.proposals), g.proposals);
    forall x ensures (x in g.admitted <==> x in b.admitted) && (x in g.allowed <==> x in b.allowed) {
      RebuiltRosters(Reindexed(g, g.proposals), g.proposals, x);
    }
  }

  lemma ReloadVoters(g: GovState, id: string)
    requires VotesOk(g)
    ensures Voters(g.voted, id) == Voters(VotedOf(g.ratifications), id)
  {
    forall node ensures node in Voters(g.voted, id) <==> node in Voters(VotedOf(g.ratifications), id) {
      VotedFinds(g.ratifications, id, node);
    }
  }

  /** Saving and restarting rebuilds the same indexes, counters and rosters. */
  lemma ReloadSame(g: GovState, sha: string -> string)
    requires Inv(g, sha)
    ensures SameLedger(g, Reloaded(g, Untouched))
  {
    ReloadIs(g);
    ReloadRosters(g);
    IndexFinds(g.proposals, g.self);
    SameIndexes(g, IndexOf(g.proposals));
    forall who ensures OpenCount(g.openBy, who) == OpenCount(OpenOf(g.proposals), who) {
      OpenCounts(g.proposals, who);
    }
    forall id ensures Voters(g.voted, id) == Voters(VotedOf(g.ratifications), id) {
      ReloadVoters(g, id);
    }
  }

  lemma SameIndexes(g: GovState, index: map<string, nat>)
    requires IdsOk(g)
    requires forall i :: 0 <= i < |g.proposals| ==> g.proposals[i].id in index && index[g.proposals[i].id] == i
    requires forall id :: id in index ==> index[id] < |g.proposals| && g.proposals[index[id]].id == id
    ensures g.index == index
  {
    forall id ensures id in g.index <==> id in index
              ensures id in g.index && id in index ==> g.index[id] == index[id]
    {
      if id in g.index { assert g.proposals[g.index[id]].id == id; }
      if id in index { assert g.proposals[index[id]].id == id; }
    }
  }

  // -------------------------------------------------------------- whole runs

  datatype Op =
    | ProposeOp(who: string, kind: string, title: string, payload: Payload, now: int)
    | RatifyOp(id: string, who: string, approve: bool, eligible: nat, now: int)
    | RestartOp

  ghost function Step(g: GovState, sha: string -> string, op: Op): GovState
    requires Inv(g, sha)
  {
    match op
    case ProposeOp(who, kind, title, payload, now) => Proposed(g, sha, who, kind, title, payload, now)
    case RatifyOp(id, who, approve, eligible, now) => RatifiedBy(g, sha, id, who, approve, eligible, now)
    case RestartOp => Reloaded(g, Untouched)
  }

  lemma StepKeepsInv(g: GovState, sha: string -> string, op: Op)
    requires Inv(g, sha)
    ensures Inv(Step(g, sha, op), sha)
  {
    match op
    case ProposeOp(who, kind, title, payload, now) => ProposeKeepsInv(g, sha, who, kind, title, payload, now);
    case RatifyOp(id, who, approve, eligible, now) => RatifyKeepsInv(g, sha, id, who, approve, eligible, now);
    case RestartOp =>
      ReloadSame(g, sha);
      SameLedgerInv(g, Reloaded(g, Untouched), sha);
  }

  /** Every reachable ledger satisfies the invariant. */
  ghost function Run(g: GovState, sha: string -> string, ops: seq<Op>): (after: GovState)
    requires Inv(g, sha)
    ensures Inv(after, sha)
  {
    if ops == [] then g
    else
      var before := Run(g, sha, ops[..|ops| - 1]);
      StepKeepsInv(before, sha, ops[|ops| - 1]);
      Step(before, sha, ops[|ops| - 1])
  }

  /** Whatever is called on a new ledger, the invariant holds. */
  lemma NewLedgerInv(self: string, sha: string -> string, ops: seq<Op>)
    ensures Inv(Empty(self), sha) && Inv(Run(Empty(self), sha, ops), sha)
  {
    EmptyInv(self, sha);
  }

  /** b extends a: proposals stay where they are, only an open one may change, and only its status. */
  ghost predicate Extends(a: GovState, b: GovState)
  {
    && |a.proposals| <= |b.proposals| && a.ratifications <= b.ratifications && a.self == b.self
    && (forall i :: 0 <= i < |a.proposals| ==>
         && b.proposals[i] == a.proposals[i].(status := b.proposals[i].status)
         && (a.proposals[i].status != Open ==> b.proposals[i] == a.proposals[i]))
    && (forall id :: id in a.index ==> id in b.index && b.index[id] == a.index[id])
  }

  lemma ProposeExtends(g: GovState, p: Proposal)
    requires IdsOk(g) && p.id == GovId(g.self, g.seqNo + 1)
    ensures Extends(g, WithProposal(g, p))
  {
    NewIdUnused(g);
  }

  lemma RecordExtends(g: GovState, r: Ratification)
    ensures Extends(g, WithRatification(g, r))
  {
  }

  lemma RecomputeExtends(g: GovState, i: nat, eligible: nat)
    requires i < |g.proposals| && g.proposals[i].status == Open
    ensures Extends(g, Recomputed(g, i, eligible))
  {
  }

  lemma ExtendsChain(a: GovState, b: GovState, c: GovState)
    requires Extends(a, b) && Extends(b, c)
    ensures Extends(a, c)
  {
    forall i | 0 <= i < |a.proposals| ensures c.proposals[i] == a.proposals[i].(status := c.proposals[i].status) {
      assert b.proposals[i] == a.proposals[i].(status := b.proposals[i].status);
    }
  }

  lemma RatifyExtends(g: GovState, sha: string -> string, id: string, who: string, approve: bool, eligible: nat,
                      now: int)
    requires IdsOk(g)
    ensures Extends(g, RatifiedBy(g, sha, id, who, approve, eligible, now))
  {
    if RatifyRefusal(g, id, OrSelf(g, who)).None? {
      RatifyIs(g, sha, id, who, approve, eligible, now);
      var r := NewRatification(g, sha, id, OrSelf(g, who), approve, now);
      var m := WithRatification(g, r);
      RecordExtends(g, r);
      RecomputeExtends(m, g.index[id], eligible);
      ExtendsChain(g, m, Recomputed(m, g.index[id], eligible));
    }
  }

  lemma StepExtends(g: GovState, sha: string -> string, op: Op)
    requires Inv(g, sha)
    ensures Extends(g, Step(g, sha, op))
  {
    match op
    case ProposeOp(who, kind, title, payload, now) =>
      ProposeExtends(g, NewProposal(g, sha, OrSelf(g, who), kind, title, payload, now));
    case RatifyOp(id, who, approve, eligible, now) => RatifyExtends(g, sha, id, who, approve, eligible, now);
    case RestartOp =>
      ReloadSame(g, sha);
      SameExtends(g, Reloaded(g, Untouched));
  }

  lemma SameExtends(a: GovState, b: GovState)
    requires SameLedger(a, b)
    ensures Extends(a, b)
  {
  }

  /** Both lists only grow, and a closed proposal never changes again. */
  lemma {:induction false} RunExtends(g: GovState, sha: string -> string, ops: seq<Op>)
    requires Inv(g, sha)
    ensures Extends(g, Run(g, sha, ops))
  {
    if ops != [] {
      var before := Run(g, sha, ops[..|ops| - 1]);
      RunExtends(g, sha, ops[..|ops| - 1]);
      StepExtends(before, sha, ops[|ops| - 1]);
      ExtendsChain(g, before, Run(g, sha, ops));
    }
  }

  // ------------------------------------------------- how far the chains reach

  function Texts(ps: seq<Proposal>): set<string>
  {
    set p | p in ps :: ProposalText(p)
  }

  lemma PayloadInText(p: Proposal, text: string)
    ensures ProposalText(p.(payload := p.payload.(text := text))) == ProposalText(p) <==> text == p.payload.text
  {
    var head := p.id + "|" + p.kind + "|" + p.title + "|";
    var tail := "|" + p.proposer + "|" + Signed(p.createdAt);
    assert ProposalText(p) == head + p.payload.text + tail;
    assert ProposalText(p.(payload := p.payload.(text := text))) == head + text + tail;
    if head + text + tail == head + p.payload.text + tail {
      assert |text| == |p.payload.text|;
      assert (head + text + tail)[|head|..|head| + |text|] == text;
      assert (head + p.payload.text + tail)[|head|..|head| + |text|] == p.payload.text;
    }
  }

  lemma ReencodedIff(ps: seq<Proposal>, sha: string -> string, reencode: string -> string)
    requires CollisionFree(sha, Texts(ps) + Texts(SavedProposals(ps, reencode)))
    requires forall i :: 0 <= i < |ps| ==> ProposalOk(sha, ps, i)
    ensures
      (forall i :: 0 <= i < |ps| ==> ProposalOk(sha, SavedProposals(ps, reencode), i)) <==>
      (forall i :: 0 <= i < |ps| ==> reencode(ps[i].payload.text) == ps[i].payload.text)
  {
    var qs := SavedProposals(ps, reencode);
    forall i | 0 <= i < |ps|
      ensures ProposalOk(sha, qs, i) <==> reencode(ps[i].payload.text) == ps[i].payload.text
    {
      assert ProposalOk(sha, ps, i);
      assert ps[i] in ps && qs[i] in qs;
      assert ProposalText(ps[i]) in Texts(ps) && ProposalText(qs[i]) in Texts(qs);
      PayloadInText(ps[i], reencode(ps[i].payload.text));
    }
  }

  /**
   A ledger whose chains hold verifies after a restart exactly when saving left
   every payload text byte for byte as it was.
   */
  lemma ReloadVerifiesIff(g: GovState, sha: string -> string, reencode: string -> string)
    requires Inv(g, sha) && CollisionFree(sha, Texts(g.proposals) + Texts(SavedProposals(g.proposals, reencode)))
    ensures
      ChainsOk(sha, Reloaded(g, reencode).proposals, Reloaded(g, reencode).ratifications) <==>
        forall i :: 0 <= i < |g.proposals| ==> reencode(g.proposals[i].payload.text) == g.proposals[i].payload.text
  {
    ReloadKeepsLists(g, reencode);
    ReencodedIff(g.proposals, sha, reencode);
  }

  lemma ReloadKeepsLists(g: GovState, reencode: string -> string)
    ensures Reloaded(g, reencode).proposals == SavedProposals(g.proposals, reencode)
    ensures Reloaded(g, reencode).ratifications == g.ratifications
  {
    var ps := SavedProposals(g.proposals, reencode);
    RebuiltRosters(Reindexed(g, ps), ps, "");
  }

  /** The list with every prev set to the hash before it. */
  function Relinked(ps: seq<Proposal>): (r: seq<Proposal>)
    ensures |r| == |ps|
  {
    if ps == [] then []
    else
      var n := |ps| - 1;
      Relinked(ps[..n]) + [ps[n].(prev := if n == 0 then "" else ps[n - 1].hash)]
  }

  lemma {:induction false} RelinkedAt(ps: seq<Proposal>, i: nat)
    requires i < |ps|
    ensures Relinked(ps)[i] == ps[i].(prev := PrevOfProposal(ps, i))
  {
    var n := |ps| - 1;
    if i < n {
      RelinkedAt(ps[..n], i);
      assert PrevOfProposal(ps[..n], i) == PrevOfProposal(ps, i);
    }
  }

  /**
   The hashes leave out prev and status. So any selection of proposals, in any
   order and with any status, verifies once it is relinked, exactly when each
   proposal carries its own hash.
   */
  lemma RelinkVerifiesIff(sha: string -> string, ps: seq<Proposal>)
    ensures ChainsOk(sha, Relinked(ps), []) <==> forall i :: 0 <= i < |ps| ==> OwnHash(sha, ps[i])
  {
    var qs := Relinked(ps);
    if ChainsOk(sha, qs, []) {
      forall i | 0 <= i < |ps| ensures OwnHash(sha, ps[i]) {
        assert ProposalOk(sha, qs, i);
        RelinkedOk(sha, ps, i);
      }
    }
    if forall i :: 0 <= i < |ps| ==> OwnHash(sha, ps[i]) {
      forall i | 0 <= i < |qs| ensures ProposalOk(sha, qs, i) {
        RelinkedOk(sha, ps, i);
      }
    }
  }

  predicate OwnHash(sha: string -> string, p: Proposal)
  {
    p.hash == sha(ProposalText(p))
  }

  lemma RelinkedOk(sha: string -> string, ps: seq<Proposal>, i: nat)
    requires i < |ps|
    ensures ProposalOk(sha, Relinked(ps), i) <==> OwnHash(sha, ps[i])
  {
    RelinkedAt(ps, i);
    if i > 0 { RelinkedAt(ps, i - 1); }
    assert ProposalText(Relinked(ps)[i]) == ProposalText(ps[i]);
  }
}
