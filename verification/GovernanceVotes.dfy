// Voting on one proposal: the outcome as a function of the ballots that were
// cast, and exactly when their order does not matter.

module GovernanceVotes {
  import opened Governance
  import opened GovernanceRuns

  function Count(votes: seq<bool>, side: bool): nat
  {
    if votes == [] then 0
    else Count(votes[..|votes| - 1], side) + if votes[|votes| - 1] == side then 1 else 0
  }

  /** The outcome when ballots arrive one by one and the first side to reach need wins. */
  function Decide(votes: seq<bool>, need: int): Status
  {
    if votes == [] then Open
    else
      var before := Decide(votes[..|votes| - 1], need);
      if before != Open then before
      else if Count(votes, true) >= need then Ratified
      else if Count(votes, false) >= need then Rejected
      else Open
  }

  // ------------------------------------------------------- the majority rule

  /** need is the least number of votes that is at least two thirds of the electorate. */
  lemma SupermajorityIsLeast(n: nat, k: nat)
    requires n > 0
    ensures k >= Supermajority(n) <==> 3 * k >= 2 * n
  {
  }

  /** No electorate has enough votes for both sides. */
  lemma NotBothSides(n: nat, yes: nat, no: nat)
    requires yes + no <= if n == 0 then 1 else n
    ensures Need(n) >= 1 && !(yes >= Need(n) && no >= Need(n))
  {
  }

  // ---------------------------------------------------- order of the ballots

  lemma {:induction false} CountsAdd(votes: seq<bool>)
    ensures Count(votes, true) + Count(votes, false) == |votes|
  {
    if votes != [] { CountsAdd(votes[..|votes| - 1]); }
  }

  /** When the two sides cannot both win, the totals settle the outcome. */
  lemma {:induction false} DecideByTotals(votes: seq<bool>, need: int)
    requires need >= 1 && !(Count(votes, true) >= need && Count(votes, false) >= need)
    ensures Decide(votes, need) ==
      if Count(votes, true) >= need then Ratified
      else if Count(votes, false) >= need then Rejected
      else Open
  {
    if votes != [] { DecideByTotals(votes[..|votes| - 1], need); }
  }

  function Repeat(side: bool, n: nat): (s: seq<bool>)
    ensures |s| == n
  {
    if n == 0 then [] else Repeat(side, n - 1) + [side]
  }

  lemma {:induction false} RepeatCounts(votes: seq<bool>, side: bool, n: nat)
    ensures Count(votes + Repeat(side, n), side) == Count(votes, side) + n
    ensures Count(votes + Repeat(side, n), !side) == Count(votes, !side)
  {
    if n == 0 {
      assert votes + [] == votes;
    } else {
      RepeatCounts(votes, side, n - 1);
      var longer := votes + Repeat(side, n);
      assert longer[..|longer| - 1] == votes + Repeat(side, n - 1);
      assert longer[|longer| - 1] == side;
    }
  }

  lemma {:induction false} ClosedStays(votes: seq<bool>, more: seq<bool>, need: int)
    requires Decide(votes, need) != Open
    ensures Decide(votes + more, need) == Decide(votes, need)
  {
    if more == [] {
      assert votes + more == votes;
    } else {
      ClosedStays(votes, more[..|more| - 1], need);
      assert (votes + more)[..|votes + more| - 1] == votes + more[..|more| - 1];
    }
  }

  /** One side's ballots first: that side wins if it has enough. */
  lemma FirstSideWins(side: bool, first: nat, second: nat, need: int)
    requires need >= 1 && first >= need
    ensures Decide(Repeat(side, first) + Repeat(!side, second), need) == if side then Ratified else Rejected
  {
    var votes := Repeat(side, first);
    RepeatCounts([], side, first);
    assert [] + votes == votes;
    DecideByTotals(votes, need);
    ClosedStays(votes, Repeat(!side, second), need);
  }

  ghost predicate OrderIrrelevant(yes: nat, no: nat, need: int)
  {
    forall v, w: seq<bool> ::
      Count(v, true) == yes && Count(v, false) == no && Count(w, true) == yes && Count(w, false) == no ==>
        Decide(v, need) == Decide(w, need)
  }

  lemma BlockCounts(side: bool, first: nat, second: nat)
    ensures Count(Repeat(side, first) + Repeat(!side, second), side) == first
    ensures Count(Repeat(side, first) + Repeat(!side, second), !side) == second
  {
    RepeatCounts([], side, first);
    assert [] + Repeat(side, first) == Repeat(side, first);
    RepeatCounts(Repeat(side, first), !side, second);
  }

  /** Two orders of the same ballots with opposite outcomes, when both sides have enough. */
  lemma Conflict(yes: nat, no: nat, need: int) returns (v: seq<bool>, w: seq<bool>)
    requires need >= 1 && yes >= need && no >= need
    ensures Count(v, true) == yes && Count(v, false) == no && Count(w, true) == yes && Count(w, false) == no
    ensures Decide(v, need) == Ratified && Decide(w, need) == Rejected
  {
    v, w := Repeat(true, yes) + Repeat(false, no), Repeat(false, no) + Repeat(true, yes);
    BlockCounts(true, yes, no);
    BlockCounts(false, no, yes);
    FirstSideWins(true, yes, no, need);
    FirstSideWins(false, no, yes, need);
  }

  /** The order of the ballots is irrelevant exactly when not both sides reach the threshold. */
  lemma OrderIrrelevantIff(yes: nat, no: nat, need: int)
    requires need >= 1
    ensures OrderIrrelevant(yes, no, need) <==> !(yes >= need && no >= need)
  {
    if yes >= need && no >= need {
      var v, w := Conflict(yes, no, need);
    } else {
      forall v, w: seq<bool> |
        Count(v, true) == yes && Count(v, false) == no && Count(w, true) == yes && Count(w, false) == no
        ensures Decide(v, need) == Decide(w, need)
      {
        DecideByTotals(v, need);
        DecideByTotals(w, need);
      }
    }
  }

  // ------------------------------------------------- ballots cast in a run

  datatype Ballot = Ballot(node: string, yes: bool)

  function Sides(bs: seq<Ballot>): (s: seq<bool>)
    ensures |s| == |bs|
  {
    if bs == [] then [] else Sides(bs[..|bs| - 1]) + [bs[|bs| - 1].yes]
  }

  function NodesOf(bs: seq<Ballot>): set<string>
  {
    set b | b in bs :: b.node
  }

  function OrThis(self: string, who: string): string
  {
    if who == "" then self else who
  }

  /** What one more call adds to the ballots cast. */
  function CastMore(bs: seq<Ballot>, op: Op, id: string, self: string): seq<Ballot>
  {
    if op.RatifyOp? && op.id == id && OrThis(self, op.who) !in NodesOf(bs)
    then bs + [Ballot(OrThis(self, op.who), op.approve)] else bs
  }

  /** The ballots on one proposal in a run: the first one of every node, refused or not. */
  function Cast(ops: seq<Op>, id: string, self: string): seq<Ballot>
  {
    if ops == [] then [] else CastMore(Cast(ops[..|ops| - 1], id, self), ops[|ops| - 1], id, self)
  }

  ghost predicate Electorate(ops: seq<Op>, n: nat)
  {
    forall op :: op in ops && op.RatifyOp? ==> op.eligible == n
  }

  /** A proposal is where its ballots put it, and while it is open they are all recorded. */
  ghost predicate Tracks(g: GovState, id: string, bs: seq<Ballot>, need: int)
  {
    && id in g.index && g.index[id] < |g.proposals| && g.proposals[g.index[id]].id == id
    && g.proposals[g.index[id]].status == Decide(Sides(bs), need)
    && (g.proposals[g.index[id]].status == Open ==> Tallied(g, id, bs))
  }

  ghost predicate Tallied(g: GovState, id: string, bs: seq<Ballot>)
  {
    && Ballots(g.ratifications, id, true) == Count(Sides(bs), true)
    && Ballots(g.ratifications, id, false) == Count(Sides(bs), false)
    && Voters(g.voted, id) == NodesOf(bs)
  }

  lemma SidesMore(bs: seq<Ballot>, b: Ballot, need: int)
    ensures Sides(bs + [b]) == Sides(bs) + [b.yes]
    ensures NodesOf(bs + [b]) == NodesOf(bs) + {b.node}
    ensures Count(Sides(bs + [b]), true) == Count(Sides(bs), true) + if b.yes then 1 else 0
    ensures Count(Sides(bs + [b]), false) == Count(Sides(bs), false) + if b.yes then 0 else 1
    ensures Decide(Sides(bs + [b]), need) ==
      if Decide(Sides(bs), need) != Open then Decide(Sides(bs), need)
      else if Count(Sides(bs + [b]), true) >= need then Ratified
      else if Count(Sides(bs + [b]), false) >= need then Rejected
      else Open
  {
    assert (bs + [b])[..|bs|] == bs;
    assert (Sides(bs) + [b.yes])[..|bs|] == Sides(bs);
  }

  lemma BallotsMore(rs: seq<Ratification>, r: Ratification, id: string, side: bool)
    ensures Ballots(rs + [r], id, side) ==
      Ballots(rs, id, side) + if r.proposalId == id && r.approve == side then 1 else 0
  {
    assert (rs + [r])[..|rs|] == rs;
  }

  lemma ProposeTracks(g: GovState, p: Proposal, id: string, bs: seq<Ballot>, need: int)
    requires IdsOk(g) && Tracks(g, id, bs, need) && p.id == GovId(g.self, g.seqNo + 1)
    ensures Tracks(WithProposal(g, p), id, bs, need)
  {
    NewIdUnused(g);
  }

  lemma RecordOther(g: GovState, r: Ratification, id: string, bs: seq<Ballot>, need: int)
    requires Tracks(g, id, bs, need) && r.proposalId != id
    ensures Tracks(WithRatification(g, r), id, bs, need)
  {
    var m := WithRatification(g, r);
    BallotsMore(g.ratifications, r, id, true);
    BallotsMore(g.ratifications, r, id, false);
    assert m.proposals == g.proposals && m.index == g.index;
    assert Voters(m.voted, id) == Voters(g.voted, id);
    assert Ballots(m.ratifications, id, true) == Ballots(g.ratifications, id, true);
    assert Ballots(m.ratifications, id, false) == Ballots(g.ratifications, id, false);
  }

  lemma RecomputeOther(g: GovState, i: nat, eligible: nat, id: string, bs: seq<Ballot>, need: int)
    requires Tracks(g, id, bs, need) && i < |g.proposals| && i != g.index[id]
    ensures Tracks(Recomputed(g, i, eligible), id, bs, need)
  {
  }

  lemma OtherBallotTracks(g: GovState, r: Ratification, eligible: nat, id: string, bs: seq<Ballot>, need: int)
    requires IdsOk(g) && Tracks(g, id, bs, need) && r.proposalId != id && r.proposalId in g.index
    ensures Tracks(Recomputed(WithRatification(g, r), g.index[r.proposalId], eligible), id, bs, need)
  {
    assert g.proposals[g.index[r.proposalId]].id == r.proposalId;
    RecordOther(g, r, id, bs, need);
    RecomputeOther(WithRatification(g, r), g.index[r.proposalId], eligible, id, bs, need);
  }

  lemma RecordOwn(g: GovState, r: Ratification, bs: seq<Ballot>, need: int)
    requires Tallied(g, r.proposalId, bs)
    ensures Tallied(WithRatification(g, r), r.proposalId, bs + [Ballot(r.node, r.approve)])
  {
    BallotsMore(g.ratifications, r, r.proposalId, true);
    BallotsMore(g.ratifications, r, r.proposalId, false);
    SidesMore(bs, Ballot(r.node, r.approve), need);
  }

  lemma OwnBallotTracks(g: GovState, r: Ratification, n: nat, bs: seq<Ballot>)
    requires IdsOk(g) && Tracks(g, r.proposalId, bs, Need(n)) && g.proposals[g.index[r.proposalId]].status == Open
    ensures Tracks(
      Recomputed(WithRatification(g, r), g.index[r.proposalId], n), r.proposalId,
      bs + [Ballot(r.node, r.approve)], Need(n))
  {
    RecordOwn(g, r, bs, Need(n));
    SidesMore(bs, Ballot(r.node, r.approve), Need(n));
    assert g.proposals[g.index[r.proposalId]].id == r.proposalId;
  }

  lemma RatifyTracks(g: GovState, sha: string -> string, target: string, who: string, approve: bool, n: nat, now: int,
                     id: string, bs: seq<Ballot>)
    requires Inv(g, sha) && Tracks(g, id, bs, Need(n))
    ensures
      var node := OrSelf(g, who);
      Tracks(RatifiedBy(g, sha, target, who, approve, n, now), id,
        if target == id && node !in NodesOf(bs) then bs + [Ballot(node, approve)] else bs, Need(n))
  {
    var node := OrSelf(g, who);
    SidesMore(bs, Ballot(node, approve), Need(n));
    if RatifyRefusal(g, target, node).None? {
      RatifyIs(g, sha, target, who, approve, n, now);
      var r := NewRatification(g, sha, target, node, approve, now);
      if target == id { OwnBallotTracks(g, r, n, bs); } else { OtherBallotTracks(g, r, n, id, bs, Need(n)); }
    }
  }

  lemma SameTracks(a: GovState, b: GovState, id: string, bs: seq<Ballot>, need: int)
    requires SameLedger(a, b) && Tracks(a, id, bs, need)
    ensures Tracks(b, id, bs, need)
  {
  }

  lemma ProposeOpTracks(g: GovState, sha: string -> string, op: Op, id: string, bs: seq<Ballot>, need: int)
    requires Inv(g, sha) && Tracks(g, id, bs, need) && op.ProposeOp?
    ensures Tracks(Step(g, sha, op), id, bs, need)
  {
    ProposeTracks(g, NewProposal(g, sha, OrSelf(g, op.who), op.kind, op.title, op.payload, op.now), id, bs, need);
  }

  lemma RestartTracks(g: GovState, sha: string -> string, id: string, bs: seq<Ballot>, need: int)
    requires Inv(g, sha) && Tracks(g, id, bs, need)
    ensures Tracks(Step(g, sha, RestartOp), id, bs, need)
  {
    ReloadSame(g, sha);
    SameTracks(g, Reloaded(g, Untouched), id, bs, need);
  }

  lemma RatifyOpTracks(g: GovState, sha: string -> string, op: Op, n: nat, id: string, bs: seq<Ballot>)
    requires Inv(g, sha) && Tracks(g, id, bs, Need(n)) && op.RatifyOp? && op.eligible == n
    ensures Tracks(Step(g, sha, op), id, CastMore(bs, op, id, g.self), Need(n))
  {
    RatifyTracks(g, sha, op.id, op.who, op.approve, n, op.now, id, bs);
  }

  lemma StepTracks(g: GovState, sha: string -> string, op: Op, n: nat, id: string, bs: seq<Ballot>)
    requires Inv(g, sha) && Tracks(g, id, bs, Need(n)) && (op.RatifyOp? ==> op.eligible == n)
    ensures Tracks(Step(g, sha, op), id, CastMore(bs, op, id, g.self), Need(n))
  {
    match op
    case ProposeOp(who, kind, title, payload, now) => ProposeOpTracks(g, sha, op, id, bs, Need(n));
    case RatifyOp(target, who, approve, eligible, now) => RatifyOpTracks(g, sha, op, n, id, bs);
    case RestartOp => RestartTracks(g, sha, id, bs, Need(n));
  }

  /** A proposal nobody has voted on yet. */
  ghost predicate NewlyOpen(g: GovState, id: string)
  {
    && id in g.index && g.index[id] < |g.proposals| && g.proposals[g.index[id]].status == Open
    && Voters(g.voted, id) == {}
  }

  lemma {:induction false} NoVotersNoBallots(rs: seq<Ratification>, id: string, side: bool)
    requires forall r :: r in rs ==> r.proposalId != id
    ensures Ballots(rs, id, side) == 0
  {
    if rs != [] { NoVotersNoBallots(rs[..|rs| - 1], id, side); }
  }

  lemma NewlyOpenTracks(g: GovState, sha: string -> string, id: string, need: int)
    requires Inv(g, sha) && NewlyOpen(g, id)
    ensures Tracks(g, id, [], need)
  {
    forall r | r in g.ratifications ensures r.proposalId != id {
      assert r.proposalId == id ==> HasVoted(g.ratifications, id, r.node);
    }
    NoVotersNoBallots(g.ratifications, id, true);
    NoVotersNoBallots(g.ratifications, id, false);
  }

  lemma {:induction false} RunTracks(g: GovState, sha: string -> string, ops: seq<Op>, n: nat, id: string)
    requires Inv(g, sha) && NewlyOpen(g, id) && Electorate(ops, n)
    ensures Run(g, sha, ops).self == g.self && Tracks(Run(g, sha, ops), id, Cast(ops, id, g.self), Need(n))
  {
    RunExtends(g, sha, ops);
    if ops == [] {
      NewlyOpenTracks(g, sha, id, Need(n));
    } else {
      var k := |ops| - 1;
      RunTracks(g, sha, ops[..k], n, id);
      StepTracks(Run(g, sha, ops[..k]), sha, ops[k], n, id, Cast(ops[..k], id, g.self));
    }
  }

  /**
   With a fixed electorate of n and at most n voters, a proposal is ratified
   exactly when the approvals cast reach the threshold, rejected exactly when
   the rejections do, in whatever order and among whatever other calls they came.
   */
  lemma OutcomeIsTotals(g: GovState, sha: string -> string, ops: seq<Op>, n: nat, id: string)
    requires Inv(g, sha) && NewlyOpen(g, id) && Electorate(ops, n)
    requires |Cast(ops, id, g.self)| <= if n == 0 then 1 else n
    ensures
      var votes := Sides(Cast(ops, id, g.self));
      var after := Run(g, sha, ops);
      && id in after.index && after.index[id] < |after.proposals|
      && after.proposals[after.index[id]].status ==
           if Count(votes, true) >= Need(n) then Ratified
           else if Count(votes, false) >= Need(n) then Rejected
           else Open
  {
    var votes := Sides(Cast(ops, id, g.self));
    RunTracks(g, sha, ops, n, id);
    CountsAdd(votes);
    NotBothSides(n, Count(votes, true), Count(votes, false));
    DecideByTotals(votes, Need(n));
  }
}
