// Value lookups of one node whose rounds are spread over a run of the network: any
// steps, of the asker or of others, may come between choosing, asking and learning.

module DhtLookups {
  import opened Wrappers
  import opened XorMetric
  import opened Kademlia
  import opened DhtNetwork
  import opened DhtRuns
  import Sorting

  /** Before step k, a STORE of this key and value was sent to this address, within the caps, and is fresh at now. */
  ghost predicate StoredBefore(steps: seq<Step>, k: nat, addr: string, key: string, value: seq<bv8>, now: int)
    requires k <= |steps|
  {
    exists j, e :: 0 <= j < k && SentStore(steps[j], e) && e.addr == addr && e.key == key && e.value == value
      && now <= e.at + RECORD_TTL
  }

  /** An answer with a value, at any step of any run, goes back to an earlier STORE of it at the same node. */
  lemma AnswerInAnyRun(tr: seq<Net>, steps: seq<Step>, k: nat, answer: Message)
    requires Run(tr, steps) && k < |steps| && steps[k].Send? && steps[k].msg.kind == FindValue
    requires Deliver(tr[k], steps[k].addr, steps[k].msg, steps[k].now).1 == Some(answer) && answer.found
    ensures StoredBefore(steps, k, steps[k].addr, steps[k].msg.key, answer.value, steps[k].now)
  {
    var addr, msg := steps[k].addr, steps[k].msg;
    RunKeepsProvenance(tr, steps, k);
    assert RecordsJustified(tr[k], addr);
    var r := tr[k].nodes[addr].records[msg.key];
    var at :| StoreEvent(addr, msg.key, r.value, at) in tr[k].log && r.expiresAt == at + RECORD_TTL;
    LogIsHistory(tr, steps, k, StoreEvent(addr, msg.key, r.value, at));
  }

  // ------------------------------------------------------------------- lookups

  /** One round: the steps before which a node is chosen and at which it is asked and its entries are learned. */
  datatype Round = Round(pick: nat, ask: nat, learned: seq<nat>)

  /** The address of a node, empty if it was dropped since it was chosen. */
  function AddressOf(n: NodeState, id: Id): string
  {
    if id in n.book then n.book[id] else ""
  }

  /** What the asker at `me` chooses before step k, from the table it has then. */
  ghost function Choice(tr: seq<Net>, me: string, target: Id, queried: seq<Id>, k: nat): Option<Entry>
  {
    if k < |tr| && NetInv(tr[k]) && me in tr[k].nodes then NextUnqueried(tr[k].nodes[me], target, queried) else None
  }

  /** What step k is answered, if it sends something. */
  ghost function Answer(tr: seq<Net>, steps: seq<Step>, k: nat): Option<Message>
  {
    if k < |steps| && k < |tr| && steps[k].Send? && NetInv(tr[k])
    then Deliver(tr[k], steps[k].addr, steps[k].msg, steps[k].now).1 else None
  }

  /** The round asks the chosen node, under the address the asker has for it by then. */
  ghost predicate Asks(tr: seq<Net>, steps: seq<Step>, me: string, key: string, target: Id, id: Id, r: Round)
  {
    && r.pick <= r.ask < |steps| && r.ask < |tr| && me in tr[r.ask].nodes && steps[r.ask].Send?
    && steps[r.ask].addr == AddressOf(tr[r.ask].nodes[me], id)
    && steps[r.ask].msg == Query(tr[r.ask].nodes[me], key, target)
  }

  ghost predicate LearnStep(s: Step, me: string, e: Entry)
  {
    s.LearnAt? && s.addr == me && s.entry == e
  }

  /** After the answer its entries are learned one by one, in order. */
  ghost predicate Learns(steps: seq<Step>, me: string, answer: Option<Message>, r: Round)
  {
    var entries := if answer.Some? then answer.value.entries else [];
    && |r.learned| == |entries|
    && (forall j :: 0 <= j < |entries| ==>
         r.ask < r.learned[j] < |steps| && LearnStep(steps[r.learned[j]], me, entries[j]))
    && (forall i, j :: 0 <= i < j < |entries| ==> r.learned[i] < r.learned[j])
  }

  /** The first step that can follow the round. */
  function Behind(r: Round): nat
  {
    if r.learned == [] then r.ask + 1 else r.learned[|r.learned| - 1] + 1
  }

  /** The lookup has nobody left to ask, or has used its rounds up. */
  ghost predicate Ends(tr: seq<Net>, me: string, target: Id, from: nat, queried: seq<Id>, end: nat)
  {
    && from <= end < |tr| && NetInv(tr[end]) && me in tr[end].nodes
    && (|queried| >= MAX_ROUNDS || Choice(tr, me, target, queried, end).None?)
  }

  /** The lookup goes on with this round. */
  ghost predicate Opens(tr: seq<Net>, steps: seq<Step>, me: string, key: string, target: Id, from: nat,
                        queried: seq<Id>, r: Round)
  {
    var choice := Choice(tr, me, target, queried, r.pick);
    && |queried| < MAX_ROUNDS && from <= r.pick
    && choice.Some? && Asks(tr, steps, me, key, target, choice.value.id, r)
  }

  ghost predicate Finds(tr: seq<Net>, steps: seq<Step>, r: Round)
  {
    var answer := Answer(tr, steps, r.ask);
    answer.Some? && answer.value.found
  }

  /**
   The lookup from step `from` on: these rounds, and then this result. It ends with the
   first answer that carries a value, with nobody left to ask, or after 256 rounds.
   */
  ghost predicate Looks(tr: seq<Net>, steps: seq<Step>, me: string, key: string, target: Id, from: nat,
                        queried: seq<Id>, rounds: seq<Round>, end: nat, result: Option<seq<bv8>>)
    decreases |rounds|
  {
    if rounds == [] then result.None? && Ends(tr, me, target, from, queried, end)
    else
      var r := rounds[0];
      && Opens(tr, steps, me, key, target, from, queried, r)
      && if Finds(tr, steps, r) then |rounds| == 1 && result == Some(Answer(tr, steps, r.ask).value.value)
         else
           && Learns(steps, me, Answer(tr, steps, r.ask), r)
           && Looks(tr, steps, me, key, target, Behind(r), Also(tr, me, target, queried, r), rounds[1..], end, result)
  }

  /** The nodes asked, with the round's own. */
  ghost function Also(tr: seq<Net>, me: string, target: Id, queried: seq<Id>, r: Round): seq<Id>
  {
    var choice := Choice(tr, me, target, queried, r.pick);
    if choice.Some? then queried + [choice.value.id] else queried
  }

  ghost predicate Carries(tr: seq<Net>, steps: seq<Step>, key: string, k: nat, value: seq<bv8>)
  {
    && k < |steps| && k < |tr| && NetInv(tr[k]) && steps[k].Send? && steps[k].msg.kind == FindValue
         && steps[k].msg.key == key
    && Answer(tr, steps, k).Some? && Answer(tr, steps, k).value.found && Answer(tr, steps, k).value.value == value
  }

  lemma FoundCarries(tr: seq<Net>, steps: seq<Step>, me: string, key: string, target: Id, from: nat, queried: seq<Id>,
                     r: Round)
    requires Opens(tr, steps, me, key, target, from, queried, r) && Finds(tr, steps, r)
    ensures Carries(tr, steps, key, r.ask, Answer(tr, steps, r.ask).value.value)
  {
  }

  function Last(rounds: seq<Round>): Round
    requires rounds != []
  {
    rounds[|rounds| - 1]
  }

  lemma FirstFinds(
    tr: seq<Net>, steps: seq<Step>, me: string, key: string, target: Id, from: nat, queried: seq<Id>,
    rounds: seq<Round>, end: nat, value: seq<bv8>)
    requires Looks(tr, steps, me, key, target, from, queried, rounds, end, Some(value))
    requires rounds != [] && Finds(tr, steps, rounds[0])
    ensures Last(rounds) == rounds[0] && value == Answer(tr, steps, rounds[0].ask).value.value
    ensures Opens(tr, steps, me, key, target, from, queried, rounds[0])
  {
  }

  lemma GoesOn(
    tr: seq<Net>, steps: seq<Step>, me: string, key: string, target: Id, from: nat, queried: seq<Id>,
    rounds: seq<Round>, end: nat, value: seq<bv8>)
    requires Looks(tr, steps, me, key, target, from, queried, rounds, end, Some(value))
    ensures rounds != []
    ensures var r := rounds[0];
            Finds(tr, steps, r) ||
            Looks(tr, steps, me, key, target, Behind(r), Also(tr, me, target, queried, r), rounds[1..], end,
              Some(value))
  {
  }

  lemma FindsCarries(
    tr: seq<Net>, steps: seq<Step>, me: string, key: string, target: Id, from: nat, queried: seq<Id>,
    rounds: seq<Round>, end: nat, value: seq<bv8>)
    requires Looks(tr, steps, me, key, target, from, queried, rounds, end, Some(value))
    requires rounds != [] && Finds(tr, steps, rounds[0])
    ensures Carries(tr, steps, key, Last(rounds).ask, value)
  {
    FirstFinds(tr, steps, me, key, target, from, queried, rounds, end, value);
    FoundCarries(tr, steps, me, key, target, from, queried, rounds[0]);
  }

  lemma LastOfRest(rounds: seq<Round>)
    requires |rounds| > 1
    ensures Last(rounds[1..]) == Last(rounds)
  {
  }

  /** A value that is returned was carried by the answer to the last question. */
  lemma {:induction false} ValueFromAnswer(
    tr: seq<Net>, steps: seq<Step>, me: string, key: string, target: Id, from: nat, queried: seq<Id>,
    rounds: seq<Round>, end: nat, value: seq<bv8>) returns (k: nat)
    requires Looks(tr, steps, me, key, target, from, queried, rounds, end, Some(value))
    ensures rounds != [] && k == Last(rounds).ask && Carries(tr, steps, key, k, value)
    decreases |rounds|
  {
    GoesOn(tr, steps, me, key, target, from, queried, rounds, end, value);
    var r := rounds[0];
    if Finds(tr, steps, r) {
      FindsCarries(tr, steps, me, key, target, from, queried, rounds, end, value);
      k := Last(rounds).ask;
    } else {
      var more := Also(tr, me, target, queried, r);
      k := ValueFromAnswer(tr, steps, me, key, target, Behind(r), more, rounds[1..], end, value);
      LastOfRest(rounds);
    }
  }

  /**
   What a lookup returns, with any steps between its rounds, was stored under that
   very key before its last question, at the node asked there, within the caps, and
   was fresh when it was answered.
   */
  lemma InterleavedLookup(
    tr: seq<Net>, steps: seq<Step>, me: string, key: string, target: Id, from: nat, rounds: seq<Round>, end: nat,
    value: seq<bv8>)
    requires Run(tr, steps) && Looks(tr, steps, me, key, target, from, [], rounds, end, Some(value))
    ensures rounds != []
    ensures var k := Last(rounds).ask;
            k < |steps| && steps[k].Send? && StoredBefore(steps, k, steps[k].addr, key, value, steps[k].now)
  {
    var k := ValueFromAnswer(tr, steps, me, key, target, from, [], rounds, end, value);
    AnswerInAnyRun(tr, steps, k, Answer(tr, steps, k).value);
  }

  /** All nodes asked in the end. */
  ghost function AskedAll(tr: seq<Net>, me: string, target: Id, queried: seq<Id>, rounds: seq<Round>): seq<Id>
    decreases |rounds|
  {
    if rounds == [] then queried else AskedAll(tr, me, target, Also(tr, me, target, queried, rounds[0]), rounds[1..])
  }

  lemma AlsoNew(tr: seq<Net>, steps: seq<Step>, me: string, key: string, target: Id, from: nat, queried: seq<Id>,
                r: Round)
    requires Opens(tr, steps, me, key, target, from, queried, r) && Sorting.NoRepeats(queried)
    ensures Sorting.NoRepeats(Also(tr, me, target, queried, r))
      && |Also(tr, me, target, queried, r)| == |queried| + 1 <= MAX_ROUNDS
  {
  }

  /** However the asker's table changes in between, no node is asked twice and there are at most 256 rounds. */
  lemma {:induction false} InterleavedQueriesOnce(
    tr: seq<Net>, steps: seq<Step>, me: string, key: string, target: Id, from: nat, queried: seq<Id>,
    rounds: seq<Round>, end: nat, result: Option<seq<bv8>>)
    requires Looks(tr, steps, me, key, target, from, queried, rounds, end, result)
    requires Sorting.NoRepeats(queried) && |queried| <= MAX_ROUNDS
    ensures Sorting.NoRepeats(AskedAll(tr, me, target, queried, rounds))
    ensures |AskedAll(tr, me, target, queried, rounds)| == |queried| + |rounds| <= MAX_ROUNDS
    decreases |rounds|
  {
    if rounds != [] {
      var r := rounds[0];
      var more := Also(tr, me, target, queried, r);
      AlsoNew(tr, steps, me, key, target, from, queried, r);
      if Finds(tr, steps, r) {
        assert rounds[1..] == [];
      } else {
        InterleavedQueriesOnce(tr, steps, me, key, target, Behind(r), more, rounds[1..], end, result);
      }
    }
  }

  /**
   A lookup that finds nothing with rounds left has asked every addressed entry of the 20
   closest it has at its end.
   */
  lemma {:induction false} InterleavedEarlyExit(
    tr: seq<Net>, steps: seq<Step>, me: string, key: string, target: Id, from: nat, queried: seq<Id>,
    rounds: seq<Round>, end: nat)
    requires Looks(tr, steps, me, key, target, from, queried, rounds, end, None) && |queried| + |rounds| < MAX_ROUNDS
    ensures end < |tr| && NetInv(tr[end]) && me in tr[end].nodes
    ensures var (n, asked) := (tr[end].nodes[me], AskedAll(tr, me, target, queried, rounds));
            forall e :: e in Closest(n.id, n.table, target, K) && e.id != n.id && e.id in n.book ==> e.id in asked
    decreases |rounds|
  {
    if rounds != [] {
      var r := rounds[0];
      InterleavedEarlyExit(tr, steps, me, key, target, Behind(r), Also(tr, me, target, queried, r), rounds[1..], end);
    } else {
      var n := tr[end].nodes[me];
      forall e | e in Closest(n.id, n.table, target, K) && e.id != n.id && e.id in n.book ensures e.id in queried {
        assert !Queryable(n, queried, e);
      }
    }
  }

  // --------------------------------------------------- with nothing in between

  /** The round's own steps follow one another from `from` on, all at one time. */
  ghost predicate Undisturbed(steps: seq<Step>, from: nat, r: Round, now: int)
  {
    && r.pick == from && r.ask == from && r.ask < |steps| && steps[r.ask].Send? && steps[r.ask].now == now
    && forall j :: 0 <= j < |r.learned| ==>
         && r.learned[j] == r.ask + 1 + j && r.learned[j] < |steps|
         && steps[r.learned[j]].LearnAt? && steps[r.learned[j]].now == now
  }

  ghost predicate Alone(steps: seq<Step>, from: nat, rounds: seq<Round>, end: nat, now: int)
    decreases |rounds|
  {
    if rounds == [] then end == from
    else Undisturbed(steps, from, rounds[0], now) && Alone(steps, Behind(rounds[0]), rounds[1..], end, now)
  }

  lemma {:induction false} LearnsInARow(tr: seq<Net>, steps: seq<Step>, me: string, entries: seq<Entry>, k: nat,
                                        count: nat, now: int)
    requires Run(tr, steps) && count <= |entries| && k + count < |tr| && NetInv(tr[k]) && me in tr[k].nodes
    requires forall j :: 0 <= j < count ==> steps[k + j] == LearnAt(me, entries[j], now)
    ensures tr[k + count] == LearnedNet(tr[k], me, entries[..count], now)
  {
    if count == 0 {
      assert entries[..0] == [];
      assert tr[k].nodes[me := tr[k].nodes[me]] == tr[k].nodes;
    } else {
      var last := k + (count - 1);
      LearnsInARow(tr, steps, me, entries, k, count - 1, now);
      assert tr[last + 1] == Apply(tr[last], LearnAt(me, entries[count - 1], now));
      LearnOneMore(tr[k], me, entries[..count], now);
      assert entries[..count][..count - 1] == entries[..count - 1];
    }
  }

  lemma LearnAtHere(net: Net, me: string, e: Entry, now: int)
    requires NetInv(net) && me in net.nodes
    ensures Apply(net, LearnAt(me, e, now)) == net.(nodes := net.nodes[me := Learn(net.nodes[me], e, now)])
  {
  }

  lemma LastLearned(n: NodeState, es: seq<Entry>, now: int)
    requires NodeInv(n) && es != []
    ensures LearnAll(n, es, now) == Learn(LearnAll(n, es[..|es| - 1], now), es[|es| - 1], now)
  {
  }

  lemma PutTwice(nodes: map<string, NodeState>, me: string, a: NodeState, b: NodeState)
    ensures nodes[me := a][me := b] == nodes[me := b]
  {
  }

  lemma LearnOneMore(net: Net, me: string, es: seq<Entry>, now: int)
    requires NetInv(net) && me in net.nodes && es != []
    ensures LearnedNet(net, me, es, now) ==
      Apply(LearnedNet(net, me, es[..|es| - 1], now), LearnAt(me, es[|es| - 1], now))
  {
    var n := net.nodes[me];
    LearnAtHere(LearnedNet(net, me, es[..|es| - 1], now), me, es[|es| - 1], now);
    LastLearned(n, es, now);
    PutTwice(net.nodes, me, LearnAll(n, es[..|es| - 1], now), LearnAll(n, es, now));
  }

  lemma AskedHere(tr: seq<Net>, steps: seq<Step>, me: string, key: string, target: Id, e: Entry, k: nat)
    requires Run(tr, steps) && k < |steps| && NetInv(tr[k]) && me in tr[k].nodes && e.id in tr[k].nodes[me].book
    requires Asks(tr, steps, me, key, target, e.id, Round(k, k, []))
    ensures
      var d := Asked(tr[k], me, key, target, e, steps[k].now);
      Answer(tr, steps, k) == d.1 && tr[k + 1] == d.0
  {
    assert tr[k + 1] == Apply(tr[k], steps[k]);
  }

  /** These entries are learned one after the other from step k on. */
  ghost predicate LearnRow(steps: seq<Step>, me: string, entries: seq<Entry>, k: nat, now: int)
  {
    k + |entries| <= |steps| && forall j :: 0 <= j < |entries| ==> steps[k + j] == LearnAt(me, entries[j], now)
  }

  lemma LearnedHere(steps: seq<Step>, me: string, answer: Option<Message>, r: Round, now: int)
    requires Learns(steps, me, answer, r) && Undisturbed(steps, r.ask, r, now)
    ensures
      var entries := if answer.Some? then answer.value.entries else [];
      Behind(r) == r.ask + 1 + |entries| && LearnRow(steps, me, entries, r.ask + 1, now)
  {
    var entries := if answer.Some? then answer.value.entries else [];
    forall j | 0 <= j < |entries|
      ensures r.learned[j] == r.ask + 1 + j && steps[r.ask + 1 + j] == LearnAt(me, entries[j], now)
    {
      assert LearnStep(steps[r.learned[j]], me, entries[j]);
    }
  }

  lemma LearnsAll(tr: seq<Net>, steps: seq<Step>, me: string, entries: seq<Entry>, k: nat, now: int)
    requires Run(tr, steps) && k < |tr| && NetInv(tr[k]) && me in tr[k].nodes && LearnRow(steps, me, entries, k, now)
    ensures k + |entries| < |tr| && tr[k + |entries|] == LearnedNet(tr[k], me, entries, now)
  {
    LearnsInARow(tr, steps, me, entries, k, |entries|, now);
    assert entries[..|entries|] == entries;
  }

  lemma LearnedAfter(tr: seq<Net>, steps: seq<Step>, me: string, answer: Option<Message>, r: Round, now: int)
    requires Run(tr, steps) && r.ask < |steps| && NetInv(tr[r.ask + 1]) && me in tr[r.ask + 1].nodes
    requires Undisturbed(steps, r.ask, r, now) && Learns(steps, me, answer, r)
    ensures
      && Behind(r) < |tr|
      && tr[Behind(r)] ==
           if answer.None? then tr[r.ask + 1] else LearnedNet(tr[r.ask + 1], me, answer.value.entries, now)
  {
    LearnedHere(steps, me, answer, r, now);
    if answer.Some? {
      LearnsAll(tr, steps, me, answer.value.entries, r.ask + 1, now);
    }
  }

  /** A round left alone leads where the lookup in one piece goes on. */
  lemma RoundAlone(tr: seq<Net>, steps: seq<Step>, me: string, key: string, target: Id, e: Entry, r: Round, now: int)
    requires Run(tr, steps) && r.ask < |steps| && NetInv(tr[r.ask]) && me in tr[r.ask].nodes
    requires e.id in tr[r.ask].nodes[me].book && Asks(tr, steps, me, key, target, e.id, Round(r.ask, r.ask, []))
    requires Undisturbed(steps, r.ask, r, now) && Learns(steps, me, Answer(tr, steps, r.ask), r)
    ensures Behind(r) < |tr| && tr[Behind(r)] == Onward(tr[r.ask], me, key, target, e, now)
  {
    AskedHere(tr, steps, me, key, target, e, r.ask);
    LearnedAfter(tr, steps, me, Answer(tr, steps, r.ask), r, now);
  }

  /** The first round of an undisturbed lookup, from the asker's state at that step. */
  lemma FirstAlone(
    tr: seq<Net>, steps: seq<Step>, me: string, key: string, target: Id, from: nat, queried: seq<Id>, r: Round,
    now: int)
    returns (e: Entry)
    requires Run(tr, steps) && Opens(tr, steps, me, key, target, from, queried, r) && Undisturbed(steps, from, r, now)
    ensures from < |tr| && NetInv(tr[from]) && me in tr[from].nodes && |queried| < MAX_ROUNDS
    ensures NextUnqueried(tr[from].nodes[me], target, queried) == Some(e)
    ensures Also(tr, me, target, queried, r) == queried + [e.id]
    ensures Asks(tr, steps, me, key, target, e.id, Round(from, from, []))
    ensures Answer(tr, steps, from) == Asked(tr[from], me, key, target, e, now).1
  {
    e := Choice(tr, me, target, queried, r.pick).value;
    assert Asks(tr, steps, me, key, target, e.id, Round(from, from, []));
    AskedHere(tr, steps, me, key, target, e, from);
  }

  /** What the lookup in one piece comes to. */
  ghost predicate Comes(net: Net, me: string, key: string, target: Id, queried: seq<Id>, left: nat, now: int,
                        result: Option<seq<bv8>>)
  {
    NetInv(net) && me in net.nodes && FindValueAt(net, me, key, target, queried, left, now).1 == result
  }

  lemma ComesRound(net: Net, me: string, key: string, target: Id, queried: seq<Id>, left: nat, rest: nat, now: int,
                   e: Entry, result: Option<seq<bv8>>)
    requires NetInv(net) && me in net.nodes && left == rest + 1
      && NextUnqueried(net.nodes[me], target, queried) == Some(e)
    requires
      var answer := Asked(net, me, key, target, e, now).1;
      if answer.Some? && answer.value.found then result == Some(answer.value.value)
      else Comes(Onward(net, me, key, target, e, now), me, key, target, queried + [e.id], rest, now, result)
    ensures Comes(net, me, key, target, queried, left, now, result)
  {
    FindValueRound(net, me, key, target, queried, left, rest, now, e);
  }

  lemma ComesToNothing(tr: seq<Net>, me: string, key: string, target: Id, from: nat, queried: seq<Id>, left: nat,
                       now: int)
    requires Ends(tr, me, target, from, queried, from) && (left == 0 <==> |queried| >= MAX_ROUNDS)
    ensures Comes(tr[from], me, key, target, queried, left, now, None)
  {
  }

  /** With no other steps in between, the rounds make up the lookup in one piece. */
  lemma {:induction false} AloneIsAtomic(
    tr: seq<Net>, steps: seq<Step>, me: string, key: string, target: Id, from: nat, queried: seq<Id>,
    rounds: seq<Round>, end: nat, result: Option<seq<bv8>>, left: nat, now: int)
    requires Run(tr, steps) && Looks(tr, steps, me, key, target, from, queried, rounds, end, result)
    requires Alone(steps, from, rounds, end, now) && |queried| + left == MAX_ROUNDS
    ensures from < |tr| && Comes(tr[from], me, key, target, queried, left, now, result)
    decreases |rounds|
  {
    if rounds == [] {
      ComesToNothing(tr, me, key, target, from, queried, left, now);
    } else {
      var r := rounds[0];
      var e := FirstAlone(tr, steps, me, key, target, from, queried, r, now);
      var rest := left - 1;
      if !Finds(tr, steps, r) {
        RoundAlone(tr, steps, me, key, target, e, r, now);
        AloneIsAtomic(tr, steps, me, key, target, Behind(r), queried + [e.id], rounds[1..], end, result, rest, now);
      }
      ComesRound(tr[from], me, key, target, queried, left, rest, now, e, result);
    }
  }
}
