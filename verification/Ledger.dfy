// The contribution ledger: signed records of four kinds, a hash chain of
// transactions, an incremental daily counter and the set of keys that still
// have to be written to the key-value store.

module Ledgers {
  import opened Wrappers
  import opened ByteText

  // ------------------------------------------------------------- entities

  /** A date in the form YYYY-MM-DD. */
  type Day = s: string | |s| == 10 witness "1970-01-01"

  datatype Transaction = Transaction(
    id: string, kind: string, node: string, amount: int, model: string, request: string,
    prev: string, hash: string, day: Day, signature: string)

  datatype StorageProof = StorageProof(contentHash: string, location: string, verified: bool)

  datatype Kind = Contribution | Trust | Claim | Penalty

  /** A record of any of the four kinds; peer is the peer (for a trust record the verifier). */
  datatype Record = Record(id: string, peer: string, stamp: Option<int>, body: string, signature: string,
                           proof: StorageProof)

  /** What the ledger asks of its surroundings: hashing, signing, content addressing. */
  datatype Env = Env(
    sha: string -> string,
    signTx: Transaction -> string,
    signRecord: Record -> Option<string>,
    contentId: Record -> Option<string>)

  datatype Ledger = Ledger(
    peer: string, pub: string, priv: string,
    recs: map<string, Record>, trusts: map<string, Record>,
    claims: map<string, Record>, penalties: map<string, Record>,
    txs: seq<Transaction>, txIndex: map<string, Transaction>,
    daily: map<string, int>, seqNo: nat, dirty: set<string>)
  {
    function Table(k: Kind): map<string, Record>
    {
      match k
      case Contribution => recs
      case Trust => trusts
      case Claim => claims
      case Penalty => penalties
    }

    function WithTable(k: Kind, t: map<string, Record>): Ledger
    {
      match k
      case Contribution => this.(recs := t)
      case Trust => this.(trusts := t)
      case Claim => this.(claims := t)
      case Penalty => this.(penalties := t)
    }
  }

  function Fresh(peer: string, pub: string, priv: string): Ledger
  {
    Ledger(peer, pub, priv, map[], map[], map[], map[], [], map[], map[], 0, {})
  }

  // ------------------------------------------------- 64-bit signed amounts

  const TWO_63: int := 0x8000_0000_0000_0000
  const TWO_64: int := 0x1_0000_0000_0000_0000

  /** Wrap-around to a signed 64-bit integer. */
  function Wrap64(x: int): (w: int)
    ensures -TWO_63 <= w < TWO_63
  {
    (x + TWO_63) % TWO_64 - TWO_63
  }

  lemma WrapCongruent(x: int, k: int)
    ensures Wrap64(x + k * TWO_64) == Wrap64(x)
  {
    var q := (x + TWO_63) / TWO_64;
    var y := x + k * TWO_64 + TWO_63;
    assert y == (q + k) * TWO_64 + (x + TWO_63) % TWO_64;
  }

  lemma WrapAdds(x: int, y: int)
    ensures Wrap64(Wrap64(x) + y) == Wrap64(x + y)
    ensures Wrap64(x + Wrap64(y)) == Wrap64(x + y)
    ensures Wrap64(Wrap64(x) - y) == Wrap64(x - y)
  {
    var p, q := (x + TWO_63) / TWO_64, (y + TWO_63) / TWO_64;
    assert Wrap64(x) == x - p * TWO_64 && Wrap64(y) == y - q * TWO_64;
    WrapCongruent(x + y, -p);
    WrapCongruent(x + y, -q);
    WrapCongruent(x - y, -p);
  }

  // ----------------------------------------------------------- store keys

  const IDENTITY_KEY := "meta/identity"
  const TX_PREFIX := "tx/"

  function Prefix(k: Kind): string
  {
    match k
    case Contribution => "contrib/"
    case Trust => "trust/"
    case Claim => "claim/"
    case Penalty => "penalty/"
  }

  datatype Target = Identity | RecordAt(kind: Kind, id: string) | TxAt(id: string) | Unknown

  predicate HasPrefix(s: string, p: string)
  {
    |p| <= |s| && s[..|p|] == p
  }

  /** What a store key refers to, in the order the program tries the prefixes. */
  function Parse(key: string): Target
  {
    if key == IDENTITY_KEY then Identity
    else if HasPrefix(key, Prefix(Contribution)) then RecordAt(Contribution, key[8..])
    else if HasPrefix(key, Prefix(Trust)) then RecordAt(Trust, key[6..])
    else if HasPrefix(key, Prefix(Claim)) then RecordAt(Claim, key[6..])
    else if HasPrefix(key, Prefix(Penalty)) then RecordAt(Penalty, key[8..])
    else if HasPrefix(key, TX_PREFIX) then TxAt(key[3..])
    else Unknown
  }

  function Key(t: Target): string
    requires t != Unknown
  {
    match t
    case Identity => IDENTITY_KEY
    case RecordAt(k, id) => Prefix(k) + id
    case TxAt(id) => TX_PREFIX + id
  }

  /** Keys decode to what they were built from, so no two targets share one. */
  lemma ParseKey(t: Target)
    requires t != Unknown
    ensures Parse(Key(t)) == t
  {
    match t
    case Identity =>
    case RecordAt(k, id) =>
      var key := Key(t);
      assert key[..|Prefix(k)|] == Prefix(k) && key[|Prefix(k)|..] == id;
      assert key[0] == Prefix(k)[0] && key[1] == Prefix(k)[1];
      assert IDENTITY_KEY[0] == 'm';
      OtherPrefix(key, k);
    case TxAt(id) =>
      var key := Key(t);
      assert key[..3] == TX_PREFIX && key[3..] == id;
      assert key[0] == 't' && key[1] == 'x';
      assert IDENTITY_KEY[0] == 'm';
      forall k ensures !HasPrefix(key, Prefix(k)) {
        if HasPrefix(key, Prefix(k)) { PrefixHead(key, k); }
      }
  }

  lemma PrefixHead(key: string, k: Kind)
    requires HasPrefix(key, Prefix(k))
    ensures |key| >= 2 && key[0] == Prefix(k)[0] && key[1] == Prefix(k)[1]
  {
    assert key[..|Prefix(k)|][0] == key[0] && key[..|Prefix(k)|][1] == key[1];
  }

  lemma OtherPrefix(key: string, k: Kind)
    requires HasPrefix(key, Prefix(k))
    ensures forall other :: other != k ==> !HasPrefix(key, Prefix(other))
    ensures !HasPrefix(key, TX_PREFIX)
  {
    PrefixHead(key, k);
    forall other | other != k ensures !HasPrefix(key, Prefix(other)) {
      if HasPrefix(key, Prefix(other)) { PrefixHead(key, other); }
    }
    assert |key| >= 3 ==> key[..3][1] == key[1];
  }

  lemma ParseInverse(key: string)
    requires Parse(key) != Unknown
    ensures Key(Parse(key)) == key
  {
  }

  // -------------------------------------------------------- ledger updates

  function Mark(l: Ledger, keys: set<string>): Ledger
  {
    l.(dirty := l.dirty + keys)
  }

  function Put(l: Ledger, k: Kind, r: Record): Ledger
  {
    Mark(l.WithTable(k, l.Table(k)[r.id := r]), {Key(RecordAt(k, r.id))})
  }

  function IdWord(k: Kind): string
  {
    match k
    case Contribution => "contrib"
    case Trust => "trust"
    case Claim => "claim"
    case Penalty => "penalty"
  }

  /** The id nextID hands out when the counter reaches n. */
  function NumberedId(word: string, peer: string, n: nat): string
  {
    word + "-" + peer + "-" + Dec(n)
  }

  /** A record without an id draws one from the counter. */
  function Counted(l: Ledger, r: Record): Ledger
  {
    if r.id == "" then Mark(l.(seqNo := l.seqNo + 1), {IDENTITY_KEY}) else l
  }

  /** The record once every empty field is filled and it is signed. */
  function Completed(l: Ledger, env: Env, k: Kind, r: Record, now: int): Record
  {
    var r1 := r.(
      id := if r.id == "" then NumberedId(IdWord(k), l.peer, l.seqNo + 1) else r.id,
      peer := if r.peer == "" then l.peer else r.peer,
      stamp := if r.stamp.None? then Some(now) else r.stamp);
    if k.Trust? || k.Claim? || env.signRecord(r1).None? then r1
    else r1.(signature := env.signRecord(r1).value)
  }

  /** A contribution gets its content hash after it was stored. */
  function WithProof(env: Env, r: Record): Record
  {
    match env.contentId(r)
    case None => r
    case Some(cid) => r.(proof := r.proof.(contentHash := cid, location := "local-hash"))
  }

  function Recorded(l: Ledger, env: Env, k: Kind, r: Record, now: int): Ledger
  {
    var r1 := Completed(l, env, k, r, now);
    Put(Counted(l, r), k, if k.Contribution? then WithProof(env, r1) else r1)
  }

  /** The records offered by a peer, first come first kept; nil and unnamed ones are skipped. */
  function Synced(l: Ledger, k: Kind, offered: seq<Option<Record>>): Ledger
  {
    if offered == [] then l
    else
      var before := Synced(l, k, offered[..|offered| - 1]);
      var r := offered[|offered| - 1];
      if r.None? || r.value.id == "" || r.value.id in before.Table(k) then before
      else Put(before, k, r.value)
  }

  datatype Offer = Offer(
    contributions: seq<Option<Record>>, trusts: seq<Option<Record>>,
    claims: seq<Option<Record>>, penalties: seq<Option<Record>>)
  {
    function Of(k: Kind): seq<Option<Record>>
    {
      match k
      case Contribution => contributions
      case Trust => trusts
      case Claim => claims
      case Penalty => penalties
    }
  }

  function SyncedAll(l: Ledger, o: Offer): Ledger
  {
    var l1 := Synced(l, Contribution, o.contributions);
    var l2 := Synced(l1, Trust, o.trusts);
    var l3 := Synced(l2, Claim, o.claims);
    Synced(l3, Penalty, o.penalties)
  }

  function Count(l: Ledger): nat
  {
    |l.recs| + |l.trusts| + |l.claims| + |l.penalties|
  }

  // ---------------------------------------------------------- transactions

  /** The text that is hashed. */
  function HashText(t: Transaction): string
  {
    t.id + "|" + t.kind + "|" + t.node + "|" + Signed(t.amount) + "|" + t.model + "|" + t.request + "|" + t.prev
  }

  ghost predicate LinkValid(sha: string -> string, txs: seq<Transaction>, i: nat)
    requires i < |txs|
  {
    && (i > 0 ==> txs[i].prev == txs[i - 1].hash)
    && txs[i].hash == sha(HashText(txs[i]))
  }

  ghost predicate ChainValid(sha: string -> string, txs: seq<Transaction>)
  {
    forall i :: 0 <= i < |txs| ==> LinkValid(sha, txs, i)
  }

  function HeadHash(txs: seq<Transaction>): string
  {
    if txs == [] then "" else txs[|txs| - 1].hash
  }

  function TxId(peer: string, n: nat): string
  {
    NumberedId("tx", peer, n)
  }

  function NewTransaction(l: Ledger, env: Env, kind: string, node: string, amount: int, model: string, request: string,
                          day: Day): Transaction
  {
    var bare := Transaction(TxId(l.peer, l.seqNo + 1), kind, node, amount, model, request, HeadHash(l.txs), "", day,
      "");
    var hashed := bare.(hash := env.sha(HashText(bare)));
    hashed.(signature := env.signTx(hashed))
  }

  function DailyKey(node: string, day: Day): string
  {
    node + "|" + day
  }

  function Lookup(m: map<string, int>, k: string): int
  {
    if k in m then m[k] else 0
  }

  /** m[k] += amount, on signed 64-bit integers. */
  function Bump(m: map<string, int>, k: string, amount: int): map<string, int>
  {
    m[k := Wrap64(Lookup(m, k) + amount)]
  }

  function Appended(l: Ledger, t: Transaction): Ledger
  {
    Mark(l.(seqNo := l.seqNo + 1,
            txs := l.txs + [t],
            txIndex := l.txIndex[t.id := t],
            daily := if t.kind == "contribution" && t.amount != 0
                     then Bump(l.daily, DailyKey(t.node, t.day), t.amount) else l.daily),
         {Key(TxAt(t.id)), IDENTITY_KEY})
  }

  // -------------------------------------------------------------- reading

  /** What one transaction adds to its node's balance. */
  function Effect(t: Transaction): int
  {
    if t.kind == "contribution" then t.amount
    else if t.kind == "consumption" then -t.amount
    else 0
  }

  /** The balance of a node over unbounded integers. */
  function Balance(txs: seq<Transaction>, node: string): int
  {
    if txs == [] then 0
    else
      var t := txs[|txs| - 1];
      Balance(txs[..|txs| - 1], node) + if t.node == node then Effect(t) else 0
  }

  // ------------------------------------------------------------- the class

  class GossipLedger {
    const env: Env
    const peerID: string
    const pub: string
    const priv: string
    var recs: map<string, Record>
    var trusts: map<string, Record>
    var claims: map<string, Record>
    var penalties: map<string, Record>
    var txs: seq<Transaction>
    var txIndex: map<string, Transaction>
    var dailyContrib: map<string, int>
    var seqNo: nat
    var dirty: set<string>

    function State(): Ledger
      reads this
    {
      Ledger(peerID, pub, priv, recs, trusts, claims, penalties, txs, txIndex, dailyContrib, seqNo, dirty)
    }

    constructor (env: Env, peerID: string, pub: string, priv: string)
      ensures State() == Fresh(peerID, pub, priv) && this.env == env
    {
      this.env, this.peerID, this.pub, this.priv := env, peerID, pub, priv;
      recs, trusts, claims, penalties := map[], map[], map[], map[];
      txs, txIndex, dailyContrib, seqNo, dirty := [], map[], map[], 0, {};
    }

    /** A ledger restored from its parts, nothing left to write. */
    constructor Restore(env: Env, l: Ledger)
      ensures State() == l && this.env == env
    {
      this.env, peerID, pub, priv := env, l.peer, l.pub, l.priv;
      recs, trusts, claims, penalties := l.recs, l.trusts, l.claims, l.penalties;
      txs, txIndex, dailyContrib, seqNo, dirty := l.txs, l.txIndex, l.daily, l.seqNo, l.dirty;
    }

    method NextId(word: string) returns (id: string)
      modifies this
      ensures id == NumberedId(word, peerID, old(seqNo) + 1)
      ensures State() == Mark(old(State()).(seqNo := old(seqNo) + 1), {IDENTITY_KEY})
    {
      seqNo := seqNo + 1;
      dirty := dirty + {IDENTITY_KEY};
      id := NumberedId(word, peerID, seqNo);
    }

    method PutRecord(k: Kind, r: Record)
      modifies this
      ensures State() == Put(old(State()), k, r)
    {
      match k {
        case Contribution => recs := recs[r.id := r];
        case Trust => trusts := trusts[r.id := r];
        case Claim => claims := claims[r.id := r];
        case Penalty => penalties := penalties[r.id := r];
      }
      dirty := dirty + {Key(RecordAt(k, r.id))};
    }

    /** Fill the empty fields and sign. */
    method Complete(k: Kind, offered: Record, now: int) returns (r: Record)
      modifies this
      ensures State() == Counted(old(State()), offered)
      ensures r == Completed(old(State()), env, k, offered, now)
    {
      r := offered;
      if r.id == "" {
        var next := NextId(IdWord(k));
        r := r.(id := next);
      }
      if r.peer == "" { r := r.(peer := peerID); }
      if r.stamp.None? { r := r.(stamp := Some(now)); }
      if k.Contribution? || k.Penalty? {
        var signature := env.signRecord(r);
        if signature.Some? { r := r.(signature := signature.value); }
      }
    }

    /** RecordContribution, RecordTrust, RecordClaim and RecordPenalty. */
    method RecordOne(k: Kind, offered: Option<Record>, now: int) returns (id: Option<string>)
      modifies this
      ensures offered.None? ==> id.None? && State() == old(State())
      ensures offered.Some? ==>
        && id == Some(Completed(old(State()), env, k, offered.value, now).id)
        && State() == Recorded(old(State()), env, k, offered.value, now)
    {
      if offered.None? { return None; }
      var r := Complete(k, offered.value, now);
      ghost var before := State();
      PutRecord(k, r);
      if k.Contribution? {
        var cid := env.contentId(r);
        if cid.Some? {
          PutRecord(k, r.(proof := r.proof.(contentHash := cid.value, location := "local-hash")));
          PutTwice(before, k, r, WithProof(env, r));
        }
      }
      id := Some(r.id);
    }

    method SyncKind(k: Kind, offered: seq<Option<Record>>) returns (added: nat)
      modifies this
      ensures State() == Synced(old(State()), k, offered)
      ensures added == Count(State()) - Count(old(State()))
    {
      added := 0;
      for i := 0 to |offered|
        invariant State() == Synced(old(State()), k, offered[..i])
        invariant added == Count(State()) - Count(old(State()))
      {
        assert offered[..i + 1][..i] == offered[..i];
        var r := offered[i];
        if r.Some? && r.value.id != "" && r.value.id !in State().Table(k) {
          PutGrows(State(), k, r.value);
          PutRecord(k, r.value);
          added := added + 1;
        }
      }
      assert offered[..|offered|] == offered;
    }

    /** Merge what a peer offers; the result counts the records that were new. */
    method GossipSync(o: Offer) returns (added: nat)
      modifies this
      ensures State() == SyncedAll(old(State()), o)
      ensures added == Count(State()) - Count(old(State()))
    {
      var a := SyncKind(Contribution, o.contributions);
      var b := SyncKind(Trust, o.trusts);
      var c := SyncKind(Claim, o.claims);
      var d := SyncKind(Penalty, o.penalties);
      added := a + b + c + d;
    }

    method AppendTransaction(kind: string, node: string, amount: int, model: string, request: string, day: Day)
      returns (t: Transaction)
      modifies this
      ensures t == NewTransaction(old(State()), env, kind, node, amount, model, request, day)
      ensures State() == Appended(old(State()), t)
    {
      var prev := "";
      if |txs| > 0 { prev := txs[|txs| - 1].hash; }
      t := Transaction(TxId(peerID, seqNo + 1), kind, node, amount, model, request, prev, "", day, "");
      t := t.(hash := env.sha(HashText(t)));
      t := t.(signature := env.signTx(t));
      Enter(t);
    }

    /** Take a new transaction into list, index, dirty keys and daily counter. */
    method Enter(t: Transaction)
      modifies this
      ensures State() == Appended(old(State()), t)
    {
      seqNo := seqNo + 1;
      txs := txs + [t];
      txIndex := txIndex[t.id := t];
      dirty := dirty + {Key(TxAt(t.id)), IDENTITY_KEY};
      if t.kind == "contribution" && t.amount != 0 {
        dailyContrib := Bump(dailyContrib, DailyKey(t.node, t.day), t.amount);
      }
    }

    function GetDailyContributions(node: string, day: Day): int
      reads this
    {
      Lookup(dailyContrib, DailyKey(node, day))
    }

    method DeriveBalance(node: string) returns (balance: int)
      ensures balance == Wrap64(Balance(txs, node))
    {
      balance := 0;
      for i := 0 to |txs|
        invariant balance == Wrap64(Balance(txs[..i], node))
      {
        assert txs[..i + 1][..i] == txs[..i];
        if txs[i].node == node {
          WrapAdds(Balance(txs[..i], node), txs[i].amount);
          if txs[i].kind == "contribution" {
            balance := Wrap64(balance + txs[i].amount);
          } else if txs[i].kind == "consumption" {
            balance := Wrap64(balance - txs[i].amount);
          }
        }
      }
      assert txs[..|txs|] == txs;
    }

    method VerifyChain() returns (ok: bool)
      ensures ok <==> ChainValid(env.sha, txs)
    {
      for i := 0 to |txs|
        invariant forall j :: 0 <= j < i ==> LinkValid(env.sha, txs, j)
      {
        if i > 0 && txs[i].prev != txs[i - 1].hash {
          assert !LinkValid(env.sha, txs, i);
          return false;
        }
        if txs[i].hash != env.sha(HashText(txs[i])) {
          assert !LinkValid(env.sha, txs, i);
          return false;
        }
      }
      return true;
    }
  }

  // -------------------------------------------------------- small lemmas

  lemma PutTwice(l: Ledger, k: Kind, a: Record, b: Record)
    requires a.id == b.id
    ensures Put(Put(l, k, a), k, b) == Put(l, k, b)
  {
    assert l.Table(k)[a.id := a][b.id := b] == l.Table(k)[b.id := b];
    assert l.dirty + {Key(RecordAt(k, a.id))} + {Key(RecordAt(k, b.id))} == l.dirty + {Key(RecordAt(k, b.id))};
  }

  lemma PutGrows(l: Ledger, k: Kind, r: Record)
    requires r.id !in l.Table(k)
    ensures Count(Put(l, k, r)) == Count(l) + 1
  {
    assert |l.Table(k)[r.id := r]| == |l.Table(k)| + 1;
  }

  /** No two (node, day) pairs share a counter: the day has a fixed length. */
  lemma DailyKeyInjective(n1: string, d1: Day, n2: string, d2: Day)
    requires DailyKey(n1, d1) == DailyKey(n2, d2)
    ensures n1 == n2 && d1 == d2
  {
    var k := DailyKey(n1, d1);
    assert |k| == |n1| + 11 == |n2| + 11;
    assert n1 == k[..|k| - 11] && n2 == k[..|k| - 11];
    assert d1 == k[|k| - 10..] && d2 == k[|k| - 10..];
  }
}
