// Authentication of the DHT wire: trust-pool keys first, then keys pinned on first
// solicited contact.

module WireAuth {
  import opened Wrappers
  import opened XorMetric
  import opened DhtNetwork
  import opened Hashing

  type Bytes = seq<bv8>

  /** The primitives the wire relies on; nothing is assumed of them here. */
  datatype Crypto = Crypto(
    hash: string -> Id,
    encode: Message -> Option<Bytes>,
    decodeSig: string -> Option<Bytes>,
    decodeKey: string -> Option<Bytes>,
    verify: (Bytes, Bytes, Bytes) -> bool)

  type Trust = string -> Option<string>

  /** The bytes covered by the signature: the message with its signature blanked. */
  function Canonical(c: Crypto, msg: Message): Option<Bytes>
  {
    c.encode(msg.(sig := ""))
  }

  /** The message's signature verifies under this encoded key. */
  predicate Checks(c: Crypto, key: string, msg: Message)
  {
    && Canonical(c, msg).Some? && c.decodeSig(msg.sig).Some? && c.decodeKey(key).Some?
    && c.verify(c.decodeKey(key).value, Canonical(c, msg).value, c.decodeSig(msg.sig).value)
  }

  predicate WellAddressed(c: Crypto, msg: Message)
  {
    msg.sig != "" && msg.keyId != "" && c.hash(msg.keyId) == msg.from
  }

  predicate Trusted(trust: Trust, keyId: string)
  {
    trust(keyId).Some? && trust(keyId).value != ""
  }

  datatype Verdict = Verdict(accepted: bool, pins: map<string, string>)

  /** The decision and the pins it leaves. */
  function Judge(c: Crypto, trust: Trust, pins: map<string, string>, msg: Message, solicited: bool): Verdict
  {
    if !WellAddressed(c, msg) then Verdict(false, pins)
    else if Trusted(trust, msg.keyId) then Verdict(Checks(c, trust(msg.keyId).value, msg), pins)
    else if msg.keyId in pins then Verdict(Checks(c, pins[msg.keyId], msg), pins)
    else if solicited && Checks(c, msg.pubKey, msg) then Verdict(true, pins[msg.keyId := msg.pubKey])
    else Verdict(false, pins)
  }

  class DhtWireAuth {
    const crypto: Crypto
    var pins: map<string, string>

    constructor (c: Crypto)
      ensures crypto == c && pins == map[]
    {
      crypto := c;
      pins := map[];
    }

    method VerifyMessage(msg: Message, solicited: bool, trust: Trust) returns (ok: bool)
      modifies this
      ensures Verdict(ok, pins) == Judge(crypto, trust, old(pins), msg, solicited)
    {
      if msg.sig == "" || msg.keyId == "" {
        return false;
      }
      if crypto.hash(msg.keyId) != msg.from {
        return false;
      }
      var payload := crypto.encode(msg.(sig := ""));
      if payload.None? {
        return false;
      }
      var sig := crypto.decodeSig(msg.sig);
      if sig.None? {
        return false;
      }
      var known := trust(msg.keyId);
      if known.Some? && known.value != "" {
        var pub := crypto.decodeKey(known.value);
        return pub.Some? && crypto.verify(pub.value, payload.value, sig.value);
      }
      if msg.keyId in pins {
        var pub := crypto.decodeKey(pins[msg.keyId]);
        return pub.Some? && crypto.verify(pub.value, payload.value, sig.value);
      }
      if !solicited {
        return false;
      }
      var pub := crypto.decodeKey(msg.pubKey);
      if pub.None? || !crypto.verify(pub.value, payload.value, sig.value) {
        return false;
      }
      pins := pins[msg.keyId := msg.pubKey];
      return true;
    }

    /** Stamp the identity, then sign what the receiver will reconstruct. */
    method SignMessage(msg: Message, identity: Option<(string, string)>, sign: Bytes -> Option<string>)
      returns (signed: Option<Message>)
      ensures signed == Signed(crypto, msg, identity, sign)
    {
      if identity.None? || identity.value.0 == "" || identity.value.1 == "" {
        return None;
      }
      var m := msg.(keyId := identity.value.0, pubKey := identity.value.1);
      var payload := crypto.encode(m.(sig := ""));
      if payload.None? {
        return None;
      }
      var s := sign(payload.value);
      if s.None? || s.value == "" {
        return None;
      }
      return Some(m.(sig := s.value));
    }
  }

  function Signed(c: Crypto, msg: Message, identity: Option<(string, string)>, sign: Bytes -> Option<string>)
      : Option<Message>
  {
    if identity.None? || identity.value.0 == "" || identity.value.1 == "" then None
    else
      var m := msg.(keyId := identity.value.0, pubKey := identity.value.1);
      var payload := Canonical(c, m);
      if payload.None? || sign(payload.value).None? || sign(payload.value).value == "" then None
      else Some(m.(sig := sign(payload.value).value))
  }

  /** sign produces signatures that verify under pub. */
  ghost predicate SignsFor(c: Crypto, sign: Bytes -> Option<string>, pub: string)
  {
    forall p :: sign(p).Some? && sign(p).value != "" ==>
      c.decodeSig(sign(p).value).Some? && c.decodeKey(pub).Some?
      && c.verify(c.decodeKey(pub).value, p, c.decodeSig(sign(p).value).value)
  }

  /**
   A message signed by its own identity is accepted whenever the receiver trusts or
   has pinned that identity's key, and on first solicited contact; an unknown
   signer's unsolicited message never is.
   */
  lemma SignThenVerify(c: Crypto, trust: Trust, pins: map<string, string>, msg: Message, keyId: string, pub: string,
                       sign: Bytes -> Option<string>, solicited: bool)
    requires SignsFor(c, sign, pub)
    requires Signed(c, msg, Some((keyId, pub)), sign).Some? && msg.from == c.hash(keyId)
    ensures var v := Judge(c, trust, pins, Signed(c, msg, Some((keyId, pub)), sign).value, solicited);
            && (trust(keyId) == Some(pub) ==> v.accepted)
            && (!Trusted(trust, keyId) && keyId in pins && pins[keyId] == pub ==> v.accepted)
            && (!Trusted(trust, keyId) && keyId !in pins ==> (v.accepted <==> solicited))
            && (!Trusted(trust, keyId) && keyId !in pins && solicited ==> v.pins == pins[keyId := pub])
  {
    var m := msg.(keyId := keyId, pubKey := pub);
    var signed := Signed(c, msg, Some((keyId, pub)), sign).value;
    assert signed.(sig := "") == m.(sig := "");
    assert Checks(c, pub, signed);
  }

  // --------------------------------------------------------------------- runs

  datatype Event = Event(msg: Message, solicited: bool)

  function PinsAfter(c: Crypto, trust: Trust, events: seq<Event>): map<string, string>
  {
    if events == [] then map[]
    else
      var e := events[|events| - 1];
      Judge(c, trust, PinsAfter(c, trust, events[..|events| - 1]), e.msg, e.solicited).pins
  }

  /** The k-th message of the run is accepted. */
  predicate AcceptedAt(c: Crypto, trust: Trust, events: seq<Event>, k: nat)
    requires k < |events|
  {
    Judge(c, trust, PinsAfter(c, trust, events[..k]), events[k].msg, events[k].solicited).accepted
  }

  lemma PinsStep(c: Crypto, trust: Trust, events: seq<Event>, k: nat)
    requires k < |events|
    ensures PinsAfter(c, trust, events[..k + 1])
            == Judge(c, trust, PinsAfter(c, trust, events[..k]), events[k].msg, events[k].solicited).pins
  {
    assert events[..k + 1][..k] == events[..k];
  }

  lemma JudgeKeepsPins(c: Crypto, trust: Trust, pins: map<string, string>, msg: Message, solicited: bool, keyId: string)
    requires keyId in pins
    ensures var after := Judge(c, trust, pins, msg, solicited).pins;
            keyId in after && after[keyId] == pins[keyId]
  {
  }

  /** A pin, once set, never changes. */
  lemma {:induction false} PinsNeverChange(c: Crypto, trust: Trust, events: seq<Event>, i: nat, j: nat, keyId: string)
    requires i <= j <= |events| && keyId in PinsAfter(c, trust, events[..i])
    ensures keyId in PinsAfter(c, trust, events[..j])
    ensures PinsAfter(c, trust, events[..j])[keyId] == PinsAfter(c, trust, events[..i])[keyId]
    decreases j - i
  {
    if i < j {
      var e := events[j - 1];
      PinsNeverChange(c, trust, events, i, j - 1, keyId);
      PinsStep(c, trust, events, j - 1);
      JudgeKeepsPins(c, trust, PinsAfter(c, trust, events[..j - 1]), e.msg, e.solicited, keyId);
    }
  }

  /** The key under which everything accepted for keyId verifies. */
  function KeyOf(c: Crypto, trust: Trust, events: seq<Event>, keyId: string): string
  {
    if Trusted(trust, keyId) then trust(keyId).value
    else if keyId in PinsAfter(c, trust, events) then PinsAfter(c, trust, events)[keyId]
    else ""
  }

  /** All messages accepted for one KeyID verify under a single key, known at the end of the run. */
  lemma OneKeyPerIdentity(c: Crypto, trust: Trust, events: seq<Event>, k: nat)
    requires k < |events| && AcceptedAt(c, trust, events, k)
    ensures Checks(c, KeyOf(c, trust, events, events[k].msg.keyId), events[k].msg)
  {
    var keyId := events[k].msg.keyId;
    if !Trusted(trust, keyId) {
      PinsStep(c, trust, events, k);
      PinsNeverChange(c, trust, events, k + 1, |events|, keyId);
      assert events[..|events|] == events;
    }
  }

  /** An identity outside the trust pool is first accepted only on a solicited response. */
  lemma FirstContactSolicited(c: Crypto, trust: Trust, events: seq<Event>, k: nat)
    requires k < |events| && AcceptedAt(c, trust, events, k) && !Trusted(trust, events[k].msg.keyId)
    requires forall j :: 0 <= j < k && events[j].msg.keyId == events[k].msg.keyId ==> !AcceptedAt(c, trust, events, j)
    ensures events[k].solicited
  {
    NoPinWithoutContact(c, trust, events, k, events[k].msg.keyId);
  }

  lemma {:induction false} NoPinWithoutContact(c: Crypto, trust: Trust, events: seq<Event>, k: nat, keyId: string)
    requires k <= |events|
    requires forall j :: 0 <= j < k && events[j].msg.keyId == keyId ==> !AcceptedAt(c, trust, events, j)
    ensures keyId !in PinsAfter(c, trust, events[..k])
  {
    if k > 0 {
      NoPinWithoutContact(c, trust, events, k - 1, keyId);
      PinsStep(c, trust, events, k - 1);
      assert events[k - 1].msg.keyId == keyId ==> !AcceptedAt(c, trust, events, k - 1);
    } else {
      assert events[..0] == [];
    }
  }

  /** The identities from which something is accepted in a run. */
  ghost function AcceptedIds(c: Crypto, trust: Trust, events: seq<Event>): set<string>
  {
    set k | 0 <= k < |events| && AcceptedAt(c, trust, events, k) :: events[k].msg.keyId
  }

  /** Whoever is accepted in the same routing slot is the same identity. */
  ghost predicate SlotsOwned(c: Crypto, trust: Trust, events: seq<Event>)
  {
    forall i, j | 0 <= i < |events| && 0 <= j < |events| ::
      AcceptedAt(c, trust, events, i) && AcceptedAt(c, trust, events, j) && events[i].msg.from == events[j].msg.from
      ==> events[i].msg.keyId == events[j].msg.keyId
  }

  /** An accepted message sits in the slot its identity hashes to. */
  lemma AcceptedSlot(c: Crypto, trust: Trust, events: seq<Event>, k: nat)
    requires k < |events| && AcceptedAt(c, trust, events, k)
    ensures events[k].msg.from == c.hash(events[k].msg.keyId)
    ensures events[k].msg.keyId in AcceptedIds(c, trust, events)
  {
  }

  /** Two identities accepted in one slot exhibit a collision of the hash, and their own slots are one. */
  lemma SharedSlotIsCollision(c: Crypto, trust: Trust, events: seq<Event>, i: nat, j: nat)
    requires i < |events| && j < |events| && AcceptedAt(c, trust, events, i) && AcceptedAt(c, trust, events, j)
    ensures events[i].msg.from == events[j].msg.from <==> c.hash(events[i].msg.keyId) == c.hash(events[j].msg.keyId)
  {
    AcceptedSlot(c, trust, events, i);
    AcceptedSlot(c, trust, events, j);
  }

  /** In a run every accepted slot belongs to one identity exactly when no two accepted identities collide. */
  lemma SlotBelongsToOne(c: Crypto, trust: Trust, events: seq<Event>)
    ensures SlotsOwned(c, trust, events) <==> CollisionFree(c.hash, AcceptedIds(c, trust, events))
  {
    var ids := AcceptedIds(c, trust, events);
    if SlotsOwned(c, trust, events) {
      forall a, b | a in ids && b in ids && c.hash(a) == c.hash(b) ensures a == b {
        var i :| 0 <= i < |events| && AcceptedAt(c, trust, events, i) && events[i].msg.keyId == a;
        var j :| 0 <= j < |events| && AcceptedAt(c, trust, events, j) && events[j].msg.keyId == b;
        SharedSlotIsCollision(c, trust, events, i, j);
      }
    }
    if CollisionFree(c.hash, ids) {
      forall i, j | 0 <= i < |events| && 0 <= j < |events|
        && AcceptedAt(c, trust, events, i) && AcceptedAt(c, trust, events, j)
        && events[i].msg.from == events[j].msg.from
        ensures events[i].msg.keyId == events[j].msg.keyId
      {
        AcceptedSlot(c, trust, events, i);
        AcceptedSlot(c, trust, events, j);
      }
    }
  }
}
