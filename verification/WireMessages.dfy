// What acceptance of a signed message means for its contents: when a message is
// accepted, and that an accepted one is, field by field, one its sender signed.

module WireMessages {
  import opened Wrappers
  import opened DhtNetwork
  import opened WireAuth

  /** The signature verifies under this key over the whole message, everything but the signature itself. */
  ghost predicate SignedUnder(c: Crypto, key: string, msg: Message)
  {
    var blank := Message(msg.msgId, msg.from, msg.fromAddr, msg.kind, msg.target, msg.key, msg.value, msg.entries,
                         msg.found, msg.keyId, msg.pubKey, "");
    exists k, p, s :: c.decodeKey(key) == Some(k) && c.encode(blank) == Some(p) && c.decodeSig(msg.sig) == Some(s)
                      && c.verify(k, p, s)
  }

  /** The key a message has to verify under: the trusted one, else the pinned one, else its own if it was asked for. */
  function KeyFor(trust: Trust, pins: map<string, string>, msg: Message, solicited: bool): Option<string>
  {
    match trust(msg.keyId)
    case Some(key) => if key != "" then Some(key) else Unlisted(pins, msg, solicited)
    case None => Unlisted(pins, msg, solicited)
  }

  function Unlisted(pins: map<string, string>, msg: Message, solicited: bool): Option<string>
  {
    if msg.keyId in pins then Some(pins[msg.keyId]) else if solicited then Some(msg.pubKey) else None
  }

  lemma ChecksIsSigned(c: Crypto, key: string, msg: Message)
    ensures Checks(c, key, msg) <==> SignedUnder(c, key, msg)
  {
  }

  /** A message is accepted exactly when it names itself, sits in its own slot, and verifies under that key. */
  lemma AcceptedIff(c: Crypto, trust: Trust, pins: map<string, string>, msg: Message, solicited: bool)
    ensures
      var v := Judge(c, trust, pins, msg, solicited);
      var key := KeyFor(trust, pins, msg, solicited);
      && (v.accepted <==>
           msg.sig != "" && msg.keyId != "" && c.hash(msg.keyId) == msg.from && key.Some?
             && SignedUnder(c, key.value, msg))
      && v.pins ==
           if v.accepted && !Trusted(trust, msg.keyId) && msg.keyId !in pins
           then pins[msg.keyId := msg.pubKey] else pins
  {
    var key := KeyFor(trust, pins, msg, solicited);
    if key.Some? { ChecksIsSigned(c, key.value, msg); }
  }

  /** Nothing verifies under the key but what its owner sent. */
  ghost predicate Unforgeable(c: Crypto, key: string, sent: set<Message>)
  {
    forall k, p, s :: c.decodeKey(key) == Some(k) && c.verify(k, p, s) ==>
      exists m :: m in sent && c.encode(m.(sig := "")) == Some(p)
  }

  ghost predicate EncodesApart(c: Crypto)
  {
    forall a, b :: c.encode(a).Some? && c.encode(a) == c.encode(b) ==> a == b
  }

  /**
   If signatures cannot be forged, every message accepted in a run is one that the owner
   of the identity's key sent, in every field but the signature: no type, key, value,
   entry or address of it was changed on the way.
   */
  lemma AcceptedWasSent(c: Crypto, trust: Trust, events: seq<Event>, k: nat, sent: set<Message>)
    requires k < |events| && AcceptedAt(c, trust, events, k) && EncodesApart(c)
    requires Unforgeable(c, KeyOf(c, trust, events, events[k].msg.keyId), sent)
    ensures exists m :: m in sent && m.(sig := events[k].msg.sig) == events[k].msg
  {
    var msg := events[k].msg;
    var key := KeyOf(c, trust, events, msg.keyId);
    OneKeyPerIdentity(c, trust, events, k);
    ChecksIsSigned(c, key, msg);
    var m :| m in sent && c.encode(m.(sig := "")) == c.encode(msg.(sig := ""));
    assert m.(sig := "") == msg.(sig := "");
    assert m.(sig := msg.sig) == msg;
  }
}
