/** Checking the origin of a witnessed event against an authority list. */
module Authorities {
  import opened Types

  /** Key and signature have the sr25519 sizes and the signature verifies. */
  predicate Verifies(verify: Verifier, w: WitnessedEvent) {
    |w.pubKey.raw| == 32 && |w.signature| == 64 && verify(w.pubKey.raw, w.eventId, w.signature)
  }

  /** Accepts exactly the verifying messages of authorities, and returns them unchanged. */
  function VerifyOrigin(verify: Verifier, authorities: seq<PublicPair>, w: WitnessedEvent): (r: Result<WitnessedEvent>)
    ensures r.Ok? <==> w.pubKey in authorities && Verifies(verify, w)
    ensures r.Ok? ==> r.value == w
    ensures r.Err? ==> r.error == BadWitnessedEventSignature
  {
    if w.pubKey in authorities then
      if |w.pubKey.raw| != 32 then Err(BadWitnessedEventSignature)
      else if |w.signature| != 64 then Err(BadWitnessedEventSignature)
      else if verify(w.pubKey.raw, w.eventId, w.signature) then Ok(w)
      else Err(BadWitnessedEventSignature)
    else Err(BadWitnessedEventSignature)
  }

  /** The keys of the authority list held by the keystore, in list order. */
  function SupportedKeys(held: set<PublicPair>, authorities: seq<PublicPair>): (r: seq<PublicPair>)
    ensures forall k :: k in r <==> k in authorities && k in held
    ensures r != [] ==> exists i ::
              && 0 <= i < |authorities| && authorities[i] == r[0]
              && forall j | 0 <= j < i :: authorities[j] !in held
  {
    if authorities == [] then []
    else (if authorities[0] in held then [authorities[0]] else []) + SupportedKeys(held, authorities[1..])
  }

  /** The key is the first of the list that the keystore holds. */
  ghost predicate FirstHeld(held: set<PublicPair>, authorities: seq<PublicPair>, k: PublicPair) {
    k in held && exists i :: 0 <= i < |authorities| && authorities[i] == k
                             && forall j | 0 <= j < i :: authorities[j] !in held
  }

  /**
    The honest signing step: look up the finalized authorities, sign with the first of their keys
    that the keystore holds, and publish the serialized message. The keystore may fail either call
    or decline to sign; exactly one message is published when every step succeeds, and otherwise
    none.
   */
  method WitnessEvent(authorities: Result<seq<PublicPair>>, keystore: Result<set<PublicPair>>,
                      sign: (PublicPair, EventId) -> Result<Option<Bytes>>,
                      serialize: WitnessedEvent -> Option<Bytes>, e: EventId)
    returns (r: Result<()>, published: Option<Bytes>)
    ensures r.Ok? <==> published.Some?
    ensures authorities.Err? ==> r == Err(authorities.error)
    ensures authorities.Ok? && keystore.Err? ==> r == Err(SigningFailure)
    ensures authorities.Ok? && keystore.Ok? && (forall k :: k in authorities.value ==> k !in keystore.value) ==>
              r == Err(NotAValidator)
    ensures authorities.Ok? && keystore.Ok? ==>
              forall k | FirstHeld(keystore.value, authorities.value, k) ::
                if sign(k, e).Ok? && sign(k, e).value.Some? then
                  var m := WitnessedEvent(sign(k, e).value.value, k, e);
                  published == serialize(m) && (r.Err? ==> r.error == SerializationFailure)
                else r == Err(SigningFailure)
  {
    published := None;
    if authorities.Err? {
      return Err(authorities.error), None;
    }
    if keystore.Err? {
      return Err(SigningFailure), None;
    }
    var keys := SupportedKeys(keystore.value, authorities.value);
    if keys == [] {
      return Err(NotAValidator), None;
    }
    assert keys[0] in keys;
    var signature := sign(keys[0], e);
    if signature.Err? || signature.value.None? {
      return Err(SigningFailure), None;
    }
    published := serialize(WitnessedEvent(signature.value.value, keys[0], e));
    r := if published.Some? then Ok(()) else Err(SerializationFailure);
  }
}
