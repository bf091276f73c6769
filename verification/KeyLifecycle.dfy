/** Operational key lifecycle and envelope verification (src/crypto.rs).

    Ed25519 and SHA-256 are the fields of `Crypto`: arbitrary functions, with no assumption made
    about them here.  Timestamps are integer seconds once they parse. */
module KeyLifecycle {
  import opened Wrappers

  const MAX_CLOCK_SKEW_SECONDS := 300
  const MAX_SIGNED_MESSAGE_LIFETIME_SECONDS := 3600
  const MAX_ROTATION_OVERLAP_SECONDS := 86_400

  const SIGNED_ENVELOPE_SCHEMA := "qsol-fed-signed-envelope/1"
  const NODE_IDENTITY_SCHEMA := "qsol-fed-node-identity/1"
  const KEY_ROTATION_SCHEMA := "qsol-fed-key-rotation/1"
  const KEY_STATUS_SCHEMA := "qsol-fed-key-status/1"

  /** A timestamp field: the instant it denotes, or text that is no wire timestamp. */
  datatype Stamp = At(unix: int) | Malformed

  datatype Document = Document(
    schema: string, nodeId: string, rootKeyId: string, rootPublicKey: string,
    operationalKeyId: string, operationalPublicKey: string, createdAt: Stamp, rootSignature: string)

  datatype RotationMode = Transition | Recovery

  datatype Rotation = Rotation(
    schema: string, nodeId: string, sequence: nat, mode: RotationMode,
    previousKeyId: string, nextKeyId: string, nextPublicKey: string,
    notBefore: Stamp, overlapUntil: Stamp,
    previousSignature: Option<string>, nextSignature: string, rootSignature: string)

  datatype StatusKind = RevokedKind | CompromisedKind

  datatype StatusChange = StatusChange(
    schema: string, nodeId: string, sequence: nat, keyId: string, kind: StatusKind,
    effectiveAt: Stamp, reason: string, rootSignature: string)

  /** One entry of a peer's lifecycle. */
  datatype Record = RotationRecord(rotation: Rotation) | StatusRecord(change: StatusChange)

  /** Everything of an envelope but its message id; the id is derived from this projection. */
  datatype Body = Body(
    protocol: string, sender: string, recipient: string, messageClass: string,
    payloadRef: string, provenanceRef: Option<string>, issuedAt: Stamp, expiresAt: Option<Stamp>)

  datatype SignedEnvelope = SignedEnvelope(
    schema: string, nodeId: string, keyId: string, messageId: string, body: Body, signature: string)

  /** What a signature covers.  The constructor plays the part of the signing domain. */
  datatype Payload =
    | IdentityPayload(document: Document)
    | RotationPayload(rotation: Rotation)
    | StatusPayload(change: StatusChange)
    | EnvelopePayload(messageId: string, body: Body)

  datatype Crypto = Crypto(
    keyIdOf: string -> string,
    nodeIdOf: string -> string,
    verifies: (string, Payload, string) -> bool,
    messageIdOf: Body -> string,
    wellShaped: Body -> bool)

  datatype KeyStatus = Active | Revoked | Compromised

  datatype KeyState = KeyState(publicKey: string, validFrom: int, validUntil: Option<int>, status: KeyStatus)

  datatype Identity = Identity(
    nodeId: string, rootKeyId: string, rootPublicKey: string, currentKeyId: string,
    sequence: nat, keys: map<string, KeyState>)

  datatype Reason =
    | IdentityUnverified
    | ShapeOrSequence
    | BadTimestamp
    | OverlapInvalid
    | OverlappingTransitions
    | SignatureInvalid
    | PreviousKeyMissing
    | TransitionNeedsActiveKey
    | PreviousSignatureInvalid
    | RecoveryInvalid
    | BeforePreviousActivation
    | TargetUnknown
    | StatusBeforeActivation

  // ---------------------------------------------------------------- the checks

  function IdentityPayloadOf(d: Document): Payload {
    IdentityPayload(d.(rootSignature := ""))
  }

  function RotationPayloadOf(r: Rotation): Payload {
    RotationPayload(r.(previousSignature := None, nextSignature := "", rootSignature := ""))
  }

  function StatusPayloadOf(k: StatusChange): Payload {
    StatusPayload(k.(rootSignature := ""))
  }

  predicate DocumentVerifies(c: Crypto, d: Document) {
    && d.schema == NODE_IDENTITY_SCHEMA
    && d.rootKeyId != d.operationalKeyId
    && d.nodeId == c.nodeIdOf(d.rootPublicKey)
    && d.rootKeyId == c.keyIdOf(d.rootPublicKey)
    && d.operationalKeyId == c.keyIdOf(d.operationalPublicKey)
    && d.createdAt.At?
    && c.verifies(d.rootPublicKey, IdentityPayloadOf(d), d.rootSignature)
  }

  function FromDocument(c: Crypto, d: Document): Result<Identity, Reason> {
    if !DocumentVerifies(c, d) then Err(IdentityUnverified)
    else Ok(Identity(d.nodeId, d.rootKeyId, d.rootPublicKey, d.operationalKeyId, 0,
                     map[d.operationalKeyId := KeyState(d.operationalPublicKey, d.createdAt.unix, None, Active)]))
  }

  /** `ensure_no_other_overlap`: the comparison is strict. */
  predicate NoOtherOverlap(s: Identity, exceptKey: string, notBefore: int) {
    forall k | k in s.keys && k != exceptKey && s.keys[k].status == Active && s.keys[k].validUntil.Some? ::
      s.keys[k].validUntil.value <= notBefore
  }

  /** The first reason for which `apply_rotation` refuses `r`, if any. */
  function RotationError(c: Crypto, s: Identity, r: Rotation): Option<Reason> {
    if || r.schema != KEY_ROTATION_SCHEMA || r.nodeId != s.nodeId
       || r.sequence != s.sequence + 1 || r.previousKeyId != s.currentKeyId
       || r.nextKeyId == s.rootKeyId || r.nextKeyId != c.keyIdOf(r.nextPublicKey)
       || r.nextKeyId in s.keys then Some(ShapeOrSequence)
    else if r.notBefore.Malformed? || r.overlapUntil.Malformed? then Some(BadTimestamp)
    else if || r.overlapUntil.unix < r.notBefore.unix
            || r.overlapUntil.unix - r.notBefore.unix > MAX_ROTATION_OVERLAP_SECONDS then Some(OverlapInvalid)
    else if !NoOtherOverlap(s, r.previousKeyId, r.notBefore.unix) then Some(OverlappingTransitions)
    else if || !c.verifies(s.rootPublicKey, RotationPayloadOf(r), r.rootSignature)
            || !c.verifies(r.nextPublicKey, RotationPayloadOf(r), r.nextSignature) then Some(SignatureInvalid)
    else if r.previousKeyId !in s.keys then Some(PreviousKeyMissing)
    else
      var previous := s.keys[r.previousKeyId];
      if r.mode == Transition && previous.status != Active then Some(TransitionNeedsActiveKey)
      else if && r.mode == Transition
              && (|| r.previousSignature.None?
                  || !c.verifies(previous.publicKey, RotationPayloadOf(r), r.previousSignature.value))
      then Some(PreviousSignatureInvalid)
      else if && r.mode == Recovery
              && (|| r.previousSignature.Some? || previous.status == Active
                  || r.overlapUntil.unix != r.notBefore.unix) then Some(RecoveryInvalid)
      else if r.notBefore.unix < previous.validFrom then Some(BeforePreviousActivation)
      else None
  }

  function StatusError(c: Crypto, s: Identity, k: StatusChange): Option<Reason> {
    if || k.schema != KEY_STATUS_SCHEMA || k.nodeId != s.nodeId
       || k.sequence != s.sequence + 1 || k.keyId == s.rootKeyId then Some(ShapeOrSequence)
    else if k.effectiveAt.Malformed? then Some(BadTimestamp)
    else if !c.verifies(s.rootPublicKey, StatusPayloadOf(k), k.rootSignature) then Some(SignatureInvalid)
    else if k.keyId !in s.keys then Some(TargetUnknown)
    else if k.effectiveAt.unix < s.keys[k.keyId].validFrom then Some(StatusBeforeActivation)
    else None
  }

  // ---------------------------------------------------------------- accepted records

  function Rotated(c: Crypto, s: Identity, r: Rotation): Identity
    requires RotationError(c, s, r).None?
  {
    var retired := s.keys[r.previousKeyId].(validUntil := Some(r.overlapUntil.unix));
    var next := KeyState(r.nextPublicKey, r.notBefore.unix, None, Active);
    s.(keys := s.keys[r.previousKeyId := retired][r.nextKeyId := next],
       currentKeyId := r.nextKeyId, sequence := r.sequence)
  }

  function StatusOf(kind: StatusKind): KeyStatus {
    match kind
    case RevokedKind => Revoked
    case CompromisedKind => Compromised
  }

  function Earlier(until: Option<int>, t: int): int {
    if until.Some? && until.value < t then until.value else t
  }

  function StatusChanged(c: Crypto, s: Identity, k: StatusChange): Identity
    requires StatusError(c, s, k).None?
  {
    var target := s.keys[k.keyId];
    var until := Earlier(target.validUntil, k.effectiveAt.unix);
    var struck := target.(status := StatusOf(k.kind), validUntil := Some(until));
    s.(keys := s.keys[k.keyId := struck], sequence := k.sequence)
  }

  function Apply(c: Crypto, s: Identity, r: Record): Result<Identity, Reason> {
    match r
    case RotationRecord(x) =>
      var e := RotationError(c, s, x);
      if e.Some? then Err(e.value) else Ok(Rotated(c, s, x))
    case StatusRecord(x) =>
      var e := StatusError(c, s, x);
      if e.Some? then Err(e.value) else Ok(StatusChanged(c, s, x))
  }

  /** The records applied in order; the first rejection stops the whole. */
  function Extend(c: Crypto, s: Identity, records: seq<Record>): Result<Identity, Reason>
    decreases |records|
  {
    if records == [] then Ok(s)
    else
      var r := Apply(c, s, records[0]);
      if r.Err? then r else Extend(c, r.value, records[1..])
  }

  function Rebuild(c: Crypto, d: Document, records: seq<Record>): Result<Identity, Reason> {
    var s := FromDocument(c, d);
    if s.Err? then s else Extend(c, s.value, records)
  }

  /** The mutable state the node keeps.  A refused record changes no field. */
  class IdentityState {
    var nodeId: string
    var rootKeyId: string
    var rootPublicKey: string
    var currentKeyId: string
    var sequence: nat
    var keys: map<string, KeyState>

    function View(): Identity
      reads this
    {
      Identity(nodeId, rootKeyId, rootPublicKey, currentKeyId, sequence, keys)
    }

    constructor (s: Identity)
      ensures View() == s
    {
      nodeId, rootKeyId, rootPublicKey := s.nodeId, s.rootKeyId, s.rootPublicKey;
      currentKeyId, sequence, keys := s.currentKeyId, s.sequence, s.keys;
    }

    /** `ensure_no_other_overlap`: looks at the keys one by one. */
    method EnsureNoOtherOverlap(exceptKey: string, notBefore: int) returns (ok: bool)
      ensures ok == NoOtherOverlap(View(), exceptKey, notBefore)
    {
      var left := keys.Keys;
      while left != {}
        invariant left <= keys.Keys
        invariant forall k | k in keys.Keys - left ::
                    k == exceptKey || keys[k].status != Active || keys[k].validUntil.None?
                    || keys[k].validUntil.value <= notBefore
        decreases left
      {
        var k :| k in left;
        left := left - {k};
        if k != exceptKey && keys[k].status == Active && keys[k].validUntil.Some? {
          if keys[k].validUntil.value > notBefore {
            return false;
          }
        }
      }
      ok := true;
    }

    method ApplyRotation(c: Crypto, r: Rotation) returns (rejected: Option<Reason>)
      modifies this
      ensures Apply(c, old(View()), RotationRecord(r)) ==
              if rejected.Some? then Err(rejected.value) else Ok(View())
      ensures rejected.Some? ==> View() == old(View())
      ensures WellKept(old(View())) ==> WellKept(View()) && Restricts(old(View()), View())
    {
      ghost var before := View();
      if || r.schema != KEY_ROTATION_SCHEMA || r.nodeId != nodeId || r.sequence != sequence + 1
         || r.previousKeyId != currentKeyId || r.nextKeyId == rootKeyId || r.nextKeyId != c.keyIdOf(r.nextPublicKey)
         || r.nextKeyId in keys {
        return Some(ShapeOrSequence);
      }
      if r.notBefore.Malformed? || r.overlapUntil.Malformed? {
        return Some(BadTimestamp);
      }
      var notBefore, overlapUntil := r.notBefore.unix, r.overlapUntil.unix;
      if overlapUntil < notBefore || overlapUntil - notBefore > MAX_ROTATION_OVERLAP_SECONDS {
        return Some(OverlapInvalid);
      }
      var alone := EnsureNoOtherOverlap(r.previousKeyId, notBefore);
      if !alone {
        return Some(OverlappingTransitions);
      }
      var payload := RotationPayloadOf(r);
      if || !c.verifies(rootPublicKey, payload, r.rootSignature)
         || !c.verifies(r.nextPublicKey, payload, r.nextSignature) {
        return Some(SignatureInvalid);
      }
      if r.previousKeyId !in keys {
        return Some(PreviousKeyMissing);
      }
      var previous := keys[r.previousKeyId];
      match r.mode {
        case Transition =>
          if previous.status != Active {
            return Some(TransitionNeedsActiveKey);
          }
          if r.previousSignature.None? || !c.verifies(previous.publicKey, payload, r.previousSignature.value) {
            return Some(PreviousSignatureInvalid);
          }
        case Recovery =>
          if r.previousSignature.Some? || previous.status == Active || overlapUntil != notBefore {
            return Some(RecoveryInvalid);
          }
      }
      if notBefore < previous.validFrom {
        return Some(BeforePreviousActivation);
      }
      previous := previous.(validUntil := Some(overlapUntil));
      keys := keys[r.previousKeyId := previous];
      var next := KeyState(r.nextPublicKey, notBefore, None, Active);
      keys := keys[r.nextKeyId := next];
      currentKeyId := r.nextKeyId;
      sequence := r.sequence;
      rejected := None;
      assert Apply(c, before, RotationRecord(r)) == Ok(View());
      if WellKept(before) {
        StepKeeps(c, before, RotationRecord(r));
      }
    }

    method ApplyKeyStatus(c: Crypto, k: StatusChange) returns (rejected: Option<Reason>)
      modifies this
      ensures Apply(c, old(View()), StatusRecord(k)) ==
              if rejected.Some? then Err(rejected.value) else Ok(View())
      ensures rejected.Some? ==> View() == old(View())
      ensures WellKept(old(View())) ==> WellKept(View()) && Restricts(old(View()), View())
    {
      ghost var before := View();
      if k.schema != KEY_STATUS_SCHEMA || k.nodeId != nodeId || k.sequence != sequence + 1 || k.keyId == rootKeyId {
        return Some(ShapeOrSequence);
      }
      if k.effectiveAt.Malformed? {
        return Some(BadTimestamp);
      }
      var effectiveAt := k.effectiveAt.unix;
      if !c.verifies(rootPublicKey, StatusPayloadOf(k), k.rootSignature) {
        return Some(SignatureInvalid);
      }
      if k.keyId !in keys {
        return Some(TargetUnknown);
      }
      var key := keys[k.keyId];
      if effectiveAt < key.validFrom {
        return Some(StatusBeforeActivation);
      }
      match k.kind {
        case RevokedKind => key := key.(status := Revoked);
        case CompromisedKind => key := key.(status := Compromised);
      }
      if key.validUntil.None? || effectiveAt < key.validUntil.value {
        key := key.(validUntil := Some(effectiveAt));
      }
      keys := keys[k.keyId := key];
      sequence := k.sequence;
      rejected := None;
      assert Apply(c, before, StatusRecord(k)) == Ok(View());
      if WellKept(before) {
        StepKeeps(c, before, StatusRecord(k));
      }
    }
  }

  /** `rebuild_peer_identity`: a fold over the records that stops at the first rejection. */
  method RebuildPeerIdentity(c: Crypto, d: Document, records: seq<Record>) returns (r: Result<Identity, Reason>)
    ensures r == Rebuild(c, d, records)
  {
    var start := FromDocument(c, d);
    if start.Err? {
      return start;
    }
    var state := new IdentityState(start.value);
    var i := 0;
    while i < |records|
      invariant 0 <= i <= |records|
      invariant fresh(state)
      invariant Extend(c, start.value, records) == Extend(c, state.View(), records[i..])
    {
      assert records[i..][1..] == records[i + 1..];
      var rejected;
      match records[i] {
        case RotationRecord(x) => rejected := state.ApplyRotation(c, x);
        case StatusRecord(x) => rejected := state.ApplyKeyStatus(c, x);
      }
      if rejected.Some? {
        return Err(rejected.value);
      }
      i := i + 1;
    }
    r := Ok(state.View());
  }

  /** Rebuilding from the whole history is the same as extending what the earlier history gave. */
  lemma {:induction false} ExtendSplits(c: Crypto, s: Identity, first: seq<Record>, later: seq<Record>)
    ensures Extend(c, s, first + later) ==
            if Extend(c, s, first).Err? then Extend(c, s, first)
            else Extend(c, Extend(c, s, first).value, later)
    decreases |first|
  {
    if first == [] {
      assert first + later == later;
    } else {
      assert (first + later)[0] == first[0] && (first + later)[1..] == first[1..] + later;
      var r := Apply(c, s, first[0]);
      if r.Ok? {
        ExtendSplits(c, r.value, first[1..], later);
      }
    }
  }

  // ---------------------------------------------------------------- verification

  datatype ClockPolicy = ClockPolicy(skew: int, lifetime: int)

  const DEFAULT_CLOCK_POLICY := ClockPolicy(MAX_CLOCK_SKEW_SECONDS, MAX_SIGNED_MESSAGE_LIFETIME_SECONDS)

  /** `ClockPolicy::validate_envelope`. */
  predicate ClockAccepts(p: ClockPolicy, b: Body, now: int) {
    && b.issuedAt.At?
    && b.expiresAt.Some?
    && b.expiresAt.value.At?
    && b.expiresAt.value.unix > b.issuedAt.unix
    && b.expiresAt.value.unix - b.issuedAt.unix <= p.lifetime
    && b.issuedAt.unix <= now + p.skew
    && b.expiresAt.value.unix >= now - p.skew
  }

  datatype Validity =
    | Valid | Invalid | UnknownKey | RevokedKey | CompromisedKey | NotYetValid | Retired
    | ClockRejected | NodeMismatch | EnvelopeMalformed

  /** `verify_signed_envelope`, in the order of its checks.  `EnvelopeMalformed` stands for its error return. */
  function Verify(c: Crypto, p: ClockPolicy, e: SignedEnvelope, s: Identity, now: int): Validity {
    if e.schema != SIGNED_ENVELOPE_SCHEMA || e.nodeId != s.nodeId || e.body.sender != s.nodeId then NodeMismatch
    else if !ClockAccepts(p, e.body, now) then ClockRejected
    else if e.keyId !in s.keys then UnknownKey
    else
      var key := s.keys[e.keyId];
      var issued := e.body.issuedAt.unix;
      if key.status == Revoked then RevokedKey
      else if key.status == Compromised then CompromisedKey
      else if issued < key.validFrom then NotYetValid
      else if key.validUntil.Some? && issued > key.validUntil.value then Retired
      else if !c.wellShaped(e.body) || c.messageIdOf(e.body) != e.messageId then EnvelopeMalformed
      else if c.verifies(key.publicKey, EnvelopePayload(e.messageId, e.body), e.signature) then Valid
      else Invalid
  }

  // ---------------------------------------------------------------- what every accepted history keeps

  /** The Active keys whose half-open validity interval contains t. */
  function Covering(s: Identity, t: int): set<string> {
    set k | k in s.keys && s.keys[k].status == Active && s.keys[k].validFrom <= t
            && (s.keys[k].validUntil.None? || t < s.keys[k].validUntil.value)
  }

  /** Invariant of every identity reached by accepted records. */
  ghost predicate WellKept(s: Identity) {
    && s.currentKeyId in s.keys
    && s.rootKeyId !in s.keys
    && (forall k | k in s.keys && k != s.currentKeyId :: s.keys[k].validUntil.Some?)
    && (s.keys[s.currentKeyId].status == Active ==> s.keys[s.currentKeyId].validUntil.None?)
    && (forall t: int :: |Covering(s, t)| <= 2)
  }

  /** `later` restricts `earlier`: known keys keep their material and only lose validity. */
  ghost predicate Restricts(earlier: Identity, later: Identity) {
    && later.nodeId == earlier.nodeId
    && later.rootKeyId == earlier.rootKeyId
    && later.rootPublicKey == earlier.rootPublicKey
    && forall k | k in earlier.keys ::
         && k in later.keys
         && later.keys[k].publicKey == earlier.keys[k].publicKey
         && later.keys[k].validFrom == earlier.keys[k].validFrom
         && (later.keys[k].status == Active ==>
               && earlier.keys[k].status == Active
               && (earlier.keys[k].validUntil.Some? ==>
                     && later.keys[k].validUntil.Some?
                     && later.keys[k].validUntil.value <= earlier.keys[k].validUntil.value))
  }

  lemma InitialWellKept(c: Crypto, d: Document)
    requires FromDocument(c, d).Ok?
    ensures WellKept(FromDocument(c, d).value)
  {
    var s := FromDocument(c, d).value;
    forall t: int
      ensures |Covering(s, t)| <= 2
    {
      SubsetCardinality(Covering(s, t), {d.operationalKeyId});
    }
  }

  lemma RotationKeepsTwo(c: Crypto, s: Identity, r: Rotation, t: int)
    requires WellKept(s) && RotationError(c, s, r).None?
    ensures |Covering(Rotated(c, s, r), t)| <= 2
  {
    var after := Covering(Rotated(c, s, r), t);
    if t < r.notBefore.unix {
      SubsetCardinality(after, Covering(s, t));
    } else {
      SubsetCardinality(after, {r.previousKeyId, r.nextKeyId});
    }
  }

  lemma StepKeeps(c: Crypto, s: Identity, r: Record)
    requires WellKept(s) && Apply(c, s, r).Ok?
    ensures WellKept(Apply(c, s, r).value)
    ensures Restricts(s, Apply(c, s, r).value)
    ensures Apply(c, s, r).value.sequence == s.sequence + 1
  {
    var after := Apply(c, s, r).value;
    forall t: int
      ensures |Covering(after, t)| <= 2
    {
      match r {
        case RotationRecord(x) => RotationKeepsTwo(c, s, x, t);
        case StatusRecord(x) => SubsetCardinality(Covering(after, t), Covering(s, t));
      }
    }
  }

  lemma {:induction false} ExtensionKeeps(c: Crypto, s: Identity, records: seq<Record>)
    requires WellKept(s) && Extend(c, s, records).Ok?
    ensures WellKept(Extend(c, s, records).value)
    ensures Restricts(s, Extend(c, s, records).value)
    ensures Extend(c, s, records).value.sequence == s.sequence + |records|
    decreases |records|
  {
    if records != [] {
      StepKeeps(c, s, records[0]);
      ExtensionKeeps(c, Apply(c, s, records[0]).value, records[1..]);
    }
  }

  /** At every instant at most two Active keys are in force, whatever history was accepted; the root key is
      never among the operational keys, and the sequence number counts the records. */
  lemma AtMostTwoActiveKeys(c: Crypto, d: Document, records: seq<Record>)
    requires Rebuild(c, d, records).Ok?
    ensures WellKept(Rebuild(c, d, records).value)
    ensures forall t: int :: |Covering(Rebuild(c, d, records).value, t)| <= 2
    ensures d.rootKeyId !in Rebuild(c, d, records).value.keys
    ensures Rebuild(c, d, records).value.sequence == |records|
  {
    InitialWellKept(c, d);
    ExtensionKeeps(c, FromDocument(c, d).value, records);
  }

  /** Every instant from `start` on has an Active key in force. */
  ghost predicate Gapless(s: Identity, start: int) {
    forall t: int | start <= t :: Covering(s, t) != {}
  }

  lemma TransitionKeepsGapless(c: Crypto, s: Identity, r: Rotation, start: int)
    requires WellKept(s) && RotationError(c, s, r).None? && s.keys[s.currentKeyId].status == Active
    requires Gapless(s, start)
    ensures Gapless(Rotated(c, s, r), start)
  {
    var after := Rotated(c, s, r);
    forall t: int | start <= t
      ensures Covering(after, t) != {}
    {
      if r.notBefore.unix <= t {
        assert r.nextKeyId in Covering(after, t);
      } else {
        var k :| k in Covering(s, t);
        assert k in Covering(after, t);
      }
    }
  }

  lemma {:induction false} RotationsLeaveNoGap(c: Crypto, s: Identity, records: seq<Record>, start: int)
    requires WellKept(s) && Extend(c, s, records).Ok? && Gapless(s, start)
    requires s.keys[s.currentKeyId].status == Active
    requires forall i | 0 <= i < |records| :: records[i].RotationRecord?
    ensures Gapless(Extend(c, s, records).value, start)
    decreases |records|
  {
    if records != [] {
      StepKeeps(c, s, records[0]);
      TransitionKeepsGapless(c, s, records[0].rotation, start);
      RotationsLeaveNoGap(c, Apply(c, s, records[0]).value, records[1..], start);
    }
  }

  /** Without a status record there is no instant after creation at which no key is in force. */
  lemma AlwaysSomeActiveKey(c: Crypto, d: Document, records: seq<Record>)
    requires Rebuild(c, d, records).Ok?
    requires forall i | 0 <= i < |records| :: records[i].RotationRecord?
    ensures Gapless(Rebuild(c, d, records).value, d.createdAt.unix)
  {
    var s := FromDocument(c, d).value;
    InitialWellKept(c, d);
    forall t: int | d.createdAt.unix <= t
      ensures Covering(s, t) != {}
    {
      assert d.operationalKeyId in Covering(s, t);
    }
    RotationsLeaveNoGap(c, s, records, d.createdAt.unix);
  }

  /** Extending a history never validates an envelope under a key that was already known. */
  lemma ExtensionNeverValidates(c: Crypto, p: ClockPolicy, d: Document, records: seq<Record>, more: seq<Record>,
                                e: SignedEnvelope, now: int)
    requires Rebuild(c, d, records).Ok? && Rebuild(c, d, records + more).Ok?
    requires e.keyId in Rebuild(c, d, records).value.keys
    requires Verify(c, p, e, Rebuild(c, d, records + more).value, now) == Valid
    ensures Verify(c, p, e, Rebuild(c, d, records).value, now) == Valid
  {
    ExtendSplits(c, FromDocument(c, d).value, records, more);
    AtMostTwoActiveKeys(c, d, records);
    ExtensionKeeps(c, Rebuild(c, d, records).value, more);
  }

  lemma RebuiltNode(c: Crypto, d: Document, records: seq<Record>)
    requires Rebuild(c, d, records).Ok?
    ensures Rebuild(c, d, records).value.nodeId == d.nodeId
  {
    InitialWellKept(c, d);
    ExtensionKeeps(c, FromDocument(c, d).value, records);
  }

  /** A revoked or compromised key verifies nothing, then or after any further records. */
  lemma StruckKeyStaysStruck(c: Crypto, p: ClockPolicy, d: Document, records: seq<Record>, more: seq<Record>,
                             e: SignedEnvelope, now: int)
    requires Rebuild(c, d, records).Ok? && Rebuild(c, d, records + more).Ok?
    requires e.keyId in Rebuild(c, d, records).value.keys
    requires Rebuild(c, d, records).value.keys[e.keyId].status != Active
    ensures Verify(c, p, e, Rebuild(c, d, records + more).value, now) != Valid
  {
    ExtendSplits(c, FromDocument(c, d).value, records, more);
    AtMostTwoActiveKeys(c, d, records);
    ExtensionKeeps(c, Rebuild(c, d, records).value, more);
  }

  // ---------------------------------------------------------------- why the count is on half-open intervals

  /* `verify_signed_envelope` treats `valid_until` as inclusive while the overlap check is strict, so rotations
     that share one instant all stay acceptable at that instant: any number of keys verifies there. */

  function Name(i: nat): string {
    seq(i + 1, _ => 'k')
  }

  /** A scheme that accepts every signature and names each key by itself. */
  const LENIENT := Crypto(k => k, k => k, (_, _, _) => true, _ => "", _ => true)

  const SHARED_DOCUMENT := Document(NODE_IDENTITY_SCHEMA, "r", "r", "r", Name(0), Name(0), At(0), "")

  function RotationAtZero(i: nat): Record {
    RotationRecord(Rotation(KEY_ROTATION_SCHEMA, "r", i + 1, Transition, Name(i), Name(i + 1), Name(i + 1),
                            At(0), At(0), Some(""), "", ""))
  }

  function RotationsAtZero(n: nat): seq<Record> {
    seq(n, i requires 0 <= i => RotationAtZero(i))
  }

  function EnvelopeAtZero(i: nat): SignedEnvelope {
    SignedEnvelope(SIGNED_ENVELOPE_SCHEMA, "r", Name(i), "",
                   Body("", "r", "", "", "", None, At(0), Some(At(1))), "")
  }

  ghost predicate AllAtZero(s: Identity, n: nat) {
    && s.nodeId == "r" && s.rootKeyId == "r" && s.currentKeyId == Name(n) && s.sequence == n
    && s.keys.Keys == (set i | 0 <= i <= n :: Name(i))
    && forall k | k in s.keys ::
         && s.keys[k].status == Active && s.keys[k].validFrom == 0
         && (s.keys[k].validUntil.None? || s.keys[k].validUntil.value == 0)
  }

  lemma NextAtZero(s: Identity, n: nat)
    requires AllAtZero(s, n)
    ensures Apply(LENIENT, s, RotationAtZero(n)).Ok?
    ensures AllAtZero(Apply(LENIENT, s, RotationAtZero(n)).value, n + 1)
  {
  }

  lemma {:induction false} RotationsAtZeroAccepted(n: nat)
    ensures Rebuild(LENIENT, SHARED_DOCUMENT, RotationsAtZero(n)).Ok?
    ensures AllAtZero(Rebuild(LENIENT, SHARED_DOCUMENT, RotationsAtZero(n)).value, n)
  {
    assert Name(0)[0] == 'k';
    var start := FromDocument(LENIENT, SHARED_DOCUMENT);
    assert start.Ok?;
    if n == 0 {
      assert start.value.keys.Keys == {Name(0)};
    } else {
      RotationsAtZeroAccepted(n - 1);
      var s := Rebuild(LENIENT, SHARED_DOCUMENT, RotationsAtZero(n - 1)).value;
      NextAtZero(s, n - 1);
      var r := RotationAtZero(n - 1);
      assert RotationsAtZero(n) == RotationsAtZero(n - 1) + [r];
      ExtendSplits(LENIENT, start.value, RotationsAtZero(n - 1), [r]);
      assert Extend(LENIENT, s, [r]) == Extend(LENIENT, Apply(LENIENT, s, r).value, []);
    }
  }

  /** For every n some accepted history leaves n + 1 distinct keys that all verify envelopes issued at one
      instant, so no bound on simultaneously accepted keys holds with `valid_until` read as inclusive. */
  lemma InclusiveValidityUnbounded(n: nat)
    ensures Rebuild(LENIENT, SHARED_DOCUMENT, RotationsAtZero(n)).Ok?
    ensures forall i | 0 <= i <= n ::
              Verify(LENIENT, DEFAULT_CLOCK_POLICY, EnvelopeAtZero(i),
                     Rebuild(LENIENT, SHARED_DOCUMENT, RotationsAtZero(n)).value, 0) == Valid
    ensures forall i, j | 0 <= i < j <= n :: Name(i) != Name(j)
  {
    RotationsAtZeroAccepted(n);
    forall i, j | 0 <= i < j <= n
      ensures Name(i) != Name(j)
    {
      assert |Name(i)| == i + 1 && |Name(j)| == j + 1;
    }
    var s := Rebuild(LENIENT, SHARED_DOCUMENT, RotationsAtZero(n)).value;
    forall i | 0 <= i <= n
      ensures Verify(LENIENT, DEFAULT_CLOCK_POLICY, EnvelopeAtZero(i), s, 0) == Valid
    {
      assert Name(i) in s.keys;
    }
  }

  // ---------------------------------------------------------------- when two keys at most are accepted after all

  /** The Active keys accepted at t, with `valid_until` inclusive as in verification. */
  function Accepted(s: Identity, t: int): set<string> {
    set k | k in s.keys && s.keys[k].status == Active && s.keys[k].validFrom <= t
            && (s.keys[k].validUntil.None? || t <= s.keys[k].validUntil.value)
  }

  /** These are the keys under which verification gets as far as the signature. */
  lemma AcceptedMeansChecked(c: Crypto, p: ClockPolicy, e: SignedEnvelope, s: Identity, now: int)
    requires e.schema == SIGNED_ENVELOPE_SCHEMA && e.nodeId == s.nodeId == e.body.sender && ClockAccepts(p, e.body, now)
    ensures Verify(c, p, e, s, now) in {Valid, Invalid, EnvelopeMalformed}
            <==> e.keyId in Accepted(s, e.body.issuedAt.unix)
  {
  }

  ghost predicate TwoAccepted(s: Identity) {
    forall t: int :: |Accepted(s, t)| <= 2
  }

  /** The keys besides the previous one whose last accepted instant is the one the rotation starts at. */
  function Ending(s: Identity, r: Rotation): set<string>
    requires r.notBefore.At?
  {
    set k | k in s.keys && k != r.previousKeyId && s.keys[k].status == Active
            && s.keys[k].validFrom <= r.notBefore.unix && s.keys[k].validUntil == Some(r.notBefore.unix)
  }

  /** How many such keys the rotation leaves room for: its own key takes one place, and in a transition the previous
      key takes the other. */
  function Room(r: Rotation): nat {
    if r.mode == Transition then 0 else 1
  }

  lemma AcceptedAtStart(c: Crypto, s: Identity, r: Rotation)
    requires WellKept(s) && RotationError(c, s, r).None?
    ensures |Accepted(Rotated(c, s, r), r.notBefore.unix)| == |Ending(s, r)| + 2 - Room(r)
  {
    var own := if r.mode == Transition then {r.previousKeyId, r.nextKeyId} else {r.nextKeyId};
    assert Accepted(Rotated(c, s, r), r.notBefore.unix) == Ending(s, r) + own;
  }

  lemma AcceptedElsewhere(c: Crypto, s: Identity, r: Rotation, t: int)
    requires WellKept(s) && TwoAccepted(s) && RotationError(c, s, r).None? && t != r.notBefore.unix
    ensures |Accepted(Rotated(c, s, r), t)| <= 2
  {
    var after := Accepted(Rotated(c, s, r), t);
    if t < r.notBefore.unix {
      SubsetCardinality(after, Accepted(s, t));
    } else {
      SubsetCardinality(after, {r.previousKeyId, r.nextKeyId});
    }
  }

  /** A rotation keeps the bound of two accepted keys exactly when no other key ends at the instant it starts, one
      such key being allowed in a recovery. */
  lemma RotationAcceptsTwoIff(c: Crypto, s: Identity, r: Rotation)
    requires WellKept(s) && TwoAccepted(s) && RotationError(c, s, r).None?
    ensures TwoAccepted(Rotated(c, s, r)) <==> |Ending(s, r)| <= Room(r)
  {
    AcceptedAtStart(c, s, r);
    forall t: int | t != r.notBefore.unix
      ensures |Accepted(Rotated(c, s, r), t)| <= 2
    {
      AcceptedElsewhere(c, s, r, t);
    }
  }

  lemma StatusKeepsTwoAccepted(c: Crypto, s: Identity, k: StatusChange)
    requires TwoAccepted(s) && StatusError(c, s, k).None?
    ensures TwoAccepted(StatusChanged(c, s, k))
  {
    forall t: int
      ensures |Accepted(StatusChanged(c, s, k), t)| <= 2
    {
      SubsetCardinality(Accepted(StatusChanged(c, s, k), t), Accepted(s, t));
    }
  }

  /** The bound holds now and after every accepted record. */
  ghost predicate AlwaysTwoAccepted(c: Crypto, s: Identity, records: seq<Record>)
    decreases |records|
  {
    && TwoAccepted(s)
    && (records != [] && Apply(c, s, records[0]).Ok? ==>
          AlwaysTwoAccepted(c, Apply(c, s, records[0]).value, records[1..]))
  }

  /** No accepted rotation starts at an instant at which more keys end than it leaves room for. */
  predicate NeverCrowded(c: Crypto, s: Identity, records: seq<Record>)
    decreases |records|
  {
    records != [] && Apply(c, s, records[0]).Ok? ==>
      && (records[0].RotationRecord? ==> |Ending(s, records[0].rotation)| <= Room(records[0].rotation))
      && NeverCrowded(c, Apply(c, s, records[0]).value, records[1..])
  }

  lemma {:induction false} ExtensionAcceptsTwoIff(c: Crypto, s: Identity, records: seq<Record>)
    requires WellKept(s) && TwoAccepted(s)
    ensures AlwaysTwoAccepted(c, s, records) <==> NeverCrowded(c, s, records)
    decreases |records|
  {
    if records != [] && Apply(c, s, records[0]).Ok? {
      var next := Apply(c, s, records[0]).value;
      StepKeeps(c, s, records[0]);
      match records[0] {
        case RotationRecord(r) => RotationAcceptsTwoIff(c, s, r);
        case StatusRecord(k) => StatusKeepsTwoAccepted(c, s, k);
      }
      if TwoAccepted(next) {
        ExtensionAcceptsTwoIff(c, next, records[1..]);
      }
    }
  }

  /** With `valid_until` inclusive, at most two keys are accepted at any instant all along a history exactly when no
      rotation in it starts crowded.  Status records never matter. */
  lemma HistoryAcceptsTwoIff(c: Crypto, d: Document, records: seq<Record>)
    requires FromDocument(c, d).Ok?
    ensures var s := FromDocument(c, d).value;
            AlwaysTwoAccepted(c, s, records) <==> NeverCrowded(c, s, records)
  {
    var s := FromDocument(c, d).value;
    InitialWellKept(c, d);
    forall t: int
      ensures |Accepted(s, t)| <= 2
    {
      SubsetCardinality(Accepted(s, t), {d.operationalKeyId});
    }
    ExtensionAcceptsTwoIff(c, s, records);
  }

  // ---------------------------------------------------------------- what verification and acceptance rest on

  /** The instants at which the clock check accepts an envelope with a lifetime it allows: from its issue to its expiry,
      widened by the skew on both sides. */
  lemma ClockWindow(p: ClockPolicy, b: Body, now: int)
    ensures ClockAccepts(p, b, now) <==>
            match (b.issuedAt, b.expiresAt)
            case (At(issued), Some(At(expires))) =>
              1 <= expires - issued <= p.lifetime && issued - p.skew <= now <= expires + p.skew
            case _ => false
  {
  }

  /** An envelope is valid exactly when it speaks for this identity, the clock accepts it, its key is Active and
      within its validity, ends included, at the time of issue, its message id is the one derived from its body, and the
      signature over id and body verifies under the public key known for that key id. */
  lemma ValidIff(c: Crypto, p: ClockPolicy, e: SignedEnvelope, s: Identity, now: int)
    ensures Verify(c, p, e, s, now) == Valid <==>
            && e.schema == SIGNED_ENVELOPE_SCHEMA && e.nodeId == e.body.sender == s.nodeId
            && ClockAccepts(p, e.body, now)
            && e.keyId in s.keys && s.keys[e.keyId].status == Active
            && s.keys[e.keyId].validFrom <= e.body.issuedAt.unix
            && (s.keys[e.keyId].validUntil.None? || e.body.issuedAt.unix <= s.keys[e.keyId].validUntil.value)
            && c.wellShaped(e.body) && c.messageIdOf(e.body) == e.messageId
            && c.verifies(s.keys[e.keyId].publicKey, EnvelopePayload(e.messageId, e.body), e.signature)
  {
  }

  /** What a signature covers determines the signed record up to its signatures, and nothing signed as one kind of
      record counts for another. */
  lemma PayloadsCommit(a: Document, b: Document, q: Rotation, r: Rotation, j: StatusChange, k: StatusChange)
    ensures IdentityPayloadOf(a) == IdentityPayloadOf(b) <==> a == b.(rootSignature := a.rootSignature)
    ensures RotationPayloadOf(q) == RotationPayloadOf(r) <==>
            q == r.(previousSignature := q.previousSignature, nextSignature := q.nextSignature,
                    rootSignature := q.rootSignature)
    ensures StatusPayloadOf(j) == StatusPayloadOf(k) <==> j == k.(rootSignature := j.rootSignature)
    ensures IdentityPayloadOf(a) != RotationPayloadOf(q) && RotationPayloadOf(q) != StatusPayloadOf(j)
    ensures StatusPayloadOf(j) != IdentityPayloadOf(a)
  {
    assert a == a.(rootSignature := "").(rootSignature := a.rootSignature);
    assert b.(rootSignature := a.rootSignature) == b.(rootSignature := "").(rootSignature := a.rootSignature);
    assert j == j.(rootSignature := "").(rootSignature := j.rootSignature);
    assert k.(rootSignature := j.rootSignature) == k.(rootSignature := "").(rootSignature := j.rootSignature);
  }

  /** The rotation is signed by the root and by the key it brings in. */
  predicate RotationSigned(c: Crypto, rootPublicKey: string, r: Rotation) {
    && c.verifies(rootPublicKey, RotationPayloadOf(r), r.rootSignature)
    && c.verifies(r.nextPublicKey, RotationPayloadOf(r), r.nextSignature)
    && r.nextKeyId == c.keyIdOf(r.nextPublicKey)
  }

  /** What entitles a record to act on an identity. */
  predicate Entitled(c: Crypto, s: Identity, record: Record) {
    match record
    case RotationRecord(r) =>
      && r.schema == KEY_ROTATION_SCHEMA && r.nodeId == s.nodeId && r.sequence == s.sequence + 1
      && r.previousKeyId == s.currentKeyId && r.previousKeyId in s.keys
      && r.nextKeyId !in s.keys && r.nextKeyId != s.rootKeyId
      && r.notBefore.At? && r.overlapUntil.At?
      && 0 <= r.overlapUntil.unix - r.notBefore.unix <= MAX_ROTATION_OVERLAP_SECONDS
      && s.keys[r.previousKeyId].validFrom <= r.notBefore.unix
      && (forall k | k in s.keys && k != s.currentKeyId && s.keys[k].status == Active && s.keys[k].validUntil.Some? ::
            s.keys[k].validUntil.value <= r.notBefore.unix)
      && RotationSigned(c, s.rootPublicKey, r)
      && (if r.mode == Transition then
            && s.keys[r.previousKeyId].status == Active && r.previousSignature.Some?
            && c.verifies(s.keys[r.previousKeyId].publicKey, RotationPayloadOf(r), r.previousSignature.value)
          else
            s.keys[r.previousKeyId].status != Active && r.previousSignature.None? && r.overlapUntil == r.notBefore)
    case StatusRecord(k) =>
      && k.schema == KEY_STATUS_SCHEMA && k.nodeId == s.nodeId && k.sequence == s.sequence + 1
      && k.keyId in s.keys && k.keyId != s.rootKeyId
      && k.effectiveAt.At? && s.keys[k.keyId].validFrom <= k.effectiveAt.unix
      && c.verifies(s.rootPublicKey, StatusPayloadOf(k), k.rootSignature)
  }

  /** Accepted are exactly the entitled records, whatever they would do. */
  lemma AcceptedIffEntitled(c: Crypto, s: Identity, record: Record)
    ensures Apply(c, s, record).Ok? <==> Entitled(c, s, record)
  {
  }

  /** What an accepted record does to each key. */
  lemma RecordEffect(c: Crypto, s: Identity, record: Record, key: string)
    requires Apply(c, s, record).Ok?
    ensures var u := Apply(c, s, record).value;
            && (u.nodeId, u.rootKeyId, u.rootPublicKey, u.sequence)
               == (s.nodeId, s.rootKeyId, s.rootPublicKey, s.sequence + 1)
            && match record {
                 case RotationRecord(r) =>
                   && u.currentKeyId == r.nextKeyId
                   && (key in u.keys <==> key in s.keys || key == r.nextKeyId)
                   && u.keys[r.nextKeyId] == KeyState(r.nextPublicKey, r.notBefore.unix, None, Active)
                   && (key in s.keys && key != s.currentKeyId ==> u.keys[key] == s.keys[key])
                   && u.keys[s.currentKeyId] == s.keys[s.currentKeyId].(validUntil := Some(r.overlapUntil.unix))
                 case StatusRecord(k) =>
                   && u.currentKeyId == s.currentKeyId && u.keys.Keys == s.keys.Keys
                   && (key in s.keys && key != k.keyId ==> u.keys[key] == s.keys[key])
                   && var (before, after) := (s.keys[k.keyId], u.keys[k.keyId]);
                      && after.publicKey == before.publicKey && after.validFrom == before.validFrom
                      && after.status == (if k.kind == RevokedKind then Revoked else Compromised)
                      && after.validUntil.Some?
                      && after.validUntil.value <= k.effectiveAt.unix
                      && (before.validUntil.Some? ==> after.validUntil.value <= before.validUntil.value)
                      && (At(after.validUntil.value) == k.effectiveAt || after.validUntil == before.validUntil)
               }
  {
  }

  /** Each record was entitled to act on the identity that those before it had left. */
  ghost predicate EachEntitled(c: Crypto, d: Document, records: seq<Record>) {
    forall i | 0 <= i < |records| ::
      Rebuild(c, d, records[..i]).Ok? && Entitled(c, Rebuild(c, d, records[..i]).value, records[i])
  }

  lemma {:induction false} ExtensionEntitled(c: Crypto, d: Document, records: seq<Record>)
    requires FromDocument(c, d).Ok?
    ensures Rebuild(c, d, records).Ok? <==> EachEntitled(c, d, records)
    decreases |records|
  {
    if records != [] {
      var n := |records| - 1;
      var shorter := records[..n];
      ExtensionEntitled(c, d, shorter);
      assert records == shorter + [records[n]];
      var start := FromDocument(c, d).value;
      ExtendSplits(c, start, shorter, [records[n]]);
      assert forall i | 0 <= i <= n :: records[..i] == shorter[..i];
      assert shorter[..n] == shorter;
      if Rebuild(c, d, shorter).Ok? {
        var s := Rebuild(c, d, shorter).value;
        AcceptedIffEntitled(c, s, records[n]);
        var r := Apply(c, s, records[n]);
        assert [records[n]][1..] == [];
        assert Extend(c, s, [records[n]]) == if r.Err? then r else Extend(c, r.value, []);
      }
    }
  }

  /** A history is accepted exactly when its document is signed by the root it names and every record was entitled when
      its turn came: nothing is accepted on anything but these signatures. */
  lemma HistoryAcceptedIff(c: Crypto, d: Document, records: seq<Record>)
    ensures Rebuild(c, d, records).Ok? <==>
            && d.schema == NODE_IDENTITY_SCHEMA && d.createdAt.At? && d.rootKeyId != d.operationalKeyId
            && d.nodeId == c.nodeIdOf(d.rootPublicKey)
            && d.rootKeyId == c.keyIdOf(d.rootPublicKey) && d.operationalKeyId == c.keyIdOf(d.operationalPublicKey)
            && c.verifies(d.rootPublicKey, IdentityPayloadOf(d), d.rootSignature)
            && EachEntitled(c, d, records)
  {
    if FromDocument(c, d).Ok? {
      ExtensionEntitled(c, d, records);
    }
  }

  /** Where a known key comes from: the document, or a rotation of the history signed by the root and by the key. */
  ghost predicate Originates(c: Crypto, d: Document, records: seq<Record>, k: string, key: KeyState) {
    || (k == d.operationalKeyId && key.publicKey == d.operationalPublicKey && At(key.validFrom) == d.createdAt)
    || exists r :: RotationRecord(r) in records && k == r.nextKeyId && key.publicKey == r.nextPublicKey
                   && At(key.validFrom) == r.notBefore && RotationSigned(c, d.rootPublicKey, r)
  }

  /** Why a key is no longer Active: a status record of the history about it, signed by the root. */
  ghost predicate Struck(c: Crypto, d: Document, records: seq<Record>, k: string, status: KeyStatus) {
    exists r :: StatusRecord(r) in records && r.keyId == k
                && status == (if r.kind == RevokedKind then Revoked else Compromised)
                && c.verifies(d.rootPublicKey, StatusPayloadOf(r), r.rootSignature)
  }

  ghost predicate Accounted(c: Crypto, d: Document, records: seq<Record>, s: Identity, k: string) {
    k in s.keys ==>
      && Originates(c, d, records, k, s.keys[k])
      && (s.keys[k].status != Active ==> Struck(c, d, records, k, s.keys[k].status))
  }

  lemma StepAccounted(c: Crypto, d: Document, records: seq<Record>, s: Identity, record: Record, k: string)
    requires s.rootPublicKey == d.rootPublicKey && Apply(c, s, record).Ok?
    requires Accounted(c, d, records, s, k)
    ensures Accounted(c, d, records + [record], Apply(c, s, record).value, k)
  {
    AcceptedIffEntitled(c, s, record);
    RecordEffect(c, s, record, k);
    assert record in records + [record] && forall r | r in records :: r in records + [record];
  }

  /** Every key of an identity that accepted records led to is accounted for: it was brought in by the document or by a
      rotation that the root and the key itself signed, and if it is not Active, the root signed why. */
  lemma {:induction false} KeysAccountedFor(c: Crypto, d: Document, records: seq<Record>)
    requires Rebuild(c, d, records).Ok?
    ensures var s := Rebuild(c, d, records).value;
            s.rootPublicKey == d.rootPublicKey && forall k :: Accounted(c, d, records, s, k)
    decreases |records|
  {
    if records != [] {
      var n := |records| - 1;
      var shorter := records[..n];
      assert records == shorter + [records[n]];
      ExtendSplits(c, FromDocument(c, d).value, shorter, [records[n]]);
      KeysAccountedFor(c, d, shorter);
      var s := Rebuild(c, d, shorter).value;
      assert [records[n]][1..] == [];
      assert Rebuild(c, d, records) == Apply(c, s, records[n]);
      RecordEffect(c, s, records[n], "");
      forall k
        ensures Accounted(c, d, records, Rebuild(c, d, records).value, k)
      {
        StepAccounted(c, d, shorter, s, records[n], k);
      }
    }
  }
}
