/** The peer registry: stored lifecycles, peer states, partition and rejoin (src/peering.rs).

    A stored file is the record it holds.  Hashing, the capability grammar and the size bound of canonical bytes are
    fields of `Env`. */
module Peering {
  import opened Wrappers
  import K = KeyLifecycle
  import Lex
  import Wire

  const MAX_PEER_LIFECYCLE_RECORDS := 512
  const MAX_CAPABILITIES := 128
  const MAX_CAPABILITY_ADVERTISEMENT_LIFETIME_SECONDS := K.MAX_SIGNED_MESSAGE_LIFETIME_SECONDS
  const ADVERTISEMENT_SCHEMA := "qsol-fed-capability-advertisement/1"
  const CAPABILITIES_CLASS := "capabilities"
  const EVENT_SEQUENCE_MAX: nat := 0xFFFF_FFFF_FFFF_FFFF

  datatype PeerState = Introduced | Admitted | Quarantined | Revoked | Disconnected

  /** What an advertisement says, without its proof. */
  datatype Claims = Claims(
    schema: string, nodeId: string, sequence: nat, issuedAt: K.Stamp, expiresAt: K.Stamp, capabilities: seq<string>)

  datatype Advertisement = Advertisement(claims: Claims, proof: K.SignedEnvelope)

  datatype PeerRecord = PeerRecord(
    nodeId: string, identity: K.Document, lifecycle: seq<K.Record>, fingerprint: string, lifecycleSequence: nat,
    state: PeerState, preDisconnect: Option<PeerState>, snapshot: Option<string>,
    advertisement: Option<Advertisement>, localEvents: nat, updatedAt: K.Stamp)

  type Registry = map<string, PeerRecord>

  datatype Env = Env(
    crypto: K.Crypto, payloadRefOf: Claims -> string, capabilityId: string -> bool,
    fingerprintOf: (K.Document, seq<K.Record>) -> string,
    encodes: (K.Document, seq<K.Record>) -> bool, fits: PeerRecord -> bool)

  datatype Fault =
    | NodeIdInvalid | LimitsInvalid | SnapshotInvalid | IdentityInvalid(reason: K.Reason) | NotEncodable
    | RevokedCannotReintroduce | InitialIdentityImmutable | Rollback | Divergence | PrefixRewrite
    | Corrupt | DisconnectedIncomplete | IdentityDrift | AdvertisementInvalid | AdvertisementInactive
    | PeerUnknown | TransitionForbidden | DisconnectForbidden | RejoinNeedsDisconnected
    | SilentReconciliation | RejoinTargetInvalid

  datatype Disposition = Applied | Duplicate

  // ---------------------------------------------------------------- advertisements

  predicate ClaimsShaped(env: Env, c: Claims) {
    && c.schema == ADVERTISEMENT_SCHEMA && Wire.IsNodeId(c.nodeId) && c.sequence > 0
    && c.issuedAt.At? && c.expiresAt.At? && |c.capabilities| <= MAX_CAPABILITIES
    && Lex.Distinct(c.capabilities) && forall x | x in c.capabilities :: env.capabilityId(x)
  }

  /** `verify_capability_advertisement_signature`: the proof is judged at the time of issue. */
  predicate AdvertisementVerifies(env: Env, a: Advertisement, s: K.Identity) {
    && ClaimsShaped(env, a.claims) && a.claims.nodeId == s.nodeId
    && a.proof.nodeId == a.claims.nodeId
    && a.proof.body.sender == a.claims.nodeId && a.proof.body.recipient == a.claims.nodeId
    && a.proof.body.messageClass == CAPABILITIES_CLASS
    && a.proof.body.payloadRef == env.payloadRefOf(a.claims)
    && a.proof.body.issuedAt == a.claims.issuedAt && a.proof.body.expiresAt == Some(a.claims.expiresAt)
    && K.Verify(env.crypto, K.DEFAULT_CLOCK_POLICY, a.proof, s, a.claims.issuedAt.unix) == K.Valid
  }

  predicate AdvertisementActive(c: Claims, now: int)
    requires c.issuedAt.At? && c.expiresAt.At?
  {
    && c.issuedAt.unix < c.expiresAt.unix
    && c.expiresAt.unix - c.issuedAt.unix <= MAX_CAPABILITY_ADVERTISEMENT_LIFETIME_SECONDS
    && c.issuedAt.unix <= now <= c.expiresAt.unix
  }

  // ---------------------------------------------------------------- stored records

  /** What `validate_peer_record` finds wrong, on every read and before every write. */
  function RecordFault(env: Env, r: PeerRecord): Option<Fault> {
    if || r.nodeId != r.identity.nodeId || |r.lifecycle| > MAX_PEER_LIFECYCLE_RECORDS || r.updatedAt.Malformed?
       || (r.snapshot.Some? && !Wire.IsSha256Ref(r.snapshot.value)) then Some(Corrupt)
    else if r.state == Disconnected && (r.preDisconnect.None? || r.snapshot.None?) then Some(DisconnectedIncomplete)
    else
      var rebuilt := K.Rebuild(env.crypto, r.identity, r.lifecycle);
      if rebuilt.Err? then Some(IdentityInvalid(rebuilt.error))
      else if !env.encodes(r.identity, r.lifecycle) then Some(NotEncodable)
      else if || rebuilt.value.sequence != r.lifecycleSequence
              || env.fingerprintOf(r.identity, r.lifecycle) != r.fingerprint
      then Some(IdentityDrift)
      else if r.advertisement.Some? && !AdvertisementVerifies(env, r.advertisement.value, rebuilt.value)
      then Some(AdvertisementInvalid)
      else None
  }

  function Get(env: Env, reg: Registry, n: string): Result<Option<PeerRecord>, Fault> {
    if !Wire.IsNodeId(n) then Err(NodeIdInvalid)
    else if n !in reg then Ok(None)
    else
      var fault := RecordFault(env, reg[n]);
      if fault.Some? then Err(fault.value) else Ok(Some(reg[n]))
  }

  /** `get` followed by an error where there is no record. */
  function GetKnown(env: Env, reg: Registry, n: string): Result<PeerRecord, Fault> {
    match Get(env, reg, n)
    case Err(f) => Err(f)
    case Ok(found) => if found.None? then Err(PeerUnknown) else Ok(found.value)
  }

  /** Why `write_peer` would refuse the record, if it would. */
  function WriteFault(env: Env, r: PeerRecord): Option<Fault> {
    var fault := RecordFault(env, r);
    if fault.Some? then fault
    else if !Wire.IsNodeId(r.nodeId) then Some(NodeIdInvalid)
    else if !env.fits(r) then Some(NotEncodable)
    else None
  }

  function Write(env: Env, reg: Registry, r: PeerRecord): (Registry, Result<Disposition, Fault>) {
    var fault := WriteFault(env, r);
    if fault.Some? then (reg, Err(fault.value)) else (reg[r.nodeId := r], Ok(Applied))
  }

  /** The record with its event counter advanced and its time set. */
  function Touched(r: PeerRecord, at: K.Stamp): PeerRecord {
    r.(localEvents := if r.localEvents < EVENT_SEQUENCE_MAX then r.localEvents + 1 else r.localEvents, updatedAt := at)
  }

  predicate TransitionAllowed(from: PeerState, to: PeerState) {
    || from == to
    || (from == Introduced && to != Introduced)
    || (from == Admitted && to in {Quarantined, Revoked, Disconnected})
    || (from == Quarantined && to in {Admitted, Revoked, Disconnected})
  }

  /** `require_lifecycle_prefix`. */
  method RequireLifecyclePrefix(known: seq<K.Record>, candidate: seq<K.Record>) returns (ok: bool)
    ensures ok <==> known <= candidate
  {
    if |candidate| < |known| {
      return false;
    }
    for i := 0 to |known|
      invariant forall j | 0 <= j < i :: known[j] == candidate[j]
    {
      if known[i] != candidate[i] {
        return false;
      }
    }
    ok := true;
  }

  // ---------------------------------------------------------------- operations

  datatype Op =
    | Introduce(document: K.Document, records: seq<K.Record>, observed: Option<string>, at: K.Stamp)
    | ImportQuarantined(document: K.Document, records: seq<K.Record>, at: K.Stamp)
    | AttachArchival(node: string, advertisement: Advertisement, at: K.Stamp)
    | Transition(node: string, target: PeerState, at: K.Stamp)
    | Disconnect(node: string, local: string, at: K.Stamp)
    | ConfirmRejoin(node: string, remote: string, explicitly: bool, at: K.Stamp)
    | RecordAdvertisement(advertisement: Advertisement, now: int, at: K.Stamp)

  function NewPeer(env: Env, d: K.Document, records: seq<K.Record>, sequence: nat, observed: Option<string>,
                   at: K.Stamp)
    : PeerRecord
  {
    PeerRecord(d.nodeId, d, records, env.fingerprintOf(d, records), sequence, Introduced, None, observed, None, 1, at)
  }

  function Reintroduced(env: Env, known: PeerRecord, records: seq<K.Record>, sequence: nat, observed: Option<string>,
                        at: K.Stamp): PeerRecord
  {
    var snapshot := if known.state != Disconnected && observed.Some? then observed else known.snapshot;
    Touched(known.(lifecycle := records, fingerprint := env.fingerprintOf(known.identity, records),
                  lifecycleSequence := sequence, snapshot := snapshot), at)
  }

  function IntroduceResult(env: Env, reg: Registry, d: K.Document, records: seq<K.Record>, observed: Option<string>,
                           at: K.Stamp): (Registry, Result<Disposition, Fault>)
  {
    if |records| > MAX_PEER_LIFECYCLE_RECORDS || at.Malformed? then (reg, Err(LimitsInvalid))
    else if observed.Some? && !Wire.IsSha256Ref(observed.value) then (reg, Err(SnapshotInvalid))
    else
      var rebuilt := K.Rebuild(env.crypto, d, records);
      if rebuilt.Err? then (reg, Err(IdentityInvalid(rebuilt.error)))
      else if !env.encodes(d, records) then (reg, Err(NotEncodable))
      else
        var found := Get(env, reg, d.nodeId);
        if found.Err? then (reg, Err(found.error))
        else if found.value.None? then Write(env, reg, NewPeer(env, d, records, rebuilt.value.sequence, observed, at))
        else
          var known := found.value.value;
          if known.state == Revoked then (reg, Err(RevokedCannotReintroduce))
          else if known.identity != d then (reg, Err(InitialIdentityImmutable))
          else if rebuilt.value.sequence < known.lifecycleSequence then (reg, Err(Rollback))
          else if rebuilt.value.sequence == known.lifecycleSequence then
            (reg, if known.fingerprint == env.fingerprintOf(d, records) then Ok(Duplicate) else Err(Divergence))
          else if !(known.lifecycle <= records) then (reg, Err(PrefixRewrite))
          else Write(env, reg, Reintroduced(env, known, records, rebuilt.value.sequence, observed, at))
  }

  function Transitioned(r: PeerRecord, target: PeerState, at: K.Stamp): PeerRecord {
    var pre := if target == Disconnected then Some(r.state)
               else if r.state != Disconnected then None
               else r.preDisconnect;
    Touched(r.(preDisconnect := pre, state := target), at)
  }

  function TransitionResult(env: Env, reg: Registry, n: string, target: PeerState, at: K.Stamp)
    : (Registry, Result<Disposition, Fault>)
  {
    if at.Malformed? then (reg, Err(LimitsInvalid))
    else
      var found := GetKnown(env, reg, n);
      if found.Err? then (reg, Err(found.error))
      else if !TransitionAllowed(found.value.state, target) then (reg, Err(TransitionForbidden))
      else Write(env, reg, Transitioned(found.value, target, at))
  }

  /** `import_quarantined`: a peer known here keeps its state. */
  function ImportResult(env: Env, reg: Registry, d: K.Document, records: seq<K.Record>, at: K.Stamp)
    : (Registry, Result<Disposition, Fault>)
  {
    var found := Get(env, reg, d.nodeId);
    if found.Err? then (reg, Err(found.error))
    else
      var (introduced, r) := IntroduceResult(env, reg, d, records, None, at);
      if r.Err? || found.value.Some? then (introduced, r)
      else TransitionResult(env, introduced, d.nodeId, Quarantined, at)
  }

  /** The verdict on an advertisement against the stored one: a fault, a duplicate, or to be stored. */
  function Newer(r: PeerRecord, a: Advertisement): Result<Disposition, Fault> {
    if r.advertisement.None? then Ok(Applied)
    else if a.claims.sequence < r.advertisement.value.claims.sequence then Err(Rollback)
    else if a.claims.sequence > r.advertisement.value.claims.sequence then Ok(Applied)
    else if a == r.advertisement.value then Ok(Duplicate)
    else Err(Divergence)
  }

  function StoreAdvertisement(env: Env, reg: Registry, r: PeerRecord, a: Advertisement, at: K.Stamp)
    : (Registry, Result<Disposition, Fault>)
  {
    var verdict := Newer(r, a);
    if verdict != Ok(Applied) then (reg, verdict) else Write(env, reg, Touched(r.(advertisement := Some(a)), at))
  }

  /** The peer's record, provided its rebuilt identity vouches for the advertisement. */
  function VouchedBy(env: Env, reg: Registry, n: string, a: Advertisement): Result<PeerRecord, Fault> {
    var found := GetKnown(env, reg, n);
    if found.Err? then found
    else
      var s := K.Rebuild(env.crypto, found.value.identity, found.value.lifecycle);
      if s.Err? then Err(IdentityInvalid(s.error))
      else if !AdvertisementVerifies(env, a, s.value) then Err(AdvertisementInvalid)
      else found
  }

  function AttachResult(env: Env, reg: Registry, n: string, a: Advertisement, at: K.Stamp)
    : (Registry, Result<Disposition, Fault>)
  {
    if at.Malformed? || a.claims.nodeId != n then (reg, Err(IdentityDrift))
    else
      var found := VouchedBy(env, reg, n, a);
      if found.Err? then (reg, Err(found.error)) else StoreAdvertisement(env, reg, found.value, a, at)
  }

  function RecordResult(env: Env, reg: Registry, a: Advertisement, now: int, at: K.Stamp)
    : (Registry, Result<Disposition, Fault>)
  {
    if at.Malformed? then (reg, Err(LimitsInvalid))
    else
      var found := VouchedBy(env, reg, a.claims.nodeId, a);
      if found.Err? then (reg, Err(found.error))
      else if !AdvertisementActive(a.claims, now) then (reg, Err(AdvertisementInactive))
      else StoreAdvertisement(env, reg, found.value, a, at)
  }

  function DisconnectResult(env: Env, reg: Registry, n: string, local: string, at: K.Stamp)
    : (Registry, Result<Disposition, Fault>)
  {
    if !Wire.IsSha256Ref(local) || at.Malformed? then (reg, Err(SnapshotInvalid))
    else
      var found := GetKnown(env, reg, n);
      if found.Err? then (reg, Err(found.error))
      else
        var r := found.value;
        if r.state == Revoked || r.state == Disconnected then (reg, Err(DisconnectForbidden))
        else
          var parted := r.(preDisconnect := Some(r.state), state := Disconnected, snapshot := Some(local));
          Write(env, reg, Touched(parted, at))
  }

  /** `propose_rejoin`: whether the remote snapshot is the one the partition began with. */
  function ProposeRejoin(env: Env, reg: Registry, n: string, remote: string): Result<bool, Fault> {
    if !Wire.IsSha256Ref(remote) then Err(SnapshotInvalid)
    else
      var found := GetKnown(env, reg, n);
      if found.Err? then Err(found.error)
      else if found.value.state != Disconnected then Err(RejoinNeedsDisconnected)
      else Ok(found.value.snapshot == Some(remote))
  }

  function RejoinTarget(r: PeerRecord): PeerState {
    if r.preDisconnect.Some? then r.preDisconnect.value else Introduced
  }

  function ConfirmResult(env: Env, reg: Registry, n: string, remote: string, explicitly: bool, at: K.Stamp)
    : (Registry, Result<Disposition, Fault>)
  {
    if at.Malformed? then (reg, Err(LimitsInvalid))
    else
      var clean := ProposeRejoin(env, reg, n, remote);
      if clean.Err? then (reg, Err(clean.error))
      else if !clean.value && !explicitly then (reg, Err(SilentReconciliation))
      else
        var r := GetKnown(env, reg, n).value;
        var target := RejoinTarget(r);
        if target == Revoked || target == Disconnected then (reg, Err(RejoinTargetInvalid))
        else Write(env, reg, Touched(r.(state := target, preDisconnect := None, snapshot := Some(remote)), at))
  }

  function Step(env: Env, reg: Registry, op: Op): (Registry, Result<Disposition, Fault>) {
    match op
    case Introduce(d, records, observed, at) => IntroduceResult(env, reg, d, records, observed, at)
    case ImportQuarantined(d, records, at) => ImportResult(env, reg, d, records, at)
    case AttachArchival(n, a, at) => AttachResult(env, reg, n, a, at)
    case Transition(n, target, at) => TransitionResult(env, reg, n, target, at)
    case Disconnect(n, local, at) => DisconnectResult(env, reg, n, local, at)
    case ConfirmRejoin(n, remote, explicitly, at) => ConfirmResult(env, reg, n, remote, explicitly, at)
    case RecordAdvertisement(a, now, at) => RecordResult(env, reg, a, now, at)
  }

  function Run(env: Env, reg: Registry, ops: seq<Op>): Registry
    decreases |ops|
  {
    if ops == [] then reg else Run(env, Step(env, reg, ops[0]).0, ops[1..])
  }

  class PeerRegistry {
    const env: Env
    var peers: map<string, PeerRecord>

    constructor (env: Env)
      ensures this.env == env && peers == map[]
    {
      this.env, peers := env, map[];
    }

    method WritePeer(r: PeerRecord) returns (a: Result<Disposition, Fault>)
      modifies this
      ensures (peers, a) == Write(env, old(peers), r)
    {
      var fault := WriteFault(env, r);
      if fault.Some? {
        return Err(fault.value);
      }
      peers := peers[r.nodeId := r];
      a := Ok(Applied);
    }

    method IntroducePeer(d: K.Document, records: seq<K.Record>, observed: Option<string>, at: K.Stamp)
      returns (a: Result<Disposition, Fault>)
      modifies this
      ensures (peers, a) == IntroduceResult(env, old(peers), d, records, observed, at)
    {
      if |records| > MAX_PEER_LIFECYCLE_RECORDS || at.Malformed? {
        return Err(LimitsInvalid);
      }
      if observed.Some? && !Wire.IsSha256Ref(observed.value) {
        return Err(SnapshotInvalid);
      }
      var rebuilt := K.RebuildPeerIdentity(env.crypto, d, records);
      if rebuilt.Err? {
        return Err(IdentityInvalid(rebuilt.error));
      }
      if !env.encodes(d, records) {
        return Err(NotEncodable);
      }
      var fingerprint := env.fingerprintOf(d, records);
      var found := Get(env, peers, d.nodeId);
      if found.Err? {
        return Err(found.error);
      }
      if found.value.None? {
        a := WritePeer(NewPeer(env, d, records, rebuilt.value.sequence, observed, at));
        return;
      }
      var r := found.value.value;
      if r.state == Revoked {
        return Err(RevokedCannotReintroduce);
      }
      if r.identity != d {
        return Err(InitialIdentityImmutable);
      }
      if rebuilt.value.sequence < r.lifecycleSequence {
        return Err(Rollback);
      }
      if rebuilt.value.sequence == r.lifecycleSequence {
        return if r.fingerprint == fingerprint then Ok(Duplicate) else Err(Divergence);
      }
      var appends := RequireLifecyclePrefix(r.lifecycle, records);
      if !appends {
        return Err(PrefixRewrite);
      }
      r := r.(lifecycle := records, fingerprint := fingerprint, lifecycleSequence := rebuilt.value.sequence);
      if r.state != Disconnected {
        r := r.(snapshot := if observed.Some? then observed else r.snapshot);
      }
      a := WritePeer(Touched(r, at));
    }

    method TransitionPeer(n: string, target: PeerState, at: K.Stamp) returns (a: Result<Disposition, Fault>)
      modifies this
      ensures (peers, a) == TransitionResult(env, old(peers), n, target, at)
    {
      if at.Malformed? {
        return Err(LimitsInvalid);
      }
      var found := GetKnown(env, peers, n);
      if found.Err? {
        return Err(found.error);
      }
      var r := found.value;
      if !TransitionAllowed(r.state, target) {
        return Err(TransitionForbidden);
      }
      if target == Disconnected {
        r := r.(preDisconnect := Some(r.state));
      } else if r.state != Disconnected {
        r := r.(preDisconnect := None);
      }
      r := r.(state := target);
      a := WritePeer(Touched(r, at));
    }

    method ImportPeer(d: K.Document, records: seq<K.Record>, at: K.Stamp) returns (a: Result<Disposition, Fault>)
      modifies this
      ensures (peers, a) == ImportResult(env, old(peers), d, records, at)
    {
      var found := Get(env, peers, d.nodeId);
      if found.Err? {
        return Err(found.error);
      }
      a := IntroducePeer(d, records, None, at);
      if a.Err? || found.value.Some? {
        return;
      }
      a := TransitionPeer(d.nodeId, Quarantined, at);
    }

    method StorePeerAdvertisement(r: PeerRecord, ad: Advertisement, at: K.Stamp) returns (a: Result<Disposition, Fault>)
      modifies this
      ensures (peers, a) == StoreAdvertisement(env, old(peers), r, ad, at)
    {
      if r.advertisement.Some? {
        var stored := r.advertisement.value;
        if ad.claims.sequence < stored.claims.sequence {
          return Err(Rollback);
        }
        if ad.claims.sequence == stored.claims.sequence {
          return if ad == stored then Ok(Duplicate) else Err(Divergence);
        }
      }
      a := WritePeer(Touched(r.(advertisement := Some(ad)), at));
    }

    method AttachArchivalAdvertisement(n: string, ad: Advertisement, at: K.Stamp)
      returns (a: Result<Disposition, Fault>)
      modifies this
      ensures (peers, a) == AttachResult(env, old(peers), n, ad, at)
    {
      if at.Malformed? || ad.claims.nodeId != n {
        return Err(IdentityDrift);
      }
      var found := VouchedBy(env, peers, n, ad);
      if found.Err? {
        return Err(found.error);
      }
      a := StorePeerAdvertisement(found.value, ad, at);
    }

    method RecordPeerAdvertisement(ad: Advertisement, now: int, at: K.Stamp) returns (a: Result<Disposition, Fault>)
      modifies this
      ensures (peers, a) == RecordResult(env, old(peers), ad, now, at)
    {
      if at.Malformed? {
        return Err(LimitsInvalid);
      }
      var found := VouchedBy(env, peers, ad.claims.nodeId, ad);
      if found.Err? {
        return Err(found.error);
      }
      if !AdvertisementActive(ad.claims, now) {
        return Err(AdvertisementInactive);
      }
      a := StorePeerAdvertisement(found.value, ad, at);
    }

    method DisconnectPeer(n: string, local: string, at: K.Stamp) returns (a: Result<Disposition, Fault>)
      modifies this
      ensures (peers, a) == DisconnectResult(env, old(peers), n, local, at)
    {
      if !Wire.IsSha256Ref(local) || at.Malformed? {
        return Err(SnapshotInvalid);
      }
      var found := GetKnown(env, peers, n);
      if found.Err? {
        return Err(found.error);
      }
      var r := found.value;
      if r.state == Revoked || r.state == Disconnected {
        return Err(DisconnectForbidden);
      }
      r := r.(preDisconnect := Some(r.state));
      r := r.(state := Disconnected, snapshot := Some(local));
      a := WritePeer(Touched(r, at));
    }

    method ConfirmPeerRejoin(n: string, remote: string, explicitly: bool, at: K.Stamp)
      returns (a: Result<Disposition, Fault>)
      modifies this
      ensures (peers, a) == ConfirmResult(env, old(peers), n, remote, explicitly, at)
    {
      if at.Malformed? {
        return Err(LimitsInvalid);
      }
      var clean := ProposeRejoin(env, peers, n, remote);
      if clean.Err? {
        return Err(clean.error);
      }
      if !clean.value && !explicitly {
        return Err(SilentReconciliation);
      }
      var r := GetKnown(env, peers, n).value;
      var target := RejoinTarget(r);
      if target == Revoked || target == Disconnected {
        return Err(RejoinTargetInvalid);
      }
      r := r.(state := target, preDisconnect := None);
      r := r.(snapshot := Some(remote));
      a := WritePeer(Touched(r, at));
    }
  }

  // ---------------------------------------------------------------- what one step does to one peer

  ghost predicate Stored(env: Env, reg: Registry, n: string) {
    n in reg ==> reg[n].nodeId == n && Wire.IsNodeId(n) && RecordFault(env, reg[n]).None?
  }

  ghost predicate Sound(env: Env, reg: Registry) {
    forall n :: Stored(env, reg, n)
  }

  /** History only grows, Revoked is final, and an advertisement gives way only to one with a higher sequence. */
  ghost predicate Grows(a: PeerRecord, b: PeerRecord) {
    && b.nodeId == a.nodeId && b.identity == a.identity && a.lifecycle <= b.lifecycle
    && (a.state == Revoked ==> b.state == Revoked)
    && (a.advertisement.Some? ==>
          && b.advertisement.Some?
          && (|| b.advertisement == a.advertisement
              || a.advertisement.value.claims.sequence < b.advertisement.value.claims.sequence))
  }

  /** An accepted rejoin took a to b. */
  ghost predicate Rejoins(op: Op, a: PeerRecord, b: PeerRecord) {
    && op.ConfirmRejoin? && op.node == a.nodeId
    && (a.snapshot == Some(op.remote) || op.explicitly)
    && a.preDisconnect == Some(b.state) && b.state != Disconnected && b.state != Revoked
    && b.preDisconnect == None && b.snapshot == Some(op.remote)
  }

  /** A transition of a peer to Disconnected, which is also allowed when it is disconnected already. */
  predicate SelfTransition(op: Op, n: string) {
    op.Transition? && op.node == n && op.target == Disconnected
  }

  /** What may happen to a peer around a partition. */
  ghost predicate PartitionStep(op: Op, a: PeerRecord, b: PeerRecord) {
    if a.state == Disconnected then
      || Rejoins(op, a, b)
      || (&& b.state == Disconnected && b.snapshot == a.snapshot
          && (b.preDisconnect == a.preDisconnect
              || (SelfTransition(op, a.nodeId) && b.preDisconnect == Some(Disconnected))))
    else
      b.state == Disconnected ==>
        b.preDisconnect == Some(a.state) && (op.Disconnect? ==> b.snapshot == Some(op.local))
  }

  ghost predicate Steps(op: Op, reg: Registry, after: Registry, n: string) {
    n in reg ==> n in after && Grows(reg[n], after[n]) && PartitionStep(op, reg[n], after[n])
  }

  /** Writing one well-grown record is a sound step for every peer. */
  lemma WriteSteps(env: Env, op: Op, reg: Registry, r: PeerRecord)
    requires Sound(env, reg)
    requires r.nodeId in reg ==> Grows(reg[r.nodeId], r) && PartitionStep(op, reg[r.nodeId], r)
    ensures Sound(env, Write(env, reg, r).0)
    ensures forall n :: Steps(op, reg, Write(env, reg, r).0, n)
  {
    var after := Write(env, reg, r).0;
    forall n
      ensures Stored(env, after, n)
    {
      assert Stored(env, reg, n);
    }
  }

  lemma Unstepped(op: Op, reg: Registry)
    ensures forall n :: Steps(op, reg, reg, n)
  {
  }

  lemma IntroduceSteps(env: Env, op: Op, reg: Registry, d: K.Document, records: seq<K.Record>, observed: Option<string>,
                       at: K.Stamp)
    requires Sound(env, reg) && !op.Disconnect?
    ensures var after := IntroduceResult(env, reg, d, records, observed, at).0;
            Sound(env, after) && forall n :: Steps(op, reg, after, n)
  {
    Unstepped(op, reg);
    assert Stored(env, reg, d.nodeId);
    var rebuilt := K.Rebuild(env.crypto, d, records);
    if rebuilt.Ok? {
      if d.nodeId in reg {
        if reg[d.nodeId].state != Revoked && reg[d.nodeId].identity == d && reg[d.nodeId].lifecycle <= records {
          WriteSteps(env, op, reg, Reintroduced(env, reg[d.nodeId], records, rebuilt.value.sequence, observed, at));
        }
      } else {
        WriteSteps(env, op, reg, NewPeer(env, d, records, rebuilt.value.sequence, observed, at));
      }
    }
  }

  lemma TransitionSteps(env: Env, op: Op, reg: Registry, n: string, target: PeerState, at: K.Stamp)
    requires Sound(env, reg) && !op.Disconnect? && (target == Disconnected ==> SelfTransition(op, n))
    ensures var after := TransitionResult(env, reg, n, target, at).0;
            Sound(env, after) && forall m :: Steps(op, reg, after, m)
  {
    Unstepped(op, reg);
    assert Stored(env, reg, n);
    if n in reg && TransitionAllowed(reg[n].state, target) {
      WriteSteps(env, op, reg, Transitioned(reg[n], target, at));
    }
  }

  lemma ImportSteps(env: Env, op: Op, reg: Registry, d: K.Document, records: seq<K.Record>, at: K.Stamp)
    requires Sound(env, reg) && !op.Disconnect?
    ensures var after := ImportResult(env, reg, d, records, at).0;
            Sound(env, after) && forall n :: Steps(op, reg, after, n)
  {
    Unstepped(op, reg);
    IntroduceSteps(env, op, reg, d, records, None, at);
    var found := Get(env, reg, d.nodeId);
    var (introduced, r) := IntroduceResult(env, reg, d, records, None, at);
    if found.Ok? && found.value.None? && r.Ok? {
      TransitionSteps(env, op, introduced, d.nodeId, Quarantined, at);
      var after := TransitionResult(env, introduced, d.nodeId, Quarantined, at).0;
      forall n
        ensures Steps(op, reg, after, n)
      {
        assert Steps(op, reg, introduced, n) && Steps(op, introduced, after, n);
        assert n in reg ==> introduced[n] == reg[n] && after[n] == introduced[n];
      }
    }
  }

  lemma AdvertisementSteps(env: Env, op: Op, reg: Registry, n: string, a: Advertisement, at: K.Stamp)
    requires Sound(env, reg) && !op.Disconnect? && n in reg
    ensures var after := StoreAdvertisement(env, reg, reg[n], a, at).0;
            Sound(env, after) && forall m :: Steps(op, reg, after, m)
  {
    Unstepped(op, reg);
    assert Stored(env, reg, n);
    if Newer(reg[n], a) == Ok(Applied) {
      WriteSteps(env, op, reg, Touched(reg[n].(advertisement := Some(a)), at));
    }
  }

  lemma DisconnectSteps(env: Env, op: Op, reg: Registry)
    requires Sound(env, reg) && op.Disconnect?
    ensures Sound(env, Step(env, reg, op).0) && forall m :: Steps(op, reg, Step(env, reg, op).0, m)
  {
    Unstepped(op, reg);
    assert Stored(env, reg, op.node);
    if op.node in reg && reg[op.node].state != Revoked && reg[op.node].state != Disconnected {
      var r := reg[op.node];
      var parted := r.(preDisconnect := Some(r.state), state := Disconnected, snapshot := Some(op.local));
      WriteSteps(env, op, reg, Touched(parted, op.at));
    }
  }

  lemma ConfirmSteps(env: Env, op: Op, reg: Registry)
    requires Sound(env, reg) && op.ConfirmRejoin?
    ensures Sound(env, Step(env, reg, op).0) && forall m :: Steps(op, reg, Step(env, reg, op).0, m)
  {
    Unstepped(op, reg);
    assert Stored(env, reg, op.node);
    if op.node in reg && Step(env, reg, op).1.Ok? {
      var r := reg[op.node];
      var back := r.(state := RejoinTarget(r), preDisconnect := None, snapshot := Some(op.remote));
      WriteSteps(env, op, reg, Touched(back, op.at));
    }
  }

  /** Every operation keeps the registry sound; no peer is ever dropped, its history only grows, and the partition
      rules hold for it. */
  lemma StepSound(env: Env, reg: Registry, op: Op)
    requires Sound(env, reg)
    ensures Sound(env, Step(env, reg, op).0)
    ensures forall n :: Steps(op, reg, Step(env, reg, op).0, n)
  {
    Unstepped(op, reg);
    match op {
      case Introduce(d, records, observed, at) => IntroduceSteps(env, op, reg, d, records, observed, at);
      case ImportQuarantined(d, records, at) => ImportSteps(env, op, reg, d, records, at);
      case AttachArchival(n, a, at) =>
        if n in reg {
          AdvertisementSteps(env, op, reg, n, a, at);
        }
      case Transition(n, target, at) => TransitionSteps(env, op, reg, n, target, at);
      case Disconnect(_, _, _) => DisconnectSteps(env, op, reg);
      case ConfirmRejoin(_, _, _, _) => ConfirmSteps(env, op, reg);
      case RecordAdvertisement(a, now, at) =>
        if a.claims.nodeId in reg {
          AdvertisementSteps(env, op, reg, a.claims.nodeId, a, at);
        }
    }
  }

  // ---------------------------------------------------------------- over whole runs

  lemma {:induction false} RunGrows(env: Env, reg: Registry, ops: seq<Op>, n: string)
    requires Sound(env, reg)
    ensures Sound(env, Run(env, reg, ops))
    ensures n in reg ==> n in Run(env, reg, ops) && Grows(reg[n], Run(env, reg, ops)[n])
    decreases |ops|
  {
    if ops != [] {
      StepSound(env, reg, ops[0]);
      assert Steps(ops[0], reg, Step(env, reg, ops[0]).0, n);
      RunGrows(env, Step(env, reg, ops[0]).0, ops[1..], n);
    }
  }

  /** A peer's stored history only grows by appending; its stored sequence is its length; rebuilding from the whole
      history is applying just the new records to the earlier identity; and Revoked is never left. */
  lemma HistoryOnlyAppends(env: Env, reg: Registry, ops: seq<Op>, n: string)
    requires Sound(env, reg) && n in reg
    ensures n in Run(env, reg, ops)
    ensures var (a, b) := (reg[n], Run(env, reg, ops)[n]);
            && b.identity == a.identity && a.lifecycle <= b.lifecycle && b.lifecycleSequence == |b.lifecycle|
            && K.Rebuild(env.crypto, a.identity, a.lifecycle).Ok?
            && K.Rebuild(env.crypto, b.identity, b.lifecycle)
               == K.Extend(env.crypto, K.Rebuild(env.crypto, a.identity, a.lifecycle).value,
                           b.lifecycle[|a.lifecycle|..])
            && (a.state == Revoked ==> b.state == Revoked)
  {
    RunGrows(env, reg, ops, n);
    var (a, b) := (reg[n], Run(env, reg, ops)[n]);
    assert Stored(env, reg, n) && Stored(env, Run(env, reg, ops), n);
    K.AtMostTwoActiveKeys(env.crypto, b.identity, b.lifecycle);
    assert b.lifecycle == a.lifecycle + b.lifecycle[|a.lifecycle|..];
    K.ExtendSplits(env.crypto, K.FromDocument(env.crypto, a.identity).value, a.lifecycle, b.lifecycle[|a.lifecycle|..]);
  }

  /** The peer's identity has the key. */
  predicate KnowsKey(env: Env, r: PeerRecord, key: string) {
    var s := K.Rebuild(env.crypto, r.identity, r.lifecycle);
    s.Ok? && key in s.value.keys
  }

  /** The envelope verifies against the peer's identity. */
  predicate ValidFor(env: Env, r: PeerRecord, p: K.ClockPolicy, e: K.SignedEnvelope, now: int) {
    var s := K.Rebuild(env.crypto, r.identity, r.lifecycle);
    s.Ok? && K.Verify(env.crypto, p, e, s.value, now) == K.Valid
  }

  lemma LongerHistoryNeverValidates(env: Env, a: PeerRecord, b: PeerRecord, p: K.ClockPolicy, e: K.SignedEnvelope,
                                    now: int)
    requires b.identity == a.identity && a.lifecycle <= b.lifecycle
    requires KnowsKey(env, a, e.keyId) && ValidFor(env, b, p, e, now)
    ensures ValidFor(env, a, p, e, now)
  {
    assert b.lifecycle == a.lifecycle + b.lifecycle[|a.lifecycle|..];
    K.ExtensionNeverValidates(env.crypto, p, a.identity, a.lifecycle, b.lifecycle[|a.lifecycle|..], e, now);
  }

  /** Whatever the registry goes through, an envelope that verifies against a peer's later identity under a key the
      peer already had verified against the earlier one. */
  lemma NoPeerRegainsValidity(env: Env, reg: Registry, ops: seq<Op>, n: string, p: K.ClockPolicy, e: K.SignedEnvelope,
                              now: int)
    requires Sound(env, reg) && n in reg && n in Run(env, reg, ops)
    requires KnowsKey(env, reg[n], e.keyId) && ValidFor(env, Run(env, reg, ops)[n], p, e, now)
    ensures ValidFor(env, reg[n], p, e, now)
  {
    RunGrows(env, reg, ops, n);
    LongerHistoryNeverValidates(env, reg[n], Run(env, reg, ops)[n], p, e, now);
  }

  // ---------------------------------------------------------------- what is stored

  /** The advertisement is signed: its proof is an envelope from the node to itself, under a key accepted when it was
      issued, whose body names just these claims and these times. */
  predicate Signed(env: Env, a: Advertisement, s: K.Identity) {
    var (c, e) := (a.claims, a.proof);
    && c.schema == ADVERTISEMENT_SCHEMA && Wire.IsNodeId(c.nodeId) && c.sequence > 0
    && |c.capabilities| <= 128 && Lex.Distinct(c.capabilities)
    && (forall x | x in c.capabilities :: env.capabilityId(x))
    && e.schema == K.SIGNED_ENVELOPE_SCHEMA
    && c.nodeId == s.nodeId == e.nodeId == e.body.sender == e.body.recipient
    && e.body.messageClass == CAPABILITIES_CLASS && e.body.payloadRef == env.payloadRefOf(c)
    && c.issuedAt.At? && c.expiresAt.At? && 1 <= c.expiresAt.unix - c.issuedAt.unix <= 3600
    && e.body.issuedAt == c.issuedAt && e.body.expiresAt == Some(c.expiresAt)
    && e.keyId in K.Accepted(s, c.issuedAt.unix)
    && env.crypto.wellShaped(e.body) && env.crypto.messageIdOf(e.body) == e.messageId
    && env.crypto.verifies(s.keys[e.keyId].publicKey, K.EnvelopePayload(e.messageId, e.body), e.signature)
  }

  /** The same for the identity that a history leads to. */
  predicate SignedFor(env: Env, a: Advertisement, d: K.Document, records: seq<K.Record>) {
    var s := K.Rebuild(env.crypto, d, records);
    s.Ok? && Signed(env, a, s.value)
  }

  lemma VerifiesIffSigned(env: Env, a: Advertisement, s: K.Identity)
    ensures AdvertisementVerifies(env, a, s) <==> Signed(env, a, s)
  {
    if a.claims.issuedAt.At? {
      K.ValidIff(env.crypto, K.DEFAULT_CLOCK_POLICY, a.proof, s, a.claims.issuedAt.unix);
      K.ClockWindow(K.DEFAULT_CLOCK_POLICY, a.proof.body, a.claims.issuedAt.unix);
    }
  }

  /** A stored peer: under its own id, with an accepted history of bounded length whose fingerprint and length it
      carries, complete if disconnected, and with a signed advertisement if it has one. */
  ghost predicate PeerValid(env: Env, n: string, r: PeerRecord) {
    var s := K.Rebuild(env.crypto, r.identity, r.lifecycle);
    && Wire.IsNodeId(n) && r.nodeId == r.identity.nodeId == n
    && |r.lifecycle| <= 512 && s.Ok? && r.lifecycleSequence == |r.lifecycle|
    && r.fingerprint == env.fingerprintOf(r.identity, r.lifecycle)
    && r.updatedAt.At? && (r.snapshot.Some? ==> Wire.IsSha256Ref(r.snapshot.value))
    && (r.state == Disconnected ==> r.preDisconnect.Some? && r.snapshot.Some?)
    && (r.advertisement.Some? ==> SignedFor(env, r.advertisement.value, r.identity, r.lifecycle))
  }

  lemma EmptyIsSound(env: Env)
    ensures Sound(env, map[])
  {
    forall n
      ensures Stored(env, map[], n)
    {
    }
  }

  /** After any run from an empty registry every stored peer is valid. */
  lemma StoredPeersValid(env: Env, ops: seq<Op>, n: string)
    requires n in Run(env, map[], ops)
    ensures PeerValid(env, n, Run(env, map[], ops)[n])
  {
    EmptyIsSound(env);
    RunGrows(env, map[], ops, n);
    var r := Run(env, map[], ops)[n];
    assert Stored(env, Run(env, map[], ops), n);
    K.AtMostTwoActiveKeys(env.crypto, r.identity, r.lifecycle);
    if r.advertisement.Some? {
      VerifiesIffSigned(env, r.advertisement.value, K.Rebuild(env.crypto, r.identity, r.lifecycle).value);
    }
  }

  /** Over any run the stored advertisement of a peer is kept or replaced by ones with ever higher sequences. */
  lemma AdvertisementsOnlyAdvance(env: Env, reg: Registry, ops: seq<Op>, n: string)
    requires Sound(env, reg) && n in reg && reg[n].advertisement.Some?
    ensures n in Run(env, reg, ops) && Run(env, reg, ops)[n].advertisement.Some?
    ensures var (a, b) := (reg[n].advertisement.value, Run(env, reg, ops)[n].advertisement.value);
            a == b || a.claims.sequence < b.claims.sequence
  {
    RunGrows(env, reg, ops, n);
  }

  // ---------------------------------------------------------------- which operations are accepted

  /** A stored peer's record may be replaced by one that differs in state, partition and counters. */
  lemma ReplacementWrites(env: Env, reg: Registry, n: string, r: PeerRecord)
    requires Sound(env, reg) && n in reg
    requires r == reg[n].(state := r.state, preDisconnect := r.preDisconnect, snapshot := r.snapshot,
                          localEvents := r.localEvents, updatedAt := r.updatedAt)
    ensures WriteFault(env, r).None? <==>
            && r.updatedAt.At? && (r.snapshot.Some? ==> Wire.IsSha256Ref(r.snapshot.value))
            && (r.state == Disconnected ==> r.preDisconnect.Some? && r.snapshot.Some?) && env.fits(r)
  {
    assert Stored(env, reg, n);
  }

  /** The moves between states that an operator may order. */
  predicate Ordered(from: PeerState, to: PeerState) {
    || from == to
    || (from in {Introduced, Admitted, Quarantined} && to in {Quarantined, Revoked, Disconnected})
    || (from in {Introduced, Quarantined} && to == Admitted)
  }

  /** One record has become r, up to its counter and its time, and no other record has changed. */
  predicate Became(before: Registry, after: Registry, n: string, r: PeerRecord) {
    n in after && after == before[n := after[n]]
    && after[n] == r.(localEvents := after[n].localEvents, updatedAt := after[n].updatedAt)
  }

  /** A transition is accepted exactly for a known peer, along an ordered move, at a well-formed time, into Disconnected
      only with a snapshot, and if the record fits; the peer is then in the target state. */
  lemma TransitionAcceptedIff(env: Env, reg: Registry, n: string, target: PeerState, at: K.Stamp)
    requires Sound(env, reg)
    ensures var (after, a) := Step(env, reg, Transition(n, target, at));
            && (a.Ok? <==>
                  && at.At? && n in reg && Ordered(reg[n].state, target)
                  && (target == Disconnected ==> reg[n].snapshot.Some?)
                  && env.fits(Transitioned(reg[n], target, at)))
            && (a.Ok? ==>
                  Became(reg, after, n, reg[n].(state := target, preDisconnect :=
                    if target == Disconnected then Some(reg[n].state)
                    else if reg[n].state == Disconnected then reg[n].preDisconnect else None)))
            && (a.Err? ==> after == reg)
  {
    assert Stored(env, reg, n);
    if n in reg {
      ReplacementWrites(env, reg, n, Transitioned(reg[n], target, at));
    }
  }

  /** A disconnection is accepted exactly for a known peer that is neither revoked nor disconnected, with a well-formed
      snapshot and time, and if the record fits. */
  lemma DisconnectAcceptedIff(env: Env, reg: Registry, n: string, local: string, at: K.Stamp)
    requires Sound(env, reg)
    ensures var (after, a) := Step(env, reg, Disconnect(n, local, at));
            && (a.Ok? <==>
                  && at.At? && Wire.IsSha256Ref(local)
                  && n in reg && reg[n].state in {Introduced, Admitted, Quarantined}
                  && var parted := reg[n].(preDisconnect := Some(reg[n].state), state := Disconnected,
                                           snapshot := Some(local));
                     env.fits(Touched(parted, at)))
            && (a.Ok? ==>
                  Became(reg, after, n, reg[n].(state := Disconnected, snapshot := Some(local),
                                                preDisconnect := Some(reg[n].state))))
            && (a.Err? ==> after == reg)
  {
    assert Stored(env, reg, n);
    if n in reg {
      var parted := reg[n].(preDisconnect := Some(reg[n].state), state := Disconnected, snapshot := Some(local));
      ReplacementWrites(env, reg, n, Touched(parted, at));
    }
  }

  /** The advertisement replaces what the peer has. */
  predicate Advances(r: PeerRecord, a: Advertisement) {
    r.advertisement.None? || r.advertisement.value.claims.sequence < a.claims.sequence
  }

  lemma AdvertisementWrites(env: Env, reg: Registry, n: string, a: Advertisement, at: K.Stamp)
    requires Sound(env, reg) && n in reg && at.At?
    requires SignedFor(env, a, reg[n].identity, reg[n].lifecycle)
    ensures var (after, r) := StoreAdvertisement(env, reg, reg[n], a, at);
            && (r == Ok(Applied) <==> Advances(reg[n], a) && env.fits(Touched(reg[n].(advertisement := Some(a)), at)))
            && (r == Ok(Duplicate) <==> reg[n].advertisement == Some(a))
            && after == if r == Ok(Applied) then reg[n := Touched(reg[n].(advertisement := Some(a)), at)] else reg
  {
    assert Stored(env, reg, n);
    VerifiesIffSigned(env, a, K.Rebuild(env.crypto, reg[n].identity, reg[n].lifecycle).value);
    var w := Touched(reg[n].(advertisement := Some(a)), at);
    assert RecordFault(env, w).None?;
  }

  /** An archived advertisement is stored exactly if it names and is signed by the known peer, advances over what is
      stored, and fits. */
  lemma ArchivalStoredIff(env: Env, reg: Registry, n: string, a: Advertisement, at: K.Stamp)
    requires Sound(env, reg)
    ensures var (after, r) := Step(env, reg, AttachArchival(n, a, at));
            && (r == Ok(Applied) <==>
                  && at.At? && a.claims.nodeId == n && n in reg
                  && SignedFor(env, a, reg[n].identity, reg[n].lifecycle)
                  && Advances(reg[n], a) && env.fits(Touched(reg[n].(advertisement := Some(a)), at)))
            && after == if r == Ok(Applied) then reg[n := Touched(reg[n].(advertisement := Some(a)), at)] else reg
  {
    assert Stored(env, reg, n);
    if n in reg && at.At? {
      var s := K.Rebuild(env.crypto, reg[n].identity, reg[n].lifecycle).value;
      VerifiesIffSigned(env, a, s);
      if AdvertisementVerifies(env, a, s) {
        AdvertisementWrites(env, reg, n, a, at);
      }
    }
  }

  /** A live advertisement is stored exactly if besides all that the present lies within its lifetime. */
  lemma LiveStoredIff(env: Env, reg: Registry, a: Advertisement, now: int, at: K.Stamp)
    requires Sound(env, reg)
    ensures var n := a.claims.nodeId;
            var (after, r) := Step(env, reg, RecordAdvertisement(a, now, at));
            && (r == Ok(Applied) <==>
                  && at.At? && n in reg
                  && SignedFor(env, a, reg[n].identity, reg[n].lifecycle)
                  && a.claims.issuedAt.unix <= now <= a.claims.expiresAt.unix
                  && Advances(reg[n], a) && env.fits(Touched(reg[n].(advertisement := Some(a)), at)))
            && after == if r == Ok(Applied) then reg[n := Touched(reg[n].(advertisement := Some(a)), at)] else reg
  {
    var n := a.claims.nodeId;
    assert Stored(env, reg, n);
    if n in reg && at.At? {
      var s := K.Rebuild(env.crypto, reg[n].identity, reg[n].lifecycle).value;
      VerifiesIffSigned(env, a, s);
      if AdvertisementVerifies(env, a, s) {
        AdvertisementWrites(env, reg, n, a, at);
      }
    }
  }

  /** An unknown peer is stored exactly with a well-formed, accepted history of bounded length, and as Introduced. */
  lemma IntroducedIff(env: Env, reg: Registry, d: K.Document, records: seq<K.Record>, observed: Option<string>,
                      at: K.Stamp)
    requires Sound(env, reg) && d.nodeId !in reg
    ensures var (after, a) := IntroduceResult(env, reg, d, records, observed, at);
            var r := PeerRecord(d.nodeId, d, records, env.fingerprintOf(d, records), |records|, Introduced,
                                None, observed, None, 1, at);
            && (a.Ok? <==>
                  && at.At? && |records| <= 512 && (observed.Some? ==> Wire.IsSha256Ref(observed.value))
                  && Wire.IsNodeId(d.nodeId) && K.Rebuild(env.crypto, d, records).Ok? && env.encodes(d, records)
                  && env.fits(r))
            && after == if a.Ok? then reg[d.nodeId := r] else reg
  {
    if K.Rebuild(env.crypto, d, records).Ok? {
      K.AtMostTwoActiveKeys(env.crypto, d, records);
    }
  }

  // ---------------------------------------------------------------- extending a history

  lemma ReintroducedWrites(env: Env, reg: Registry, n: string, records: seq<K.Record>, observed: Option<string>,
                           at: K.Stamp)
    requires Sound(env, reg) && n in reg && |records| <= MAX_PEER_LIFECYCLE_RECORDS && at.At?
    requires observed.Some? ==> Wire.IsSha256Ref(observed.value)
    requires K.Rebuild(env.crypto, reg[n].identity, records).Ok? && env.encodes(reg[n].identity, records)
    ensures var r := Reintroduced(env, reg[n], records, |records|, observed, at);
            WriteFault(env, r).None? <==>
            && (r.advertisement.Some? ==> SignedFor(env, r.advertisement.value, r.identity, records)) && env.fits(r)
  {
    assert Stored(env, reg, n);
    K.AtMostTwoActiveKeys(env.crypto, reg[n].identity, records);
    if reg[n].advertisement.Some? {
      VerifiesIffSigned(env, reg[n].advertisement.value, K.Rebuild(env.crypto, reg[n].identity, records).value);
    }
  }

  /** The new history is well formed and strictly extends the stored one of the same initial identity. */
  predicate Extends(env: Env, r: PeerRecord, d: K.Document, records: seq<K.Record>) {
    && r.identity == d && r.lifecycle <= records && |r.lifecycle| < |records| <= 512
    && K.Rebuild(env.crypto, d, records).Ok? && env.encodes(d, records)
  }

  /** A known peer's record is replaced exactly when the new history is well formed and strictly extends the stored one
      of the same initial identity, the peer is not revoked, the stored advertisement still verifies under the extended
      identity, and the new record fits. */
  lemma ExtensionAppliedIff(env: Env, reg: Registry, d: K.Document, records: seq<K.Record>, observed: Option<string>,
                            at: K.Stamp)
    requires Sound(env, reg) && d.nodeId in reg
    ensures var r := reg[d.nodeId];
            IntroduceResult(env, reg, d, records, observed, at).1 == Ok(Applied) <==>
            && at.At? && (observed.Some? ==> Wire.IsSha256Ref(observed.value))
            && r.state != Revoked && Extends(env, r, d, records)
            && (r.advertisement.Some? ==> SignedFor(env, r.advertisement.value, d, records))
            && env.fits(Reintroduced(env, r, records, |records|, observed, at))
  {
    var r := reg[d.nodeId];
    assert Stored(env, reg, d.nodeId);
    K.AtMostTwoActiveKeys(env.crypto, r.identity, r.lifecycle);
    if K.Rebuild(env.crypto, d, records).Ok? {
      K.AtMostTwoActiveKeys(env.crypto, d, records);
      if at.At? && (observed.Some? ==> Wire.IsSha256Ref(observed.value)) && Extends(env, r, d, records) {
        ReintroducedWrites(env, reg, d.nodeId, records, observed, at);
      }
    }
  }

  lemma ExtensionWrites(env: Env, reg: Registry, d: K.Document, records: seq<K.Record>, observed: Option<string>,
                        at: K.Stamp)
    requires Sound(env, reg) && d.nodeId in reg
    ensures var (after, a) := IntroduceResult(env, reg, d, records, observed, at);
            after == if a == Ok(Applied)
                     then reg[d.nodeId := Reintroduced(env, reg[d.nodeId], records, |records|, observed, at)]
                     else reg
  {
    assert Stored(env, reg, d.nodeId);
    if IntroduceResult(env, reg, d, records, observed, at).1 == Ok(Applied) {
      K.AtMostTwoActiveKeys(env.crypto, d, records);
    }
  }

  /** What an accepted extension changes, and what it leaves: the identity, the state, what a partition holds, the
      advertisement, and every other peer. */
  lemma ExtensionEffect(env: Env, reg: Registry, d: K.Document, records: seq<K.Record>, observed: Option<string>,
                        at: K.Stamp)
    requires Sound(env, reg) && d.nodeId in reg
    ensures var (after, a) := IntroduceResult(env, reg, d, records, observed, at);
            if a == Ok(Applied) then
              && d.nodeId in after && after == reg[d.nodeId := after[d.nodeId]]
              && var (r, w) := (reg[d.nodeId], after[d.nodeId]);
                 && w.identity == r.identity && w.lifecycle == records
                 && w.state == r.state && w.preDisconnect == r.preDisconnect && w.advertisement == r.advertisement
                 && w.snapshot == if r.state == Disconnected || observed.None? then r.snapshot else observed
            else after == reg
  {
    ExtensionWrites(env, reg, d, records, observed, at);
  }

  /** The key is known to the identity and neither revoked nor compromised. */
  predicate ActiveKey(s: K.Identity, key: string) {
    key in s.keys && s.keys[key].status == K.Active
  }

  /** After any run, the key behind a stored advertisement is Active in the stored identity. */
  lemma AdvertisedKeyIsActive(env: Env, reg: Registry, ops: seq<Op>, n: string)
    requires Sound(env, reg) && n in Run(env, reg, ops) && Run(env, reg, ops)[n].advertisement.Some?
    ensures var r := Run(env, reg, ops)[n];
            var s := K.Rebuild(env.crypto, r.identity, r.lifecycle);
            s.Ok? && ActiveKey(s.value, r.advertisement.value.proof.keyId)
  {
    RunGrows(env, reg, ops, n);
    assert Stored(env, Run(env, reg, ops), n);
  }

  /** So a history that revokes or compromises the advertised key is refused, and the stored one stays. */
  lemma AdvertisedKeyStrikeRefused(env: Env, reg: Registry, d: K.Document, records: seq<K.Record>,
                                   observed: Option<string>, at: K.Stamp)
    requires Sound(env, reg) && d.nodeId in reg && reg[d.nodeId].advertisement.Some?
    requires K.Rebuild(env.crypto, d, records).Ok?
    requires !ActiveKey(K.Rebuild(env.crypto, d, records).value, reg[d.nodeId].advertisement.value.proof.keyId)
    ensures IntroduceResult(env, reg, d, records, observed, at).0 == reg
    ensures IntroduceResult(env, reg, d, records, observed, at).1 != Ok(Applied)
  {
    ExtensionAppliedIff(env, reg, d, records, observed, at);
  }

  // ---------------------------------------------------------------- partition and rejoin

  /** The peer is disconnected before, between and after the operations. */
  predicate Partitioned(env: Env, reg: Registry, ops: seq<Op>, n: string)
    decreases |ops|
  {
    && n in reg && reg[n].state == Disconnected
    && (ops != [] ==> Partitioned(env, Step(env, reg, ops[0]).0, ops[1..], n))
  }

  /** One of the operations is an accepted transition of the peer to Disconnected. */
  predicate Forgets(env: Env, reg: Registry, ops: seq<Op>, n: string)
    decreases |ops|
  {
    && ops != []
    && (|| (SelfTransition(ops[0], n) && Step(env, reg, ops[0]).1.Ok?)
        || Forgets(env, Step(env, reg, ops[0]).0, ops[1..], n))
  }

  lemma SelfTransitionEffect(env: Env, reg: Registry, op: Op, n: string)
    requires Sound(env, reg) && n in reg && reg[n].state == Disconnected && SelfTransition(op, n)
    ensures var (after, r) := Step(env, reg, op);
            if r.Ok? then n in after && after[n].preDisconnect == Some(Disconnected) else after == reg
  {
    assert Stored(env, reg, n);
  }

  /** During a partition the snapshot is kept, and the state to restore is kept exactly unless it is forgotten. */
  lemma {:induction false} PartitionKeeps(env: Env, reg: Registry, ops: seq<Op>, n: string)
    requires Sound(env, reg) && Partitioned(env, reg, ops, n)
    ensures Sound(env, Run(env, reg, ops)) && n in Run(env, reg, ops)
    ensures var (a, b) := (reg[n], Run(env, reg, ops)[n]);
            && b.state == Disconnected && b.snapshot == a.snapshot
            && b.preDisconnect == if Forgets(env, reg, ops, n) then Some(Disconnected) else a.preDisconnect
    decreases |ops|
  {
    if ops != [] {
      var next := Step(env, reg, ops[0]).0;
      StepSound(env, reg, ops[0]);
      assert Steps(ops[0], reg, next, n) && Stored(env, reg, n);
      if SelfTransition(ops[0], n) {
        SelfTransitionEffect(env, reg, ops[0], n);
      }
      PartitionKeeps(env, next, ops[1..], n);
    }
  }

  /** However operations interleave between the step that disconnects a peer and the step that connects it again: the
      snapshot stays the one taken at the partition, the step that ends the partition is a rejoin with that snapshot or
      with the explicit flag, and the peer is back in exactly the state it was disconnected from.  The state to restore
      survives exactly when no accepted operation in between is a transition of the peer to Disconnected. */
  lemma RejoinRestores(env: Env, reg: Registry, entry: Op, between: seq<Op>, exit: Op, n: string)
    requires Sound(env, reg) && n in reg && reg[n].state != Disconnected
    requires Partitioned(env, Step(env, reg, entry).0, between, n)
    ensures var parted := Step(env, reg, entry).0;
            var waited := Run(env, parted, between);
            && n in waited && waited[n].snapshot == parted[n].snapshot
            && (entry.Disconnect? ==> parted[n].snapshot == Some(entry.local))
            && (waited[n].preDisconnect == Some(reg[n].state) <==> !Forgets(env, parted, between, n))
            && var back := Step(env, waited, exit).0;
               && n in back
               && (back[n].state != Disconnected ==>
                     && exit.ConfirmRejoin? && exit.node == n
                     && (parted[n].snapshot == Some(exit.remote) || exit.explicitly)
                     && back[n].state == reg[n].state)
  {
    var parted := Step(env, reg, entry).0;
    StepSound(env, reg, entry);
    assert Stored(env, reg, n) && Stored(env, parted, n);
    assert Steps(entry, reg, parted, n);
    PartitionKeeps(env, parted, between, n);
    var waited := Run(env, parted, between);
    StepSound(env, waited, exit);
    assert Stored(env, waited, n);
    assert Steps(exit, waited, Step(env, waited, exit).0, n);
  }

  /** Rejoin of a disconnected peer is accepted exactly when the time and the snapshot are well formed, the snapshot is
      the stored one or the caller reconciles explicitly, the state to restore is not Disconnected or Revoked, and the
      updated record has room. */
  lemma RejoinAcceptedIff(env: Env, reg: Registry, n: string, remote: string, explicitly: bool, at: K.Stamp)
    requires Sound(env, reg) && n in reg && reg[n].state == Disconnected
    ensures Step(env, reg, ConfirmRejoin(n, remote, explicitly, at)).1.Ok? <==>
            && at.At? && Wire.IsSha256Ref(remote) && (reg[n].snapshot == Some(remote) || explicitly)
            && reg[n].preDisconnect != Some(Disconnected) && reg[n].preDisconnect != Some(Revoked)
            && var back := reg[n].(state := RejoinTarget(reg[n]), preDisconnect := None, snapshot := Some(remote));
               env.fits(Touched(back, at))
    ensures var (after, a) := Step(env, reg, ConfirmRejoin(n, remote, explicitly, at));
            if a.Ok? then
              Became(reg, after, n, reg[n].(preDisconnect := None, snapshot := Some(remote), state :=
                if reg[n].preDisconnect.Some? then reg[n].preDisconnect.value else Introduced))
            else after == reg
  {
    assert Stored(env, reg, n);
  }

  /** A second `transition` to Disconnected is allowed and records Disconnected as the state to restore. */
  lemma SelfTransitionForgets(env: Env, reg: Registry, n: string, at: K.Stamp)
    requires Sound(env, reg) && n in reg && reg[n].state == Disconnected && at.At?
    requires env.fits(Touched(reg[n].(preDisconnect := Some(Disconnected)), at))
    ensures var after := Step(env, reg, Transition(n, Disconnected, at)).0;
            n in after && after[n].state == Disconnected && after[n].preDisconnect == Some(Disconnected)
  {
    assert Stored(env, reg, n);
  }

  /** From then on nothing ever connects the peer again. */
  lemma {:induction false} ForgottenStaysDisconnected(env: Env, reg: Registry, ops: seq<Op>, n: string)
    requires Sound(env, reg) && n in reg && reg[n].state == Disconnected && reg[n].preDisconnect == Some(Disconnected)
    ensures n in Run(env, reg, ops) && Run(env, reg, ops)[n].state == Disconnected
    decreases |ops|
  {
    if ops != [] {
      var next := Step(env, reg, ops[0]).0;
      StepSound(env, reg, ops[0]);
      assert Steps(ops[0], reg, next, n) && Stored(env, reg, n);
      ForgottenStaysDisconnected(env, next, ops[1..], n);
    }
  }

  // ---------------------------------------------------------------- archival import

  /** Importing a peer that is stored with this very history changes nothing, whatever its state. */
  lemma ReimportChangesNothing(env: Env, reg: Registry, d: K.Document, records: seq<K.Record>, at: K.Stamp)
    requires Sound(env, reg) && d.nodeId in reg
    requires reg[d.nodeId].identity == d && reg[d.nodeId].lifecycle == records
    ensures ImportResult(env, reg, d, records, at).0 == reg
    ensures at.At? && reg[d.nodeId].state != Revoked ==> ImportResult(env, reg, d, records, at).1 == Ok(Duplicate)
  {
    assert Stored(env, reg, d.nodeId);
  }

  // ---------------------------------------------------------------- what every write leaves behind

  /** The record that a write replaces is counted as one more local event, up to the largest number, at its time; a new
      record counts what was done to bring it in. */
  predicate Counted(before: Registry, after: Registry, n: string, at: K.Stamp, first: nat) {
    n in after ==>
      if n !in before then after[n].updatedAt == at && after[n].localEvents == first
      else
        || after[n] == before[n]
        || (&& after[n].updatedAt == at
            && (after[n].localEvents == before[n].localEvents + 1
                || after[n].localEvents == before[n].localEvents >= 0xFFFF_FFFF_FFFF_FFFF))
  }

  lemma TouchCounted(env: Env, reg: Registry, r: PeerRecord, at: K.Stamp, n: string)
    requires r.nodeId in reg && r.localEvents == reg[r.nodeId].localEvents
    ensures Counted(reg, Write(env, reg, Touched(r, at)).0, n, at, 1)
  {
  }

  lemma IntroduceCounted(env: Env, reg: Registry, d: K.Document, records: seq<K.Record>, observed: Option<string>,
                         at: K.Stamp, n: string)
    ensures var after := IntroduceResult(env, reg, d, records, observed, at).0;
            && Counted(reg, after, n, at, 1)
            && (n != d.nodeId && n in after ==> n in reg && after[n] == reg[n])
            && (n !in reg && n in after ==> after[n].nodeId == n)
  {
  }

  lemma TransitionCounted(env: Env, reg: Registry, m: string, target: PeerState, at: K.Stamp, n: string)
    requires m in reg ==> reg[m].nodeId == m
    ensures Counted(reg, TransitionResult(env, reg, m, target, at).0, n, at, 1)
  {
  }

  lemma PartitionCounted(env: Env, reg: Registry, m: string, op: Op, n: string)
    requires m in reg ==> reg[m].nodeId == m
    requires (op.Disconnect? || op.ConfirmRejoin?) && op.node == m
    ensures Counted(reg, Step(env, reg, op).0, n, op.at, 1)
  {
  }

  /** A new peer that cannot be stored as quarantined stays as introduced. */
  lemma ImportCounted(env: Env, reg: Registry, d: K.Document, records: seq<K.Record>, at: K.Stamp, n: string)
    ensures var (after, r) := ImportResult(env, reg, d, records, at);
            Counted(reg, after, n, at, if r.Ok? then 2 else 1)
  {
    IntroduceCounted(env, reg, d, records, None, at, n);
    IntroduceCounted(env, reg, d, records, None, at, d.nodeId);
    var introduced := IntroduceResult(env, reg, d, records, None, at).0;
    if d.nodeId !in reg && d.nodeId in introduced {
      TransitionCounted(env, introduced, d.nodeId, Quarantined, at, n);
    }
  }

  /** Every change of a stored record advances its counter and sets its time. */
  lemma WritesAreCounted(env: Env, reg: Registry, op: Op, n: string)
    requires Sound(env, reg)
    ensures var (after, r) := Step(env, reg, op);
            Counted(reg, after, n, op.at, if op.ImportQuarantined? && r.Ok? then 2 else 1)
  {
    match op {
      case Introduce(d, records, observed, at) => IntroduceCounted(env, reg, d, records, observed, at, n);
      case ImportQuarantined(d, records, at) => ImportCounted(env, reg, d, records, at, n);
      case AttachArchival(m, a, at) => AdvertisementCounted(env, reg, m, a, at, n);
      case RecordAdvertisement(a, now, at) => AdvertisementCounted(env, reg, a.claims.nodeId, a, at, n);
      case Transition(m, target, at) =>
        assert m in reg ==> Stored(env, reg, m);
        TransitionCounted(env, reg, m, target, at, n);
      case Disconnect(m, _, _) =>
        assert m in reg ==> Stored(env, reg, m);
        PartitionCounted(env, reg, m, op, n);
      case ConfirmRejoin(m, _, _, _) =>
        assert m in reg ==> Stored(env, reg, m);
        PartitionCounted(env, reg, m, op, n);
    }
  }

  lemma AdvertisementCounted(env: Env, reg: Registry, m: string, a: Advertisement, at: K.Stamp, n: string)
    requires Sound(env, reg)
    ensures m in reg ==> Counted(reg, StoreAdvertisement(env, reg, reg[m], a, at).0, n, at, 1)
  {
    if m in reg {
      assert Stored(env, reg, m);
      TouchCounted(env, reg, reg[m].(advertisement := Some(a)), at, n);
    }
  }
}
