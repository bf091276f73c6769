/** Transport frames, relay chains, offline packages and the bounded queue (src/transport.rs).

    The three identifiers are arbitrary functions of the record without its own id field; where distinct records
    must not share an id, the statement names the collision instead of assuming there is none. */
module Relay {
  import opened Wrappers
  import Wire

  const FRAME_SCHEMA := "qsol-fed-transport-frame/1"
  const RECEIPT_SCHEMA := "qsol-fed-relay-receipt/1"
  const PACKAGE_SCHEMA := "qsol-fed-offline-package/1"
  const FRAME_MAX_BYTES := 65_536
  const QUEUE_MAX_DEPTH := 1_024
  const MAX_RELAY_HOPS := 16

  datatype Profile = WebSocket | Quic | UnixIpc | OfflineSneakernet | StoreForward

  datatype Frame = Frame(
    schema: string, frameId: string, profile: Profile, sender: string, recipient: string, messageId: string,
    payloadRef: string, provenanceRef: Option<string>, sequence: nat, authority: string)

  datatype Receipt = Receipt(
    schema: string, receiptId: string, frameId: string, messageId: string, payloadRef: string,
    provenanceRef: Option<string>, hopIndex: nat, relayNode: string, previous: Option<string>,
    ingress: Profile, egress: Profile, authority: string)

  datatype Package = Package(schema: string, packageId: string, frame: Frame, chain: seq<Receipt>, authority: string)

  datatype Ids = Ids(
    frameIdOf: Frame -> string, receiptIdOf: Receipt -> string, packageIdOf: Package -> string,
    frameBytes: Frame -> nat, packageBytes: Package -> nat)

  function BareFrame(f: Frame): Frame {
    f.(frameId := "")
  }

  function BareReceipt(r: Receipt): Receipt {
    r.(receiptId := "")
  }

  function BarePackage(p: Package): Package {
    p.(packageId := "")
  }

  predicate ValidFrame(ids: Ids, f: Frame) {
    && f.schema == FRAME_SCHEMA && Wire.IsSha256Ref(f.frameId)
    && Wire.IsNodeId(f.sender) && Wire.IsNodeId(f.recipient)
    && Wire.IsSha256Ref(f.messageId) && Wire.IsSha256Ref(f.payloadRef)
    && (f.provenanceRef.Some? ==> Wire.IsSha256Ref(f.provenanceRef.value))
    && 0 < f.sequence <= Wire.SAFE_INTEGER_MAX
    && f.authority == "none"
    && ids.frameBytes(f) <= FRAME_MAX_BYTES
    && ids.frameIdOf(BareFrame(f)) == f.frameId
  }

  // ---------------------------------------------------------------- relay chains

  /** The id the next receipt must link to. */
  function Link(chain: seq<Receipt>): Option<string> {
    if chain == [] then None else Some(chain[|chain| - 1].receiptId)
  }

  /** The profile the next receipt must have come in by. */
  function Ingress(f: Frame, chain: seq<Receipt>): Profile {
    if chain == [] then f.profile else chain[|chain| - 1].egress
  }

  predicate HopOk(ids: Ids, f: Frame, before: seq<Receipt>, r: Receipt) {
    && r.schema == RECEIPT_SCHEMA && Wire.IsSha256Ref(r.receiptId)
    && r.hopIndex == |before| + 1
    && r.frameId == f.frameId && r.messageId == f.messageId && r.payloadRef == f.payloadRef
    && r.provenanceRef == f.provenanceRef
    && r.ingress == Ingress(f, before)
    && r.authority == "none" && Wire.IsNodeId(r.relayNode)
    && r.previous == Link(before)
    && ids.receiptIdOf(BareReceipt(r)) == r.receiptId
  }

  predicate HopAt(ids: Ids, f: Frame, chain: seq<Receipt>, i: nat)
    requires i < |chain|
  {
    HopOk(ids, f, chain[..i], chain[i])
  }

  predicate ValidChain(ids: Ids, f: Frame, chain: seq<Receipt>) {
    && ValidFrame(ids, f) && |chain| <= MAX_RELAY_HOPS
    && forall i | 0 <= i < |chain| :: HopAt(ids, f, chain, i)
  }

  /** `validate_relay_chain`: one pass that remembers the last id and the expected ingress. */
  method ValidateRelayChain(ids: Ids, f: Frame, chain: seq<Receipt>) returns (ok: bool)
    ensures ok == ValidChain(ids, f, chain)
  {
    if !ValidFrame(ids, f) || |chain| > MAX_RELAY_HOPS {
      return false;
    }
    var previous: Option<string> := None;
    var expectedIngress := f.profile;
    for i := 0 to |chain|
      invariant previous == Link(chain[..i]) && expectedIngress == Ingress(f, chain[..i])
      invariant forall j | 0 <= j < i :: HopAt(ids, f, chain, j)
    {
      var r := chain[i];
      if || r.schema != RECEIPT_SCHEMA || !Wire.IsSha256Ref(r.receiptId) || r.hopIndex != i + 1
         || r.frameId != f.frameId || r.messageId != f.messageId || r.payloadRef != f.payloadRef
         || r.provenanceRef != f.provenanceRef || r.ingress != expectedIngress || r.authority != "none"
         || !Wire.IsNodeId(r.relayNode) || r.previous != previous {
        assert !HopAt(ids, f, chain, i);
        return false;
      }
      if ids.receiptIdOf(BareReceipt(r)) != r.receiptId {
        assert !HopAt(ids, f, chain, i);
        return false;
      }
      previous := Some(r.receiptId);
      expectedIngress := r.egress;
    }
    ok := true;
  }

  /** Two different receipts of the chains have the same id. */
  ghost predicate Collision(ids: Ids, a: seq<Receipt>, b: seq<Receipt>) {
    exists x, y :: x in a && y in b && BareReceipt(x) != BareReceipt(y)
                   && ids.receiptIdOf(BareReceipt(x)) == ids.receiptIdOf(BareReceipt(y))
  }

  /** What one accepted hop says about its place in the chain. */
  lemma HopFacts(ids: Ids, f: Frame, chain: seq<Receipt>, i: nat)
    requires ValidChain(ids, f, chain) && i < |chain|
    ensures chain[i].hopIndex == i + 1 && ids.receiptIdOf(BareReceipt(chain[i])) == chain[i].receiptId
    ensures i > 0 ==> chain[i].previous == Some(chain[i - 1].receiptId)
  {
    assert HopAt(ids, f, chain, i);
    assert i > 0 ==> chain[..i][i - 1] == chain[i - 1];
  }

  /** Equal ids mean equal receipts, unless the ids collide. */
  lemma SameIdSameReceipt(ids: Ids, f: Frame, a: seq<Receipt>, b: seq<Receipt>, i: nat, j: nat)
    requires ValidChain(ids, f, a) && ValidChain(ids, f, b) && !Collision(ids, a, b)
    requires i < |a| && j < |b| && a[i].receiptId == b[j].receiptId
    ensures a[i] == b[j]
  {
    HopFacts(ids, f, a, i);
    HopFacts(ids, f, b, j);
    assert a[i] in a && b[j] in b;
    assert BareReceipt(a[i]) == BareReceipt(b[j]);
    assert a[i] == BareReceipt(a[i]).(receiptId := a[i].receiptId);
    assert b[j] == BareReceipt(b[j]).(receiptId := b[j].receiptId);
  }

  lemma {:induction false} ChainsAgreeBelow(ids: Ids, f: Frame, a: seq<Receipt>, b: seq<Receipt>, k: nat, i: nat)
    requires ValidChain(ids, f, a) && ValidChain(ids, f, b) && !Collision(ids, a, b)
    requires i <= k && k < |a| && k < |b| && a[k] == b[k]
    ensures a[i] == b[i]
    decreases k
  {
    if i < k {
      HopFacts(ids, f, a, k);
      HopFacts(ids, f, b, k);
      SameIdSameReceipt(ids, f, a, b, k - 1, k - 1);
      ChainsAgreeBelow(ids, f, a, b, k - 1, i);
    }
  }

  /** The last id of a relay chain commits to the whole chain: two chains valid for one frame and ending in the same
      id are equal hop by hop, unless two different receipts have the same id. */
  lemma LastIdCommits(ids: Ids, f: Frame, a: seq<Receipt>, b: seq<Receipt>)
    requires ValidChain(ids, f, a) && ValidChain(ids, f, b)
    requires Link(a) == Link(b)
    ensures a == b || Collision(ids, a, b)
  {
    if !Collision(ids, a, b) && a != [] {
      var last := |a| - 1;
      SameIdSameReceipt(ids, f, a, b, last, |b| - 1);
      HopFacts(ids, f, a, last);
      HopFacts(ids, f, b, |b| - 1);
      forall i | 0 <= i < |a|
        ensures a[i] == b[i]
      {
        ChainsAgreeBelow(ids, f, a, b, last, i);
      }
    }
  }

  datatype RelayError = FrameInvalid | HopInvalid | PreviousRefInvalid

  function BuildRelayReceipt(ids: Ids, f: Frame, hop: nat, node: string, previous: Option<string>,
                             ingress: Profile, egress: Profile): Result<Receipt, RelayError>
  {
    if !ValidFrame(ids, f) then Err(FrameInvalid)
    else if hop == 0 || hop > MAX_RELAY_HOPS || !Wire.IsNodeId(node) then Err(HopInvalid)
    else if previous.Some? && !Wire.IsSha256Ref(previous.value) then Err(PreviousRefInvalid)
    else
      var bare := Receipt(RECEIPT_SCHEMA, "", f.frameId, f.messageId, f.payloadRef, f.provenanceRef, hop, node,
                          previous, ingress, egress, "none");
      Ok(bare.(receiptId := ids.receiptIdOf(bare)))
  }

  /** A built receipt extends a valid chain exactly when it carries the next hop number, the link to the last
      receipt and the profile the chain left by; the chain may grow up to the hop limit. */
  lemma ExtensionValidIff(ids: Ids, f: Frame, chain: seq<Receipt>, hop: nat, node: string, previous: Option<string>,
                          ingress: Profile, egress: Profile)
    requires ValidChain(ids, f, chain)
    requires BuildRelayReceipt(ids, f, hop, node, previous, ingress, egress).Ok?
    requires Wire.IsSha256Ref(BuildRelayReceipt(ids, f, hop, node, previous, ingress, egress).value.receiptId)
    ensures ValidChain(ids, f, chain + [BuildRelayReceipt(ids, f, hop, node, previous, ingress, egress).value])
            <==> hop == |chain| + 1 && previous == Link(chain) && ingress == Ingress(f, chain)
  {
    var r := BuildRelayReceipt(ids, f, hop, node, previous, ingress, egress).value;
    var longer := chain + [r];
    assert longer[..|chain|] == chain && longer[|chain|] == r;
    assert BareReceipt(r).(receiptId := r.receiptId) == r;
    forall i | 0 <= i < |chain|
      ensures HopAt(ids, f, longer, i)
    {
      assert longer[..i] == chain[..i] && longer[i] == chain[i];
      assert HopAt(ids, f, chain, i);
    }
    if ValidChain(ids, f, longer) {
      assert HopAt(ids, f, longer, |chain|);
    }
  }

  /** From any valid chain below the limit there is an acceptable next receipt. */
  lemma ChainCanGrow(ids: Ids, f: Frame, chain: seq<Receipt>, node: string, egress: Profile)
    requires ValidChain(ids, f, chain) && |chain| < MAX_RELAY_HOPS && Wire.IsNodeId(node)
    ensures BuildRelayReceipt(ids, f, |chain| + 1, node, Link(chain), Ingress(f, chain), egress).Ok?
  {
    if chain != [] {
      assert HopAt(ids, f, chain, |chain| - 1);
    }
  }

  /** A frame between nodes, of bounded size, bound to its id, that claims no authority. */
  predicate BoundFrame(ids: Ids, f: Frame) {
    && f.schema == "qsol-fed-transport-frame/1" && f.authority == "none"
    && Wire.IsNodeId(f.sender) && Wire.IsNodeId(f.recipient)
    && Wire.IsSha256Ref(f.messageId) && Wire.IsSha256Ref(f.payloadRef)
    && (f.provenanceRef.None? || Wire.IsSha256Ref(f.provenanceRef.value))
    && 1 <= f.sequence <= 9_007_199_254_740_991 && ids.frameBytes(f) <= 65_536
    && Wire.IsSha256Ref(f.frameId) && f.frameId == ids.frameIdOf(f.(frameId := ""))
  }

  /** The receipt of hop i, next to the one before it. */
  predicate LinkedAt(ids: Ids, f: Frame, chain: seq<Receipt>, i: nat)
    requires i < |chain|
  {
    var r := chain[i];
    && r.schema == "qsol-fed-relay-receipt/1" && r.authority == "none" && Wire.IsNodeId(r.relayNode)
    && r.frameId == f.frameId && r.messageId == f.messageId
    && r.payloadRef == f.payloadRef && r.provenanceRef == f.provenanceRef
    && Wire.IsSha256Ref(r.receiptId) && r.receiptId == ids.receiptIdOf(r.(receiptId := ""))
    && r.hopIndex == i + 1
    && (if i == 0 then r.previous == None && r.ingress == f.profile
        else r.previous == Some(chain[i - 1].receiptId) && r.ingress == chain[i - 1].egress)
  }

  lemma HopAtIff(ids: Ids, f: Frame, chain: seq<Receipt>, i: nat)
    requires i < |chain|
    ensures HopAt(ids, f, chain, i) <==> LinkedAt(ids, f, chain, i)
  {
    assert i > 0 ==> chain[..i][i - 1] == chain[i - 1];
  }

  /** A chain is valid for a frame exactly if the frame is bound, there are at most 16 hops, and each receipt names the
      frame, is bound to its id, and takes up where the one before it left off. */
  lemma ChainValidIff(ids: Ids, f: Frame, chain: seq<Receipt>)
    ensures ValidChain(ids, f, chain) <==>
            BoundFrame(ids, f) && |chain| <= 16 && forall i | 0 <= i < |chain| :: LinkedAt(ids, f, chain, i)
    ensures ValidFrame(ids, f) <==> BoundFrame(ids, f)
  {
    forall i | 0 <= i < |chain|
      ensures HopAt(ids, f, chain, i) <==> LinkedAt(ids, f, chain, i)
    {
      HopAtIff(ids, f, chain, i);
    }
  }

  /** A frame id commits to the frame: two bound frames with one id are equal, or their ids collide. */
  lemma FrameIdCommits(ids: Ids, f: Frame, g: Frame)
    requires BoundFrame(ids, f) && BoundFrame(ids, g) && f.frameId == g.frameId
    ensures f == g || (BareFrame(f) != BareFrame(g) && ids.frameIdOf(BareFrame(f)) == ids.frameIdOf(BareFrame(g)))
  {
    assert f == BareFrame(f).(frameId := f.frameId) && g == BareFrame(g).(frameId := g.frameId);
  }

  /** A receipt is built exactly for a bound frame, a hop within the limit, a node, and a well-formed link; it says so,
      and its id is bound to it. */
  lemma BuildsIff(
      ids: Ids, f: Frame, hop: nat, node: string, previous: Option<string>, ingress: Profile, egress: Profile)
    ensures BuildRelayReceipt(ids, f, hop, node, previous, ingress, egress).Ok? <==>
            && BoundFrame(ids, f) && 1 <= hop <= 16 && Wire.IsNodeId(node)
            && (previous.None? || Wire.IsSha256Ref(previous.value))
    ensures var r := BuildRelayReceipt(ids, f, hop, node, previous, ingress, egress);
            r.Ok? ==>
              && r.value.hopIndex == hop && r.value.relayNode == node && r.value.previous == previous
              && r.value.ingress == ingress && r.value.egress == egress
              && r.value.frameId == f.frameId && r.value.receiptId == ids.receiptIdOf(r.value.(receiptId := ""))
  {
    ChainValidIff(ids, f, []);
  }

  // ---------------------------------------------------------------- offline packages

  predicate ValidPackage(ids: Ids, p: Package) {
    && p.schema == PACKAGE_SCHEMA && p.authority == "none" && Wire.IsSha256Ref(p.packageId)
    && ValidChain(ids, p.frame, p.chain)
    && ids.packageIdOf(BarePackage(p)) == p.packageId
  }

  function BuildOfflinePackage(ids: Ids, f: Frame, chain: seq<Receipt>): Option<Package> {
    if !ValidChain(ids, f, chain) then None
    else
      var bare := Package(PACKAGE_SCHEMA, "", f, chain, "none");
      var p := bare.(packageId := ids.packageIdOf(bare));
      if ids.packageBytes(p) > FRAME_MAX_BYTES then None else Some(p)
  }

  /** What is built validates and carries the frame and chain it was given; and a package id commits to both, unless
      two different packages share it. */
  lemma PackageRoundTrip(ids: Ids, f: Frame, chain: seq<Receipt>, q: Package)
    requires BuildOfflinePackage(ids, f, chain).Some?
    requires Wire.IsSha256Ref(BuildOfflinePackage(ids, f, chain).value.packageId)
    ensures var p := BuildOfflinePackage(ids, f, chain).value;
            && ValidPackage(ids, p) && p.frame == f && p.chain == chain
            && (ValidPackage(ids, q) && q.packageId == p.packageId ==>
                  || p == q
                  || (&& BarePackage(p) != BarePackage(q)
                      && ids.packageIdOf(BarePackage(p)) == ids.packageIdOf(BarePackage(q))))
  {
  }

  /** A package validates exactly if its chain is valid for its frame and its id is bound to both. */
  lemma PackageValidIff(ids: Ids, p: Package, f: Frame, chain: seq<Receipt>)
    ensures ValidPackage(ids, p) <==>
            && p.schema == "qsol-fed-offline-package/1" && p.authority == "none"
            && Wire.IsSha256Ref(p.packageId) && p.packageId == ids.packageIdOf(p.(packageId := ""))
            && ValidChain(ids, p.frame, p.chain)
    ensures BuildOfflinePackage(ids, f, chain).Some? <==>
            && ValidChain(ids, f, chain)
            && var bare := Package("qsol-fed-offline-package/1", "", f, chain, "none");
               ids.packageBytes(bare.(packageId := ids.packageIdOf(bare))) <= 65_536
  {
  }

  // ---------------------------------------------------------------- the bounded queue

  function FrameIds(queue: seq<Frame>): set<string> {
    set f | f in queue :: f.frameId
  }

  predicate Enqueues(ids: Ids, limit: nat, queue: seq<Frame>, f: Frame) {
    ValidFrame(ids, f) && |queue| < limit && f.frameId !in FrameIds(queue)
  }

  ghost predicate DistinctFrames(queue: seq<Frame>) {
    forall i, j | 0 <= i < j < |queue| :: queue[i].frameId != queue[j].frameId
  }

  class BoundedTransportQueue {
    var queue: seq<Frame>
    var queuedIds: set<string>
    const limit: nat

    ghost predicate Valid()
      reads this
    {
      queuedIds == FrameIds(queue) && DistinctFrames(queue) && |queue| <= limit <= QUEUE_MAX_DEPTH
    }

    constructor WithLimit(limit: nat)
      ensures Valid() && queue == []
      ensures this.limit == if limit <= QUEUE_MAX_DEPTH then limit else QUEUE_MAX_DEPTH
    {
      queue, queuedIds := [], {};
      this.limit := if limit <= QUEUE_MAX_DEPTH then limit else QUEUE_MAX_DEPTH;
    }

    method Enqueue(ids: Ids, f: Frame) returns (accepted: bool)
      requires Valid()
      modifies this
      ensures Valid()
      ensures accepted == Enqueues(ids, limit, old(queue), f)
      ensures queue == if accepted then old(queue) + [f] else old(queue)
    {
      if !ValidFrame(ids, f) || |queue| >= limit || f.frameId in queuedIds {
        return false;
      }
      AppendedFrame(queue, f);
      queuedIds := queuedIds + {f.frameId};
      queue := queue + [f];
      accepted := true;
    }

    method Dequeue() returns (f: Option<Frame>)
      requires Valid()
      modifies this
      ensures Valid()
      ensures if old(queue) == [] then f == None && queue == []
              else f == Some(old(queue)[0]) && queue == old(queue)[1..]
    {
      if queue == [] {
        return None;
      }
      FirstFrame(queue);
      f := Some(queue[0]);
      queuedIds := queuedIds - {queue[0].frameId};
      queue := queue[1..];
    }
  }

  lemma AppendedFrame(queue: seq<Frame>, f: Frame)
    requires DistinctFrames(queue) && f.frameId !in FrameIds(queue)
    ensures DistinctFrames(queue + [f]) && FrameIds(queue + [f]) == FrameIds(queue) + {f.frameId}
  {
  }

  lemma FirstFrame(queue: seq<Frame>)
    requires DistinctFrames(queue) && queue != []
    ensures DistinctFrames(queue[1..]) && FrameIds(queue[1..]) == FrameIds(queue) - {queue[0].frameId}
  {
  }

  datatype QueueOp = Put(frame: Frame) | Take

  /** The frames a run of operations accepts, the frames it hands out, and the queue it leaves. */
  function Serve(ids: Ids, limit: nat, queue: seq<Frame>, ops: seq<QueueOp>): (seq<Frame>, seq<Frame>, seq<Frame>)
    decreases |ops|
  {
    if ops == [] then ([], [], queue)
    else match ops[0]
      case Put(f) =>
        if Enqueues(ids, limit, queue, f) then
          var (accepted, out, left) := Serve(ids, limit, queue + [f], ops[1..]);
          ([f] + accepted, out, left)
        else Serve(ids, limit, queue, ops[1..])
      case Take =>
        if queue == [] then Serve(ids, limit, queue, ops[1..])
        else
          var (accepted, out, left) := Serve(ids, limit, queue[1..], ops[1..]);
          (accepted, [queue[0]] + out, left)
  }

  /** Over any run the frames handed out, followed by those still queued, are the frames that were queued followed by
      those accepted, in the same order; and the queue stays bounded and free of duplicates. */
  lemma {:induction false} QueueConserves(ids: Ids, limit: nat, queue: seq<Frame>, ops: seq<QueueOp>)
    requires DistinctFrames(queue) && |queue| <= limit
    ensures var (accepted, out, left) := Serve(ids, limit, queue, ops);
            out + left == queue + accepted && DistinctFrames(left) && |left| <= limit
    decreases |ops|
  {
    if ops != [] {
      match ops[0] {
        case Put(f) =>
          if Enqueues(ids, limit, queue, f) {
            AppendedFrame(queue, f);
            QueueConserves(ids, limit, queue + [f], ops[1..]);
            var (accepted, out, left) := Serve(ids, limit, queue + [f], ops[1..]);
            assert queue + [f] + accepted == queue + ([f] + accepted);
          } else {
            QueueConserves(ids, limit, queue, ops[1..]);
          }
        case Take =>
          if queue == [] {
            QueueConserves(ids, limit, queue, ops[1..]);
          } else {
            FirstFrame(queue);
            QueueConserves(ids, limit, queue[1..], ops[1..]);
            var (accepted, out, left) := Serve(ids, limit, queue[1..], ops[1..]);
            assert [queue[0]] + out + left == [queue[0]] + (out + left);
            assert [queue[0]] + (queue[1..] + accepted) == queue + accepted;
          }
      }
    } else {
      assert [] + queue == queue + [];
    }
  }

  /** Whatever a run accepts, and so whatever it hands out from an empty queue, is a bound frame. */
  lemma {:induction false} QueueServesBoundFrames(ids: Ids, limit: nat, queue: seq<Frame>, ops: seq<QueueOp>)
    ensures forall f | f in Serve(ids, limit, queue, ops).0 :: BoundFrame(ids, f)
    decreases |ops|
  {
    if ops != [] {
      match ops[0] {
        case Put(f) =>
          AcceptsIff(ids, limit, queue, f);
          QueueServesBoundFrames(ids, limit, if Enqueues(ids, limit, queue, f) then queue + [f] else queue, ops[1..]);
        case Take =>
          QueueServesBoundFrames(ids, limit, if queue == [] then queue else queue[1..], ops[1..]);
      }
    }
  }

  lemma AcceptsIff(ids: Ids, limit: nat, queue: seq<Frame>, f: Frame)
    ensures Enqueues(ids, limit, queue, f) <==>
            BoundFrame(ids, f) && |queue| < limit && forall q | q in queue :: q.frameId != f.frameId
  {
    ChainValidIff(ids, f, []);
  }
}
