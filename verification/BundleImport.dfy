/** Importing a bundle into a store and a peer registry, and the round trip with export (src/bundle.rs). */
module BundleImport {
  import opened Wrappers
  import opened Bundle
  import S = ObjectStore
  import P = Peering
  import K = KeyLifecycle
  import Wire
  import Hex

  datatype Target = Target(tree: S.Tree, reg: P.Registry)

  /** Brings in one peer: quarantined and with its archived advertisement if it is new here. */
  function TakeIn(x: Ctx, reg: P.Registry, q: Peer, at: K.Stamp): (P.Registry, bool) {
    var n := q.document.nodeId;
    var found := P.Get(x.env, reg, n);
    if found.Err? then (reg, false)
    else
      var (known, r) := P.ImportResult(x.env, reg, q.document, q.records, at);
      if r.Err? then (known, false)
      else if found.value.None? && q.advertisement.Some? then
        var (after, a) := P.AttachResult(x.env, known, n, q.advertisement.value, at);
        (after, a.Ok?)
      else (known, true)
  }

  function ImportPeer(x: Ctx, reg: P.Registry, p: BundlePeer, at: K.Stamp): (P.Registry, bool) {
    var q := ReadPeer(x, p);
    if q.None? then (reg, false) else TakeIn(x, reg, q.value, at)
  }

  /** The steps in turn; the first failure stops. */
  function Fold<State, E>(step: (State, E) -> (State, bool), s: State, xs: seq<E>): (State, bool)
    decreases |xs|
  {
    if xs == [] then (s, true)
    else
      var (after, ok) := step(s, xs[0]);
      if !ok then (after, false) else Fold(step, after, xs[1..])
  }

  function ImportPeers(x: Ctx, reg: P.Registry, ps: seq<BundlePeer>, at: K.Stamp): (P.Registry, bool) {
    Fold((r: P.Registry, p: BundlePeer) => ImportPeer(x, r, p, at), reg, ps)
  }

  function ImportObject(x: Ctx, tree: S.Tree, o: BundleObject, at: K.Stamp): (S.Tree, bool) {
    var item := ReadItem(x, o);
    if item.None? then (tree, false)
    else
      var (bytes, provenance) := (item.value.bytes, item.value.provenance);
      var (after, r) := S.PutResult(x.content, tree, o.sourceNode, bytes, provenance, S.Quarantine, at);
      (after, r.Ok?)
  }

  function ImportObjects(x: Ctx, tree: S.Tree, os: seq<BundleObject>, at: K.Stamp): (S.Tree, bool) {
    Fold((t: S.Tree, o: BundleObject) => ImportObject(x, t, o, at), tree, os)
  }

  /** `import_bundle` on a target, and whether it succeeds. */
  function Import(x: Ctx, t: Target, raw: Bytes, at: K.Stamp): (Target, bool) {
    var b := Verify(x, raw);
    if at.Malformed? || b.None? then (t, false)
    else
      var (reg, peersOk) := ImportPeers(x, t.reg, b.value.peers, at);
      if !peersOk then (t.(reg := reg), false)
      else
        var (tree, objectsOk) := ImportObjects(x, t.tree, b.value.objects, at);
        (Target(tree, reg), objectsOk)
  }

  method ImportBundle(x: Ctx, store: S.FederationObjectStore, registry: P.PeerRegistry, raw: Bytes, at: K.Stamp)
    returns (receipt: Option<Report>)
    requires registry.env == x.env
    modifies store, registry
    ensures (Target(store.tree, registry.peers), receipt.Some?)
            == Import(x, old(Target(store.tree, registry.peers)), raw, at)
    ensures receipt.Some? ==> receipt == ReportOf(x, raw)
  {
    if at.Malformed? {
      return None;
    }
    var report := VerifyBundle(x, raw);
    if report.None? {
      return None;
    }
    var b := x.codec.bundleOf(raw).value;
    var peersOk := TakePeers(x, registry, b.peers, at);
    if !peersOk {
      return None;
    }
    var objectsOk := TakeObjects(x, store, b.objects, at);
    receipt := if objectsOk then report else None;
  }

  method TakePeer(x: Ctx, registry: P.PeerRegistry, p: BundlePeer, at: K.Stamp) returns (ok: bool)
    requires registry.env == x.env
    modifies registry
    ensures (registry.peers, ok) == ImportPeer(x, old(registry.peers), p, at)
  {
    var q := ReadPeer(x, p);
    if q.None? {
      return false;
    }
    var n := q.value.document.nodeId;
    var found := P.Get(x.env, registry.peers, n);
    if found.Err? {
      return false;
    }
    var r := registry.ImportPeer(q.value.document, q.value.records, at);
    if r.Err? {
      return false;
    }
    if found.value.None? && q.value.advertisement.Some? {
      r := registry.AttachArchivalAdvertisement(n, q.value.advertisement.value, at);
    }
    ok := r.Ok?;
  }

  method TakePeers(x: Ctx, registry: P.PeerRegistry, ps: seq<BundlePeer>, at: K.Stamp) returns (ok: bool)
    requires registry.env == x.env
    modifies registry
    ensures (registry.peers, ok) == ImportPeers(x, old(registry.peers), ps, at)
  {
    assert ps[0..] == ps;
    for i := 0 to |ps|
      invariant ImportPeers(x, old(registry.peers), ps, at) == ImportPeers(x, registry.peers, ps[i..], at)
    {
      assert ps[i..][1..] == ps[i + 1..];
      ok := TakePeer(x, registry, ps[i], at);
      if !ok {
        return;
      }
    }
    ok := true;
  }

  method TakeObjects(x: Ctx, store: S.FederationObjectStore, os: seq<BundleObject>, at: K.Stamp) returns (ok: bool)
    modifies store
    ensures (store.tree, ok) == ImportObjects(x, old(store.tree), os, at)
  {
    assert os[0..] == os;
    for i := 0 to |os|
      invariant ImportObjects(x, old(store.tree), os, at) == ImportObjects(x, store.tree, os[i..], at)
    {
      assert os[i..][1..] == os[i + 1..];
      var item := ReadItem(x, os[i]);
      if item.None? {
        return false;
      }
      var r := store.PutForeign(x.content, os[i].sourceNode, item.value.bytes, item.value.provenance, S.Quarantine, at);
      if r.Err? {
        return false;
      }
    }
    ok := true;
  }

  // ---------------------------------------------------------------- peers

  /** The registry holds this identity with a history of this length and fingerprint. */
  predicate Holds(env: P.Env, reg: P.Registry, q: Peer) {
    var n := q.document.nodeId;
    && n in reg && reg[n].identity == q.document && reg[n].lifecycleSequence == |q.records|
    && reg[n].fingerprint == env.fingerprintOf(q.document, q.records) && env.encodes(q.document, q.records)
    && reg[n].state != P.Revoked
  }

  /** What the import of p did to its peer: a new one is here as exported but quarantined; a known one keeps its state,
      its partition and its advertisement. */
  ghost predicate Arrived(q: Peer, before: P.Registry, after: P.Registry) {
    var n := q.document.nodeId;
    && n in after
    && (n !in before ==>
          && after[n].identity == q.document && after[n].lifecycle == q.records
          && after[n].advertisement == q.advertisement && after[n].state == P.Quarantined)
    && (n in before ==>
          && after[n].identity == before[n].identity
          && (after[n].lifecycle == before[n].lifecycle || after[n].lifecycle == q.records)
          && after[n].state == before[n].state && after[n].preDisconnect == before[n].preDisconnect
          && after[n].snapshot == before[n].snapshot && after[n].advertisement == before[n].advertisement)
  }

  lemma IntroducedHolds(x: Ctx, reg: P.Registry, q: Peer, at: K.Stamp)
    requires P.Sound(x.env, reg)
    requires P.IntroduceResult(x.env, reg, q.document, q.records, None, at).1.Ok?
    ensures var after := P.IntroduceResult(x.env, reg, q.document, q.records, None, at).0;
            && Holds(x.env, after, q) && after == reg[q.document.nodeId := after[q.document.nodeId]]
            && (q.document.nodeId in reg ==> Arrived(q, reg, after))
            && (q.document.nodeId !in reg ==>
                  after[q.document.nodeId] == P.NewPeer(x.env, q.document, q.records, |q.records|, None, at))
  {
    assert P.Stored(x.env, reg, q.document.nodeId);
    K.AtMostTwoActiveKeys(x.env.crypto, q.document, q.records);
  }

  lemma NewPeerImported(x: Ctx, reg: P.Registry, q: Peer, at: K.Stamp)
    requires P.Sound(x.env, reg) && q.document.nodeId !in reg
    requires P.ImportResult(x.env, reg, q.document, q.records, at).1.Ok?
    ensures var after := P.ImportResult(x.env, reg, q.document, q.records, at).0;
            && Holds(x.env, after, q) && P.Sound(x.env, after)
            && after == reg[q.document.nodeId := after[q.document.nodeId]]
            && after[q.document.nodeId]
               == P.Transitioned(P.NewPeer(x.env, q.document, q.records, |q.records|, None, at), P.Quarantined, at)
  {
    var n := q.document.nodeId;
    IntroducedHolds(x, reg, q, at);
    P.ImportSteps(x.env, P.ImportQuarantined(q.document, q.records, at), reg, q.document, q.records, at);
    var known := P.IntroduceResult(x.env, reg, q.document, q.records, None, at).0;
    var after := P.ImportResult(x.env, reg, q.document, q.records, at).0;
    assert after == P.TransitionResult(x.env, known, n, P.Quarantined, at).0;
    assert after == known[n := after[n]];
  }

  ghost predicate PeerThere(x: Ctx, before: P.Registry, p: BundlePeer, after: P.Registry) {
    var q := ReadPeer(x, p);
    q.Some? && q.value.document.nodeId == p.nodeId && Holds(x.env, after, q.value) && Arrived(q.value, before, after)
  }

  ghost predicate SameAt(a: P.Registry, b: P.Registry, n: string) {
    (n in a <==> n in b) && (n in a ==> a[n] == b[n])
  }

  lemma PeerThereLocal(x: Ctx, before: P.Registry, p: BundlePeer, after: P.Registry,
                       before': P.Registry, after': P.Registry)
    requires PeerThere(x, before, p, after) && SameAt(before, before', p.nodeId) && SameAt(after, after', p.nodeId)
    ensures PeerThere(x, before', p, after')
  {
  }

  /** One import step touches only its own peer. */
  ghost predicate PeerStep(x: Ctx, before: P.Registry, p: BundlePeer, after: P.Registry) {
    && P.Sound(x.env, after) && PeerThere(x, before, p, after)
    && p.nodeId in after && after == before[p.nodeId := after[p.nodeId]]
  }

  lemma TakenIn(x: Ctx, reg: P.Registry, q: Peer, at: K.Stamp)
    requires P.Sound(x.env, reg) && TakeIn(x, reg, q, at).1
    ensures var after := TakeIn(x, reg, q, at).0;
            var n := q.document.nodeId;
            && P.Sound(x.env, after) && Holds(x.env, after, q) && Arrived(q, reg, after) && after == reg[n := after[n]]
  {
    var n := q.document.nodeId;
    assert P.Stored(x.env, reg, n);
    if n in reg {
      P.ImportSteps(x.env, P.ImportQuarantined(q.document, q.records, at), reg, q.document, q.records, at);
      IntroducedHolds(x, reg, q, at);
    } else {
      NewPeerImported(x, reg, q, at);
      if q.advertisement.Some? {
        var known := P.ImportResult(x.env, reg, q.document, q.records, at).0;
        AdvertisementAttached(x, known, n, q.advertisement.value, at);
      }
    }
  }

  lemma PeerImported(x: Ctx, reg: P.Registry, p: BundlePeer, at: K.Stamp)
    requires P.Sound(x.env, reg) && PeerOk(x, p) && ImportPeer(x, reg, p, at).1
    ensures PeerStep(x, reg, p, ImportPeer(x, reg, p, at).0)
  {
    TakenIn(x, reg, ReadPeer(x, p).value, at);
  }

  lemma AdvertisementAttached(x: Ctx, reg: P.Registry, n: string, a: P.Advertisement, at: K.Stamp)
    requires P.Sound(x.env, reg) && n in reg && reg[n].advertisement == None
    requires P.AttachResult(x.env, reg, n, a, at).1.Ok?
    ensures var after := P.AttachResult(x.env, reg, n, a, at).0;
            P.Sound(x.env, after) && after == reg[n := P.Touched(reg[n].(advertisement := Some(a)), at)]
  {
    assert P.Stored(x.env, reg, n);
    P.AdvertisementSteps(x.env, P.AttachArchival(n, a, at), reg, n, a, at);
  }

  /** All the peers arrived, and no other peer was touched. */
  ghost predicate AllArrived(x: Ctx, before: P.Registry, ps: seq<BundlePeer>, after: P.Registry) {
    && P.Sound(x.env, after)
    && (forall i | 0 <= i < |ps| :: PeerThere(x, before, ps[i], after))
    && (forall n | forall i | 0 <= i < |ps| :: ps[i].nodeId != n :: SameAt(before, after, n))
  }

  lemma {:induction false} PeersFolded(x: Ctx, ok: BundlePeer -> bool,
                                       step: (P.Registry, BundlePeer) -> (P.Registry, bool),
                                       reg: P.Registry, ps: seq<BundlePeer>)
    requires P.Sound(x.env, reg) && DistinctPeers(ps) && forall i | 0 <= i < |ps| :: ok(ps[i])
    requires forall r, p | P.Sound(x.env, r) && ok(p) && step(r, p).1 :: PeerStep(x, r, p, step(r, p).0)
    requires Fold(step, reg, ps).1
    ensures AllArrived(x, reg, ps, Fold(step, reg, ps).0)
    decreases |ps|
  {
    if ps != [] {
      var next := step(reg, ps[0]).0;
      var rest := ps[1..];
      PeersFolded(x, ok, step, next, rest);
      var after := Fold(step, next, rest).0;
      forall i | 0 <= i < |ps|
        ensures PeerThere(x, reg, ps[i], after)
      {
        if i == 0 {
          assert SameAt(next, after, ps[0].nodeId);
          PeerThereLocal(x, reg, ps[0], next, reg, after);
        } else {
          assert ps[i] == rest[i - 1];
          PeerThereLocal(x, next, ps[i], after, reg, after);
        }
      }
      forall n | forall i | 0 <= i < |ps| :: ps[i].nodeId != n
        ensures SameAt(reg, after, n)
      {
        assert ps[0].nodeId != n;
        assert SameAt(next, after, n);
      }
    }
  }

  lemma PeersImported(x: Ctx, reg: P.Registry, ps: seq<BundlePeer>, at: K.Stamp)
    requires P.Sound(x.env, reg) && PeersOk(x, ps) && ImportPeers(x, reg, ps, at).1
    ensures AllArrived(x, reg, ps, ImportPeers(x, reg, ps, at).0)
  {
    var step := (r: P.Registry, p: BundlePeer) => ImportPeer(x, r, p, at);
    forall r, p | P.Sound(x.env, r) && PeerOk(x, p) && step(r, p).1
      ensures PeerStep(x, r, p, step(r, p).0)
    {
      PeerImported(x, r, p, at);
    }
    PeersFolded(x, p => PeerOk(x, p), step, reg, ps);
  }

  /** A peer that is held already is left as it is. */
  lemma HeldPeerUntouched(x: Ctx, reg: P.Registry, p: BundlePeer, at: K.Stamp)
    requires P.Sound(x.env, reg) && PeerOk(x, p) && Holds(x.env, reg, ReadPeer(x, p).value) && at.At?
    ensures ImportPeer(x, reg, p, at) == (reg, true)
  {
    var q := ReadPeer(x, p).value;
    assert P.Stored(x.env, reg, p.nodeId);
    K.AtMostTwoActiveKeys(x.env.crypto, q.document, q.records);
  }

  lemma {:induction false} FoldStays<State, E>(step: (State, E) -> (State, bool), s: State, xs: seq<E>)
    requires forall i | 0 <= i < |xs| :: step(s, xs[i]) == (s, true)
    ensures Fold(step, s, xs) == (s, true)
    decreases |xs|
  {
    if xs != [] {
      FoldStays(step, s, xs[1..]);
    }
  }

  lemma HeldPeersUntouched(x: Ctx, reg: P.Registry, ps: seq<BundlePeer>, at: K.Stamp)
    requires P.Sound(x.env, reg) && PeersOk(x, ps) && at.At?
    requires forall i | 0 <= i < |ps| :: Holds(x.env, reg, ReadPeer(x, ps[i]).value)
    ensures ImportPeers(x, reg, ps, at) == (reg, true)
  {
    var step := (r: P.Registry, p: BundlePeer) => ImportPeer(x, r, p, at);
    forall i | 0 <= i < |ps|
      ensures step(reg, ps[i]) == (reg, true)
    {
      HeldPeerUntouched(x, reg, ps[i], at);
    }
    FoldStays(step, reg, ps);
  }

  // ---------------------------------------------------------------- objects

  /** The tree holds the object's bytes, its provenance and its attribution. */
  predicate ObjectThere(x: Ctx, o: BundleObject, tree: S.Tree) {
    var item := ReadItem(x, o);
    && item.Some? && (o.provenanceId.Some? <==> item.value.provenance.Some?)
    && o.objectId in tree.objects && tree.objects[o.objectId] == item.value.bytes
    && (o.provenanceId.Some? ==>
          && o.provenanceId.value in tree.provenance
          && tree.provenance[o.provenanceId.value] == item.value.provenance.value)
    && KeyOf(o) in S.Attributions(tree)
  }

  /** Nothing stored before has gone, changed or moved. */
  ghost predicate Grown(before: S.Tree, after: S.Tree) {
    && after.markers == before.markers && after.foreign == before.foreign
    && before.objects.Items <= after.objects.Items && before.provenance.Items <= after.provenance.Items
    && before.quarantine.Items <= after.quarantine.Items
  }

  lemma ItemsKept<A, B>(m: map<A, B>, n: map<A, B>, a: A)
    requires m.Items <= n.Items && a in m
    ensures a in n && n[a] == m[a]
  {
    assert (a, m[a]) in m.Items;
  }

  lemma ObjectStaysThere(x: Ctx, o: BundleObject, before: S.Tree, after: S.Tree)
    requires ObjectThere(x, o, before) && Grown(before, after)
    ensures ObjectThere(x, o, after)
  {
    ItemsKept(before.objects, after.objects, o.objectId);
    if o.provenanceId.Some? {
      ItemsKept(before.provenance, after.provenance, o.provenanceId.value);
    }
    if KeyOf(o) in before.quarantine {
      ItemsKept(before.quarantine, after.quarantine, KeyOf(o));
    }
  }

  /** One import step adds at most the one attribution, in quarantine, and content under the ids of its object. */
  ghost predicate ObjectStep(x: Ctx, before: S.Tree, o: BundleObject, at: int, after: S.Tree) {
    && S.Consistent(after) && Grown(before, after) && ObjectThere(x, o, after)
    && after.objects.Keys == before.objects.Keys + {o.objectId}
    && after.provenance.Keys == before.provenance.Keys + (if o.provenanceId.Some? then {o.provenanceId.value} else {})
    && after.quarantine == if KeyOf(o) in S.Attributions(before) then before.quarantine
                           else before.quarantine[KeyOf(o) := S.ForeignRecord(KeyOf(o), S.Quarantine, at)]
  }

  lemma ContentStored(c: S.Content, t: S.Tree, sourceNode: string, bytes: Bytes, provenance: Option<Bytes>)
    requires S.StoreContent(c, t, sourceNode, bytes, provenance).1.None?
    ensures var u := S.StoreContent(c, t, sourceNode, bytes, provenance).0;
            && u.objects == t.objects[c.refOf(bytes) := bytes]
            && t.objects.Items <= u.objects.Items && t.provenance.Items <= u.provenance.Items
            && u.provenance == if provenance.Some? then t.provenance[c.refOf(provenance.value) := provenance.value]
                               else t.provenance
  {
  }

  lemma ItemStored(x: Ctx, tree: S.Tree, o: BundleObject, item: Item, at: K.Stamp)
    requires at.At? && S.KeyOf(x.content, o.sourceNode, item.bytes, item.provenance) == KeyOf(o)
    requires S.PutResult(x.content, tree, o.sourceNode, item.bytes, item.provenance, S.Quarantine, at).1.Ok?
    ensures var after := S.PutResult(x.content, tree, o.sourceNode, item.bytes, item.provenance, S.Quarantine, at).0;
            && after.markers == tree.markers && after.foreign == tree.foreign
            && after.objects == tree.objects[o.objectId := item.bytes] && tree.objects.Items <= after.objects.Items
            && tree.provenance.Items <= after.provenance.Items
            && (item.provenance.None? ==> after.provenance == tree.provenance)
            && (item.provenance.Some? ==>
                  after.provenance == tree.provenance[o.provenanceId.value := item.provenance.value])
            && after.quarantine == if KeyOf(o) in S.Attributions(tree) then tree.quarantine
                                   else tree.quarantine[KeyOf(o) := S.ForeignRecord(KeyOf(o), S.Quarantine, at.unix)]
  {
    var c := x.content;
    ContentStored(c, tree, o.sourceNode, item.bytes, item.provenance);
    S.PutForeignShape(c, tree, o.sourceNode, item.bytes, item.provenance, S.Quarantine, at);
  }

  lemma ObjectImported(x: Ctx, tree: S.Tree, o: BundleObject, at: K.Stamp)
    requires S.Consistent(tree) && ObjectOk(x, o) && at.At? && ImportObject(x, tree, o, at).1
    ensures ObjectStep(x, tree, o, at.unix, ImportObject(x, tree, o, at).0)
  {
    var item := ReadItem(x, o).value;
    assert S.KeyOf(x.content, o.sourceNode, item.bytes, item.provenance) == KeyOf(o);
    ItemStored(x, tree, o, item, at);
    S.PutForeignKeeps(x.content, tree, o.sourceNode, item.bytes, item.provenance, S.Quarantine, at);
  }

  ghost predicate NewRecords(before: S.Tree, os: seq<BundleObject>, at: int, after: S.Tree) {
    forall k | k in after.quarantine && k !in before.quarantine ::
      (exists o :: o in os && KeyOf(o) == k) && after.quarantine[k] == S.ForeignRecord(k, S.Quarantine, at)
  }

  ghost predicate NewContent(before: S.Tree, os: seq<BundleObject>, after: S.Tree) {
    && (forall r | r in after.objects && r !in before.objects :: exists o :: o in os && o.objectId == r)
    && (forall r | r in after.provenance && r !in before.provenance :: exists o :: o in os && o.provenanceId == Some(r))
  }

  /** All the objects are stored, each new attribution in quarantine, and nothing else has come or gone. */
  ghost predicate AllStored(x: Ctx, before: S.Tree, os: seq<BundleObject>, at: int, after: S.Tree) {
    && S.Consistent(after) && Grown(before, after)
    && (forall o | o in os :: ObjectThere(x, o, after))
    && NewRecords(before, os, at, after) && NewContent(before, os, after)
  }

  lemma GrownTransitive(a: S.Tree, b: S.Tree, c: S.Tree)
    requires Grown(a, b) && Grown(b, c)
    ensures Grown(a, c)
  {
  }

  lemma RecordsOneMore(x: Ctx, before: S.Tree, o: BundleObject, next: S.Tree, rest: seq<BundleObject>, at: int,
                       after: S.Tree)
    requires ObjectStep(x, before, o, at, next) && NewRecords(next, rest, at, after) && Grown(next, after)
    ensures NewRecords(before, [o] + rest, at, after)
  {
    var os := [o] + rest;
    forall k | k in after.quarantine && k !in before.quarantine
      ensures (exists e :: e in os && KeyOf(e) == k) && after.quarantine[k] == S.ForeignRecord(k, S.Quarantine, at)
    {
      if k in next.quarantine {
        ItemsKept(next.quarantine, after.quarantine, k);
        assert o in os;
      } else {
        var e :| e in rest && KeyOf(e) == k;
        assert e in os;
      }
    }
  }

  lemma ContentOneMore(before: S.Tree, o: BundleObject, next: S.Tree, rest: seq<BundleObject>, after: S.Tree)
    requires next.objects.Keys == before.objects.Keys + {o.objectId}
    requires next.provenance.Keys
             == before.provenance.Keys + (if o.provenanceId.Some? then {o.provenanceId.value} else {})
    requires NewContent(next, rest, after)
    ensures NewContent(before, [o] + rest, after)
  {
  }

  lemma StoredOneMore(x: Ctx, before: S.Tree, o: BundleObject, next: S.Tree, rest: seq<BundleObject>, at: int,
                      after: S.Tree)
    requires ObjectStep(x, before, o, at, next) && AllStored(x, next, rest, at, after)
    ensures AllStored(x, before, [o] + rest, at, after)
  {
    RecordsOneMore(x, before, o, next, rest, at, after);
    ContentOneMore(before, o, next, rest, after);
    GrownTransitive(before, next, after);
    ObjectStaysThere(x, o, next, after);
  }

  lemma StoredNone(x: Ctx, tree: S.Tree, at: int)
    requires S.Consistent(tree)
    ensures AllStored(x, tree, [], at, tree)
  {
  }

  lemma {:induction false} ObjectsFolded(x: Ctx, ok: BundleObject -> bool,
                                         step: (S.Tree, BundleObject) -> (S.Tree, bool),
                                         tree: S.Tree, os: seq<BundleObject>, at: int)
    requires S.Consistent(tree) && forall o | o in os :: ok(o)
    requires forall t, o | S.Consistent(t) && ok(o) && step(t, o).1 :: ObjectStep(x, t, o, at, step(t, o).0)
    requires Fold(step, tree, os).1
    ensures AllStored(x, tree, os, at, Fold(step, tree, os).0)
    decreases |os|
  {
    if os == [] {
      StoredNone(x, tree, at);
    } else {
      var (o, rest) := (os[0], os[1..]);
      assert os == [o] + rest;
      var next := step(tree, o).0;
      assert ObjectStep(x, tree, o, at, next);
      StepConsistent(x, tree, o, at, next);
      ObjectsFolded(x, ok, step, next, rest, at);
      var after := Fold(step, next, rest).0;
      StoredOneMore(x, tree, o, next, rest, at, after);
      assert Fold(step, tree, os).0 == after;
    }
  }

  lemma StepConsistent(x: Ctx, before: S.Tree, o: BundleObject, at: int, after: S.Tree)
    requires ObjectStep(x, before, o, at, after)
    ensures S.Consistent(after)
  {
  }

  lemma ObjectsImported(x: Ctx, tree: S.Tree, os: seq<BundleObject>, at: K.Stamp)
    requires S.Consistent(tree) && ObjectsOk(x, os) && at.At? && ImportObjects(x, tree, os, at).1
    ensures AllStored(x, tree, os, at.unix, ImportObjects(x, tree, os, at).0)
  {
    var step := (t: S.Tree, o: BundleObject) => ImportObject(x, t, o, at);
    forall t, o | S.Consistent(t) && ObjectOk(x, o) && step(t, o).1
      ensures ObjectStep(x, t, o, at.unix, step(t, o).0)
    {
      ObjectImported(x, t, o, at);
    }
    ObjectsFolded(x, o => ObjectOk(x, o), step, tree, os, at.unix);
  }

  /** An object that is there already is left as it is. */
  lemma StoredObjectUntouched(x: Ctx, tree: S.Tree, o: BundleObject, at: K.Stamp)
    requires ObjectOk(x, o) && ObjectThere(x, o, tree) && at.At?
    ensures ImportObject(x, tree, o, at) == (tree, true)
  {
  }

  lemma StoredObjectsUntouched(x: Ctx, tree: S.Tree, os: seq<BundleObject>, at: K.Stamp)
    requires ObjectsOk(x, os) && at.At? && forall o | o in os :: ObjectThere(x, o, tree)
    ensures ImportObjects(x, tree, os, at) == (tree, true)
  {
    var step := (t: S.Tree, o: BundleObject) => ImportObject(x, t, o, at);
    forall i | 0 <= i < |os|
      ensures step(tree, os[i]) == (tree, true)
    {
      StoredObjectUntouched(x, tree, os[i], at);
    }
    FoldStays(step, tree, os);
  }

  // ---------------------------------------------------------------- main results

  /** Importing into any target: nothing that was there is lost, changed or moved, known peers keep their state, and
      everything new is quarantined. */
  lemma ImportOnlyAdds(x: Ctx, t: Target, raw: Bytes, at: K.Stamp)
    requires P.Sound(x.env, t.reg) && S.Consistent(t.tree) && Import(x, t, raw, at).1
    ensures at.At? && Verify(x, raw).Some?
    ensures var b := Verify(x, raw).value;
            var after := Import(x, t, raw, at).0;
            && AllArrived(x, t.reg, b.peers, after.reg)
            && AllStored(x, t.tree, b.objects, at.unix, after.tree)
  {
    var b := Verify(x, raw).value;
    PeersImported(x, t.reg, b.peers, at);
    ObjectsImported(x, t.tree, b.objects, at);
  }

  /** Importing a bundle that has been imported, into whatever target and at whatever later time, changes nothing. */
  lemma ImportTwiceIsImportOnce(x: Ctx, t: Target, raw: Bytes, at: K.Stamp, again: K.Stamp)
    requires P.Sound(x.env, t.reg) && S.Consistent(t.tree) && Import(x, t, raw, at).1 && again.At?
    ensures Import(x, Import(x, t, raw, at).0, raw, again) == (Import(x, t, raw, at).0, true)
  {
    ImportOnlyAdds(x, t, raw, at);
    var b := Verify(x, raw).value;
    var after := Import(x, t, raw, at).0;
    forall i | 0 <= i < |b.peers|
      ensures Holds(x.env, after.reg, ReadPeer(x, b.peers[i]).value)
    {
      assert PeerThere(x, t.reg, b.peers[i], after.reg);
    }
    HeldPeersUntouched(x, after.reg, b.peers, again);
    StoredObjectsUntouched(x, after.tree, b.objects, again);
  }

  // ---------------------------------------------------------------- export, then import

  lemma EmbeddedReads<T(!new)>(x: Ctx, inC: T -> bool, encode: T -> Option<Bytes>, parse: Bytes -> Option<T>, v: T)
    requires Inverse(x.content, inC, encode, parse) && inC(v) && Embed(encode(v)).Some?
    ensures ReadBack(x, parse, Embed(encode(v)).value) == Some(v)
  {
    Hex.EncodedDecodes(encode(v).value);
  }

  lemma {:induction false} EmbeddedRecordsRead(x: Ctx, records: seq<K.Record>)
    requires Lawful(x) && EmbedRecords(x, records).Some? && forall k | k in records :: x.codec.recordInC(k)
    ensures ReadRecords(x, EmbedRecords(x, records).value) == Some(records)
  {
    if records != [] {
      EmbeddedReads(x, x.codec.recordInC, x.codec.recordBytes, x.codec.recordOf, records[0]);
      EmbeddedRecordsRead(x, records[1..]);
      assert records == [records[0]] + records[1..];
      assert EmbedRecords(x, records).value[1..] == EmbedRecords(x, records[1..]).value;
    }
  }

  function PeerOf(r: P.PeerRecord): Peer {
    Peer(r.identity, r.lifecycle, r.advertisement)
  }

  /** A peer entry reads back as the identity, history and advertisement it was made from. */
  lemma PeerEntryReads(x: Ctx, reg: P.Registry, n: string)
    requires Lawful(x) && P.Sound(x.env, reg) && RegistryInC(x, reg) && PeerEntry(x, reg, n).Some?
    ensures n in reg && PeerEntry(x, reg, n).value.nodeId == n && PeerEntry(x, reg, n).value.state == reg[n].state
    ensures ReadPeer(x, PeerEntry(x, reg, n).value) == Some(PeerOf(reg[n]))
  {
    assert P.Stored(x.env, reg, n);
    EmbeddedReads(x, x.codec.identityInC, x.codec.identityBytes, x.codec.identityOf, reg[n].identity);
    EmbeddedRecordsRead(x, reg[n].lifecycle);
    if reg[n].advertisement.Some? {
      var codec := x.codec;
      var a := reg[n].advertisement.value;
      EmbeddedReads(x, codec.advertisementInC, codec.advertisementBytes, codec.advertisementOf, a);
    }
  }

  function ItemOf(tree: S.Tree, k: S.Key): Option<Item> {
    if k.objectId !in tree.objects then None
    else if k.provenanceId.None? then Some(Item(tree.objects[k.objectId], None))
    else if k.provenanceId.value in tree.provenance then
      Some(Item(tree.objects[k.objectId], Some(tree.provenance[k.provenanceId.value])))
    else None
  }

  lemma StoredHexReads(x: Ctx, files: map<string, Bytes>, path: string)
    requires StoredHex(files, path).Some? && ReadBytes(x, StoredHex(files, path).value).Some?
    ensures path in files && ReadBytes(x, StoredHex(files, path).value) == Some(files[path])
  {
    Hex.EncodedDecodes(files[path]);
  }

  /** An object entry that can be read holds the stored bytes. */
  lemma ObjectEntryReads(x: Ctx, tree: S.Tree, q: Placed)
    requires ObjectEntry(tree, q).Some? && ReadItem(x, ObjectEntry(tree, q).value).Some?
    ensures KeyOf(ObjectEntry(tree, q).value) == q.key && ObjectEntry(tree, q).value.namespace == q.namespace
    ensures ReadItem(x, ObjectEntry(tree, q).value) == ItemOf(tree, q.key)
  {
    StoredHexReads(x, tree.objects, q.key.objectId);
    if q.key.provenanceId.Some? {
      StoredHexReads(x, tree.provenance, q.key.provenanceId.value);
    }
  }

  const EMPTY := S.Tree(map[], map[], map[], map[], map[])

  /** The peer in the registry is the exported one, in quarantine. */
  predicate PeerTransported(source: P.Registry, target: P.Registry, n: string) {
    n in source && n in target && PeerOf(target[n]) == PeerOf(source[n]) && target[n].state == P.Quarantined
  }

  /** The attribution lies in quarantine in the target, with the source's object and provenance bytes. */
  predicate ObjectTransported(source: S.Tree, target: S.Tree, k: S.Key, at: int) {
    && k in target.quarantine && target.quarantine[k] == S.ForeignRecord(k, S.Quarantine, at)
    && ItemOf(target, k).Some? && ItemOf(target, k) == ItemOf(source, k)
  }

  lemma PeersTransported(x: Ctx, reg: P.Registry, peerIds: set<string>, ps: seq<BundlePeer>, after: P.Registry)
    requires Lawful(x) && P.Sound(x.env, reg) && RegistryInC(x, reg)
    requires ListsPeers(x, reg, peerIds, ps) && PeersFound(x, reg, peerIds)
    requires AllArrived(x, map[], ps, after)
    ensures after.Keys == peerIds && forall n | n in peerIds :: PeerTransported(reg, after, n)
  {
    forall n | n in peerIds
      ensures PeerTransported(reg, after, n)
    {
      var e := PeerEntry(x, reg, n).value;
      assert e in ps;
      var i :| 0 <= i < |ps| && ps[i] == e;
      PeerEntryReads(x, reg, n);
      assert PeerThere(x, map[], ps[i], after);
    }
    forall n | n in after
      ensures n in peerIds
    {
      assert (forall i | 0 <= i < |ps| :: ps[i].nodeId != n) ==> SameAt(map[], after, n);
      var i :| 0 <= i < |ps| && ps[i].nodeId == n;
      assert ps[i] in ps;
      var m :| m in peerIds && PeerEntry(x, reg, m) == Some(ps[i]);
      PeerEntryReads(x, reg, m);
    }
  }

  lemma EntrySource(x: Ctx, tree: S.Tree, objectIds: set<string>, os: seq<BundleObject>, o: BundleObject)
    returns (q: Placed)
    requires ListsObjects(tree, objectIds, os) && o in os && ReadItem(x, o).Some?
    ensures q in PlacedOf(tree, objectIds) && KeyOf(o) == q.key && ReadItem(x, o) == ItemOf(tree, q.key)
  {
    q :| q in PlacedOf(tree, objectIds) && ObjectEntry(tree, q) == Some(o);
    ObjectEntryReads(x, tree, q);
  }

  lemma ObjectTransport(x: Ctx, tree: S.Tree, objectIds: set<string>, os: seq<BundleObject>, at: int, after: S.Tree,
                        q: Placed)
    requires ListsObjects(tree, objectIds, os) && ObjectsFound(tree, objectIds) && AllStored(x, EMPTY, os, at, after)
    requires q in PlacedOf(tree, objectIds)
    ensures ObjectTransported(tree, after, q.key, at)
  {
    var e := ObjectEntry(tree, q).value;
    assert e in os && ObjectThere(x, e, after);
    ObjectEntryReads(x, tree, q);
    assert q.key in after.quarantine;
  }

  lemma RecordSource(x: Ctx, tree: S.Tree, objectIds: set<string>, os: seq<BundleObject>, at: int, after: S.Tree,
                     k: S.Key)
    returns (q: Placed)
    requires ListsObjects(tree, objectIds, os) && AllStored(x, EMPTY, os, at, after) && k in after.quarantine
    ensures q in PlacedOf(tree, objectIds) && q.key == k
  {
    var o :| o in os && KeyOf(o) == k;
    assert ObjectThere(x, o, after);
    q := EntrySource(x, tree, objectIds, os, o);
  }

  lemma ObjectSelected(x: Ctx, tree: S.Tree, objectIds: set<string>, os: seq<BundleObject>, o: BundleObject)
    requires ListsObjects(tree, objectIds, os) && o in os
    ensures o.objectId in objectIds
  {
  }

  lemma ProvenanceSelected(tree: S.Tree, objectIds: set<string>, os: seq<BundleObject>, o: BundleObject)
    returns (q: Placed)
    requires ListsObjects(tree, objectIds, os) && o in os
    ensures q in PlacedOf(tree, objectIds) && q.key.provenanceId == o.provenanceId
  {
    q :| q in PlacedOf(tree, objectIds) && ObjectEntry(tree, q) == Some(o);
  }

  lemma OfObject(tree: S.Tree, objectIds: set<string>, r: string, q: Placed)
    requires q in PlacedOf(tree, {r}) && r in objectIds
    ensures q in PlacedOf(tree, objectIds) && q.key.objectId == r
    ensures ObjectEntry(tree, q).Some? ==> ObjectEntry(tree, q).value.objectId == r
  {
  }

  lemma SelectedEntry(tree: S.Tree, objectIds: set<string>, os: seq<BundleObject>, r: string) returns (o: BundleObject)
    requires PlacedOf(tree, {r}) != {} && r in objectIds
    requires ListsObjects(tree, objectIds, os)
    requires forall q | q in PlacedOf(tree, objectIds) :: ObjectEntry(tree, q).Some?
    ensures o in os && o.objectId == r
  {
    var q :| q in PlacedOf(tree, {r});
    OfObject(tree, objectIds, r, q);
    o := ObjectEntry(tree, q).value;
    assert ObjectEntry(tree, q) == Some(o);
  }

  lemma ContentSource(x: Ctx, tree: S.Tree, objectIds: set<string>, os: seq<BundleObject>, after: S.Tree)
    requires ListsObjects(tree, objectIds, os) && ObjectsFound(tree, objectIds)
    requires NewContent(EMPTY, os, after) && forall o | o in os :: ObjectThere(x, o, after)
    ensures after.objects.Keys == objectIds
  {
    forall r
      ensures r in after.objects <==> r in objectIds
    {
      if r in after.objects {
        assert r !in EMPTY.objects;
        var o :| o in os && o.objectId == r;
        ObjectSelected(x, tree, objectIds, os, o);
      }
      if r in objectIds {
        var o := SelectedEntry(tree, objectIds, os, r);
        assert ObjectThere(x, o, after);
      }
    }
  }

  lemma ObjectsTransported(x: Ctx, tree: S.Tree, objectIds: set<string>, os: seq<BundleObject>, at: int, after: S.Tree)
    requires ListsObjects(tree, objectIds, os) && ObjectsFound(tree, objectIds) && AllStored(x, EMPTY, os, at, after)
    ensures after.foreign == map[]
    ensures forall q | q in PlacedOf(tree, objectIds) :: ObjectTransported(tree, after, q.key, at)
    ensures forall k | k in after.quarantine :: exists q :: q in PlacedOf(tree, objectIds) && q.key == k
    ensures after.objects.Keys == objectIds
    ensures forall r | r in after.provenance ::
              exists q :: q in PlacedOf(tree, objectIds) && q.key.provenanceId == Some(r)
  {
    forall q | q in PlacedOf(tree, objectIds)
      ensures ObjectTransported(tree, after, q.key, at)
    {
      ObjectTransport(x, tree, objectIds, os, at, after, q);
    }
    forall k | k in after.quarantine
      ensures exists q :: q in PlacedOf(tree, objectIds) && q.key == k
    {
      var q := RecordSource(x, tree, objectIds, os, at, after, k);
    }
    ContentSource(x, tree, objectIds, os, after);
    forall r | r in after.provenance
      ensures exists q :: q in PlacedOf(tree, objectIds) && q.key.provenanceId == Some(r)
    {
      assert NewContent(EMPTY, os, after) && r !in EMPTY.provenance;
      var o :| o in os && o.provenanceId == Some(r);
      var q := ProvenanceSelected(tree, objectIds, os, o);
    }
  }

  lemma AttributionsTransported(x: Ctx, tree: S.Tree, objectIds: set<string>, os: seq<BundleObject>, at: int,
                                after: S.Tree)
    requires ListsObjects(tree, objectIds, os) && ObjectsFound(tree, objectIds) && AllStored(x, EMPTY, os, at, after)
    ensures after.foreign == map[] && after.objects.Keys == objectIds
    ensures forall k | k in S.Attributions(tree) && k.objectId in objectIds :: ObjectTransported(tree, after, k, at)
    ensures forall k | k in after.quarantine :: k in S.Attributions(tree) && k.objectId in objectIds
    ensures forall r | r in after.provenance ::
              exists k :: k in S.Attributions(tree) && k.objectId in objectIds && k.provenanceId == Some(r)
  {
    ObjectsTransported(x, tree, objectIds, os, at, after);
    forall k | k in S.Attributions(tree) && k.objectId in objectIds
      ensures ObjectTransported(tree, after, k, at)
    {
      var q := AttributionPlaced(tree, objectIds, k);
    }
    forall k | k in after.quarantine
      ensures k in S.Attributions(tree) && k.objectId in objectIds
    {
      var q :| q in PlacedOf(tree, objectIds) && q.key == k;
      PlacedIff(tree, objectIds, q);
    }
    forall r | r in after.provenance
      ensures exists k :: k in S.Attributions(tree) && k.objectId in objectIds && k.provenanceId == Some(r)
    {
      var q :| q in PlacedOf(tree, objectIds) && q.key.provenanceId == Some(r);
      PlacedIff(tree, objectIds, q);
    }
  }

  /** An exported bundle imported into an empty target brings over exactly the selection: every selected peer with its
      identity, history and advertisement, every attribution of the selected objects with its source, provenance and
      bytes, all of it in quarantine, and nothing else. */
  lemma ExportThenImport(x: Ctx, tree: S.Tree, reg: P.Registry, exporter: string, createdAt: K.Stamp,
                         peerIds: set<string>, objectIds: set<string>, raw: Bytes, at: K.Stamp)
    requires Lawful(x) && P.Sound(x.env, reg) && RegistryInC(x, reg)
    requires Exportable(x, tree, reg, exporter, createdAt, peerIds, objectIds, raw)
    requires Import(x, Target(EMPTY, map[]), raw, at).1
    ensures at.At?
    ensures var after := Import(x, Target(EMPTY, map[]), raw, at).0;
            && after.reg.Keys == peerIds && (forall n | n in peerIds :: PeerTransported(reg, after.reg, n))
            && after.tree.foreign == map[] && after.tree.objects.Keys == objectIds
            && (forall k | k in S.Attributions(tree) && k.objectId in objectIds ::
                  ObjectTransported(tree, after.tree, k, at.unix))
            && (forall k | k in after.tree.quarantine :: k in S.Attributions(tree) && k.objectId in objectIds)
            && (forall r | r in after.tree.provenance ::
                  exists k :: k in S.Attributions(tree) && k.objectId in objectIds && k.provenanceId == Some(r))
  {
    EmptyTarget(x);
    var b :| Exports(x, tree, reg, exporter, createdAt, peerIds, objectIds, b) && Verify(x, raw) == Some(b);
    ImportOnlyAdds(x, Target(EMPTY, map[]), raw, at);
    var after := Import(x, Target(EMPTY, map[]), raw, at).0;
    PeersTransported(x, reg, peerIds, b.peers, after.reg);
    AttributionsTransported(x, tree, objectIds, b.objects, at.unix, after.tree);
  }

  lemma EmptyTarget(x: Ctx)
    ensures P.Sound(x.env, map[]) && S.Consistent(EMPTY)
  {
  }

  // ---------------------------------------------------------------- when the import succeeds

  /** Storing the peer as new, then quarantining it, then attaching its advertisement: each record this writes fits. */
  predicate Fits(env: P.Env, q: Peer, at: K.Stamp) {
    var introduced := P.NewPeer(env, q.document, q.records, |q.records|, None, at);
    var quarantined := P.Transitioned(introduced, P.Quarantined, at);
    && env.fits(introduced) && env.fits(quarantined)
    && (q.advertisement.Some? ==> env.fits(P.Touched(quarantined.(advertisement := q.advertisement), at)))
  }

  /** A peer that can be stored but for the size of its records. */
  predicate Storable(env: P.Env, q: Peer) {
    && Wire.IsNodeId(q.document.nodeId) && |q.records| <= P.MAX_PEER_LIFECYCLE_RECORDS
    && env.encodes(q.document, q.records)
    && var s := K.Rebuild(env.crypto, q.document, q.records);
       s.Ok? && (q.advertisement.Some? ==> P.AdvertisementVerifies(env, q.advertisement.value, s.value))
  }

  lemma IntroducesIff(x: Ctx, reg: P.Registry, q: Peer, at: K.Stamp)
    requires P.Sound(x.env, reg) && Storable(x.env, q) && q.document.nodeId !in reg && at.At?
    ensures P.IntroduceResult(x.env, reg, q.document, q.records, None, at).1.Ok? <==>
            x.env.fits(P.NewPeer(x.env, q.document, q.records, |q.records|, None, at))
  {
    K.AtMostTwoActiveKeys(x.env.crypto, q.document, q.records);
    var r := P.NewPeer(x.env, q.document, q.records, |q.records|, None, at);
    assert P.RecordFault(x.env, r).None?;
  }

  lemma QuarantinesIff(x: Ctx, reg: P.Registry, n: string, at: K.Stamp)
    requires P.Sound(x.env, reg) && n in reg && reg[n].state == P.Introduced && at.At?
    ensures P.TransitionResult(x.env, reg, n, P.Quarantined, at).1.Ok? <==>
            x.env.fits(P.Transitioned(reg[n], P.Quarantined, at))
  {
    assert P.Stored(x.env, reg, n);
    var r := P.Transitioned(reg[n], P.Quarantined, at);
    assert P.RecordFault(x.env, r).None?;
  }

  lemma AttachesIff(x: Ctx, reg: P.Registry, n: string, a: P.Advertisement, at: K.Stamp)
    requires P.Sound(x.env, reg) && n in reg && reg[n].advertisement == None && at.At?
    requires K.Rebuild(x.env.crypto, reg[n].identity, reg[n].lifecycle).Ok?
    requires P.AdvertisementVerifies(x.env, a, K.Rebuild(x.env.crypto, reg[n].identity, reg[n].lifecycle).value)
    ensures P.AttachResult(x.env, reg, n, a, at).1.Ok? <==> x.env.fits(P.Touched(reg[n].(advertisement := Some(a)), at))
  {
    assert P.Stored(x.env, reg, n);
    K.RebuiltNode(x.env.crypto, reg[n].identity, reg[n].lifecycle);
    var r := P.Touched(reg[n].(advertisement := Some(a)), at);
    assert P.RecordFault(x.env, r).None?;
  }

  lemma ImportsNewIff(x: Ctx, reg: P.Registry, q: Peer, at: K.Stamp)
    requires P.Sound(x.env, reg) && Storable(x.env, q) && q.document.nodeId !in reg && at.At?
    ensures P.ImportResult(x.env, reg, q.document, q.records, at).1.Ok? <==>
            && x.env.fits(P.NewPeer(x.env, q.document, q.records, |q.records|, None, at))
            && x.env.fits(P.Transitioned(P.NewPeer(x.env, q.document, q.records, |q.records|, None, at),
                                         P.Quarantined, at))
  {
    IntroducesIff(x, reg, q, at);
    if P.IntroduceResult(x.env, reg, q.document, q.records, None, at).1.Ok? {
      IntroducedHolds(x, reg, q, at);
      P.IntroduceSteps(x.env, P.Introduce(q.document, q.records, None, at), reg, q.document, q.records, None, at);
      var known := P.IntroduceResult(x.env, reg, q.document, q.records, None, at).0;
      QuarantinesIff(x, known, q.document.nodeId, at);
    }
  }

  /** A new peer is taken in exactly when the records this writes fit. */
  lemma TakesInIff(x: Ctx, reg: P.Registry, q: Peer, at: K.Stamp)
    requires P.Sound(x.env, reg) && Storable(x.env, q) && q.document.nodeId !in reg && at.At?
    ensures TakeIn(x, reg, q, at).1 <==> Fits(x.env, q, at)
  {
    ImportsNewIff(x, reg, q, at);
    if P.ImportResult(x.env, reg, q.document, q.records, at).1.Ok? {
      NewPeerImported(x, reg, q, at);
      var known := P.ImportResult(x.env, reg, q.document, q.records, at).0;
      if q.advertisement.Some? {
        AttachesIff(x, known, q.document.nodeId, q.advertisement.value, at);
      }
    }
  }

  lemma {:induction false} NewPeersImportIff(x: Ctx, ok: BundlePeer -> bool, fits: BundlePeer -> bool,
                                             step: (P.Registry, BundlePeer) -> (P.Registry, bool),
                                             reg: P.Registry, ps: seq<BundlePeer>)
    requires P.Sound(x.env, reg) && DistinctPeers(ps)
    requires forall i | 0 <= i < |ps| :: ok(ps[i]) && ps[i].nodeId !in reg
    requires forall r, p | P.Sound(x.env, r) && ok(p) && p.nodeId !in r ::
               (step(r, p).1 <==> fits(p)) && (step(r, p).1 ==> PeerStep(x, r, p, step(r, p).0))
    ensures Fold(step, reg, ps).1 <==> forall i | 0 <= i < |ps| :: fits(ps[i])
    decreases |ps|
  {
    if ps != [] && step(reg, ps[0]).1 {
      assert PeerStep(x, reg, ps[0], step(reg, ps[0]).0);
      var rest := ps[1..];
      NewPeersImportIff(x, ok, fits, step, step(reg, ps[0]).0, rest);
      assert forall i | 0 < i < |ps| :: ps[i] == rest[i - 1];
    }
  }

  /** The tree holds nothing but what the other holds. */
  ghost predicate Within(t: S.Tree, u: S.Tree) {
    t.objects.Items <= u.objects.Items && t.provenance.Items <= u.provenance.Items
  }

  /** Content that the source holds too cannot conflict. */
  lemma WriteAgrees(files: map<string, Bytes>, source: map<string, Bytes>, path: string, bytes: Bytes)
    requires files.Items <= source.Items && path in source && source[path] == bytes
    ensures S.WriteExact(files, path, bytes).Some? && S.WriteExact(files, path, bytes).value.Items <= source.Items
  {
    if path in files {
      ItemsKept(files, source, path);
    } else {
      forall kv | kv in files[path := bytes].Items
        ensures kv in source.Items
      {
        assert kv in files.Items || kv == (path, source[path]);
      }
    }
  }

  lemma PutSucceeds(x: Ctx, source: S.Tree, t: S.Tree, k: S.Key, item: Item, at: K.Stamp)
    requires Wire.IsNodeId(k.sourceNode) && at.At? && Within(t, source)
    requires ItemOf(source, k) == Some(item)
    requires x.content.refOf(item.bytes) == k.objectId && x.content.canonical(item.bytes)
    requires item.provenance.Some? ==>
               && x.content.canonical(item.provenance.value)
               && k.provenanceId == Some(x.content.refOf(item.provenance.value))
               && x.content.provenanceOf(item.provenance.value) == Some((k.sourceNode, k.objectId))
    ensures var (u, r) := S.PutResult(x.content, t, k.sourceNode, item.bytes, item.provenance, S.Quarantine, at);
            r.Ok? && Within(u, source)
  {
    WriteAgrees(t.objects, source.objects, k.objectId, item.bytes);
    if item.provenance.Some? {
      WriteAgrees(t.provenance, source.provenance, k.provenanceId.value, item.provenance.value);
    }
    var (stored, bad) := S.StoreContent(x.content, t, k.sourceNode, item.bytes, item.provenance);
    assert bad.None? && Within(stored, source);
  }

  lemma ObjectSucceeds(x: Ctx, source: S.Tree, t: S.Tree, o: BundleObject, at: K.Stamp)
    requires ObjectOk(x, o) && at.At? && Within(t, source) && ReadItem(x, o) == ItemOf(source, KeyOf(o))
    ensures ImportObject(x, t, o, at).1 && Within(ImportObject(x, t, o, at).0, source)
  {
    PutSucceeds(x, source, t, KeyOf(o), ReadItem(x, o).value, at);
  }

  lemma {:induction false} ObjectsSucceed(x: Ctx, source: S.Tree, step: (S.Tree, BundleObject) -> (S.Tree, bool),
                                          t: S.Tree, os: seq<BundleObject>)
    requires Within(t, source)
    requires forall u, o | Within(u, source) && o in os :: step(u, o).1 && Within(step(u, o).0, source)
    ensures Fold(step, t, os).1
    decreases |os|
  {
    if os != [] {
      assert os[0] in os;
      ObjectsSucceed(x, source, step, step(t, os[0]).0, os[1..]);
    }
  }

  /** An exported bundle can be imported into an empty target exactly when the time is well formed and, for every
      selected peer, the records that storing it anew writes are not too large. */
  lemma ExportImports(x: Ctx, tree: S.Tree, reg: P.Registry, exporter: string, createdAt: K.Stamp,
                      peerIds: set<string>, objectIds: set<string>, raw: Bytes, at: K.Stamp)
    requires Lawful(x) && P.Sound(x.env, reg) && RegistryInC(x, reg)
    requires Exportable(x, tree, reg, exporter, createdAt, peerIds, objectIds, raw)
    ensures peerIds <= reg.Keys
    ensures Import(x, Target(EMPTY, map[]), raw, at).1 <==>
            at.At? && forall n | n in peerIds :: Fits(x.env, PeerOf(reg[n]), at)
  {
    EmptyTarget(x);
    var b :| Exports(x, tree, reg, exporter, createdAt, peerIds, objectIds, b) && Verify(x, raw) == Some(b);
    forall n | n in peerIds
      ensures n in reg
    {
      PeerEntryReads(x, reg, n);
    }
    if at.At? {
      ListedPeersImportIff(x, reg, peerIds, b.peers, at);
      BundleObjectsSucceed(x, tree, objectIds, b.objects, at);
    }
  }

  lemma StoredIsStorable(x: Ctx, reg: P.Registry, n: string)
    requires P.Sound(x.env, reg) && n in reg
    ensures Storable(x.env, PeerOf(reg[n]))
  {
    assert P.Stored(x.env, reg, n);
  }

  lemma EntryStorable(x: Ctx, reg: P.Registry, peerIds: set<string>, ps: seq<BundlePeer>, p: BundlePeer)
    returns (n: string)
    requires Lawful(x) && P.Sound(x.env, reg) && RegistryInC(x, reg) && ListsPeers(x, reg, peerIds, ps) && p in ps
    ensures n in peerIds && n in reg && p.nodeId == n && ReadPeer(x, p) == Some(PeerOf(reg[n]))
    ensures Storable(x.env, PeerOf(reg[n])) && reg[n].identity.nodeId == n
  {
    n :| n in peerIds && PeerEntry(x, reg, n) == Some(p);
    PeerEntryReads(x, reg, n);
    StoredIsStorable(x, reg, n);
    assert P.Stored(x.env, reg, n);
  }

  predicate ReadsStorable(x: Ctx, p: BundlePeer) {
    PeerOk(x, p) && Storable(x.env, ReadPeer(x, p).value)
  }

  predicate EntryFits(x: Ctx, p: BundlePeer, at: K.Stamp) {
    ReadPeer(x, p).Some? && Fits(x.env, ReadPeer(x, p).value, at)
  }

  lemma PeersImportIff(x: Ctx, ps: seq<BundlePeer>, at: K.Stamp)
    requires DistinctPeers(ps) && at.At? && forall i | 0 <= i < |ps| :: ReadsStorable(x, ps[i])
    ensures ImportPeers(x, map[], ps, at).1 <==> forall i | 0 <= i < |ps| :: EntryFits(x, ps[i], at)
  {
    EmptyTarget(x);
    var step := (r: P.Registry, p: BundlePeer) => ImportPeer(x, r, p, at);
    var fits := (p: BundlePeer) => EntryFits(x, p, at);
    forall r, p | P.Sound(x.env, r) && ReadsStorable(x, p) && p.nodeId !in r
      ensures (step(r, p).1 <==> fits(p)) && (step(r, p).1 ==> PeerStep(x, r, p, step(r, p).0))
    {
      TakesInIff(x, r, ReadPeer(x, p).value, at);
      if step(r, p).1 {
        PeerImported(x, r, p, at);
      }
    }
    NewPeersImportIff(x, p => ReadsStorable(x, p), fits, step, map[], ps);
  }

  lemma ListedPeersImportIff(x: Ctx, reg: P.Registry, peerIds: set<string>, ps: seq<BundlePeer>, at: K.Stamp)
    requires Lawful(x) && P.Sound(x.env, reg) && RegistryInC(x, reg) && peerIds <= reg.Keys && at.At?
    requires ListsPeers(x, reg, peerIds, ps) && PeersFound(x, reg, peerIds) && PeersOk(x, ps)
    ensures ImportPeers(x, map[], ps, at).1 <==> forall n | n in peerIds :: Fits(x.env, PeerOf(reg[n]), at)
  {
    forall i | 0 <= i < |ps|
      ensures ReadsStorable(x, ps[i])
      ensures ps[i].nodeId in peerIds && (EntryFits(x, ps[i], at) <==> Fits(x.env, PeerOf(reg[ps[i].nodeId]), at))
    {
      var n := EntryStorable(x, reg, peerIds, ps, ps[i]);
    }
    PeersImportIff(x, ps, at);
    forall n | n in peerIds
      ensures exists i :: 0 <= i < |ps| && ps[i].nodeId == n
    {
      var e := PeerEntry(x, reg, n).value;
      assert e in ps;
      PeerEntryReads(x, reg, n);
    }
  }

  lemma BundleObjectsSucceed(x: Ctx, tree: S.Tree, objectIds: set<string>, os: seq<BundleObject>, at: K.Stamp)
    requires ListsObjects(tree, objectIds, os) && ObjectsOk(x, os) && at.At?
    ensures ImportObjects(x, EMPTY, os, at).1
  {
    var step := (t: S.Tree, o: BundleObject) => ImportObject(x, t, o, at);
    forall u, o | Within(u, tree) && o in os
      ensures step(u, o).1 && Within(step(u, o).0, tree)
    {
      var q := EntrySource(x, tree, objectIds, os, o);
      ObjectSucceeds(x, tree, u, o, at);
    }
    ObjectsSucceed(x, tree, step, EMPTY, os);
  }

  // ---------------------------------------------------------------- text in form C

  lemma {:induction false} ReadRecordsInC(x: Ctx, texts: seq<string>)
    requires Lawful(x) && ReadRecords(x, texts).Some?
    ensures forall k | k in ReadRecords(x, texts).value :: x.codec.recordInC(k)
  {
    if texts != [] {
      ReadRecordsInC(x, texts[1..]);
    }
  }

  predicate ReadInC(x: Ctx, q: Peer) {
    && x.codec.identityInC(q.document) && (forall k | k in q.records :: x.codec.recordInC(k))
    && (q.advertisement.Some? ==> x.codec.advertisementInC(q.advertisement.value))
  }

  lemma PeerReadInC(x: Ctx, p: BundlePeer)
    requires Lawful(x) && ReadPeer(x, p).Some?
    ensures ReadInC(x, ReadPeer(x, p).value)
  {
    ReadRecordsInC(x, p.lifecycleHex);
  }

  /** An import keeps all stored text in form C. */
  lemma ImportKeepsFormC(x: Ctx, t: Target, raw: Bytes, at: K.Stamp)
    requires Lawful(x) && P.Sound(x.env, t.reg) && S.Consistent(t.tree) && RegistryInC(x, t.reg)
    requires Import(x, t, raw, at).1
    ensures RegistryInC(x, Import(x, t, raw, at).0.reg)
  {
    ImportOnlyAdds(x, t, raw, at);
    var ps := Verify(x, raw).value.peers;
    var after := Import(x, t, raw, at).0.reg;
    forall n | n in after
      ensures PeerInC(x, after[n])
    {
      if i :| 0 <= i < |ps| && ps[i].nodeId == n {
        assert PeerThere(x, t.reg, ps[i], after);
        PeerReadInC(x, ps[i]);
      } else {
        assert SameAt(t.reg, after, n);
      }
    }
  }

  // ---------------------------------------------------------------- failed imports

  /** The steps went well up to one that failed, and nothing was done after it. */
  ghost predicate StoppedAt<State, E>(step: (State, E) -> (State, bool), s: State, xs: seq<E>, end: State, i: nat) {
    && i < |xs| && Fold(step, s, xs[..i]).1
    && step(Fold(step, s, xs[..i]).0, xs[i]) == (end, false)
  }

  lemma {:induction false} FoldStops<State, E>(step: (State, E) -> (State, bool), s: State, xs: seq<E>) returns (i: nat)
    requires !Fold(step, s, xs).1
    ensures StoppedAt(step, s, xs, Fold(step, s, xs).0, i)
    decreases |xs|
  {
    var (next, ok) := step(s, xs[0]);
    if ok {
      var j := FoldStops(step, next, xs[1..]);
      i := j + 1;
      assert xs[..i][1..] == xs[1..][..j] && xs[..i][0] == xs[0];
    } else {
      i := 0;
    }
  }

  /** An import of a verified bundle that fails leaves what the entries before the failing one brought in, and what the
      failing one did before it failed; no later entry is looked at, and no object if a peer fails. */
  lemma FailedImportStops(x: Ctx, t: Target, raw: Bytes, at: K.Stamp)
    requires at.At? && Verify(x, raw).Some? && !Import(x, t, raw, at).1
    ensures var b := Verify(x, raw).value;
            var after := Import(x, t, raw, at).0;
            var peerStep := (r: P.Registry, p: BundlePeer) => ImportPeer(x, r, p, at);
            var objectStep := (u: S.Tree, o: BundleObject) => ImportObject(x, u, o, at);
            || (after.tree == t.tree && exists i :: StoppedAt(peerStep, t.reg, b.peers, after.reg, i))
            || (Fold(peerStep, t.reg, b.peers) == (after.reg, true)
                && exists i :: StoppedAt(objectStep, t.tree, b.objects, after.tree, i))
  {
    var b := Verify(x, raw).value;
    var peerStep := (r: P.Registry, p: BundlePeer) => ImportPeer(x, r, p, at);
    if !Fold(peerStep, t.reg, b.peers).1 {
      var i := FoldStops(peerStep, t.reg, b.peers);
    } else {
      var objectStep := (u: S.Tree, o: BundleObject) => ImportObject(x, u, o, at);
      var i := FoldStops(objectStep, t.tree, b.objects);
    }
  }
}
