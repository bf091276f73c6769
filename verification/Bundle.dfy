/** Portable bundles: export, offline verification and import (src/bundle.rs).

    Canonical encoding and parsing of the embedded documents are the fields of `Codec`, whose laws are in `Lawful`. */
module Bundle {
  import opened Wrappers
  import S = ObjectStore
  import P = Peering
  import K = KeyLifecycle
  import Wire
  import Hex
  import Lex
  import Ordering

  type Bytes = Hex.Bytes

  const BUNDLE_SCHEMA := "qsol-fed-bundle/1"
  const PROTOCOL := "qsol-fed/1"
  const MAX_BUNDLE_PEERS := 256
  const MAX_BUNDLE_OBJECTS := 1_024
  const MAX_BUNDLE_BYTES := 65_536

  datatype BundlePeer = BundlePeer(
    nodeId: string, identityHex: string, lifecycleHex: seq<string>, advertisementHex: Option<string>,
    state: P.PeerState)

  datatype BundleObject = BundleObject(
    objectId: string, sourceNode: string, namespace: S.Namespace, objectHex: string,
    provenanceId: Option<string>, provenanceHex: Option<string>)

  datatype Bundle = Bundle(
    schema: string, protocol: string, exporter: string, createdAt: K.Stamp,
    peers: seq<BundlePeer>, objects: seq<BundleObject>, authority: string)

  /** Canonical bytes of a value, where they are not too large; the value of bytes; and whether all text of a value is
      in normalization form C, as it is in every value read from canonical bytes. */
  datatype Codec = Codec(
    identityBytes: K.Document -> Option<Bytes>, identityOf: Bytes -> Option<K.Document>,
    identityInC: K.Document -> bool,
    recordBytes: K.Record -> Option<Bytes>, recordOf: Bytes -> Option<K.Record>, recordInC: K.Record -> bool,
    advertisementBytes: P.Advertisement -> Option<Bytes>, advertisementOf: Bytes -> Option<P.Advertisement>,
    advertisementInC: P.Advertisement -> bool,
    bundleBytes: Bundle -> Option<Bytes>, bundleOf: Bytes -> Option<Bundle>, bundleInC: Bundle -> bool)

  datatype Ctx = Ctx(content: S.Content, env: P.Env, codec: Codec)

  /** Parsing inverts canonical encoding on values in form C, and canonical bytes hold such values only. */
  ghost predicate Inverse<T(!new)>(c: S.Content, inC: T -> bool, encode: T -> Option<Bytes>, parse: Bytes -> Option<T>)
  {
    && (forall v | inC(v) && encode(v).Some? ::
          encode(v).value != [] && c.canonical(encode(v).value) && parse(encode(v).value) == Some(v))
    && (forall b | c.canonical(b) && parse(b).Some? :: inC(parse(b).value))
  }

  predicate Ascii(s: string) {
    forall i | 0 <= i < |s| :: s[i] < '\U{80}'
  }

  predicate AsciiPeer(p: BundlePeer) {
    && Ascii(p.nodeId) && Ascii(p.identityHex) && (forall t | t in p.lifecycleHex :: Ascii(t))
    && (p.advertisementHex.Some? ==> Ascii(p.advertisementHex.value))
  }

  predicate AsciiObject(o: BundleObject) {
    && Ascii(o.objectId) && Ascii(o.sourceNode) && Ascii(o.objectHex)
    && (o.provenanceId.Some? ==> Ascii(o.provenanceId.value))
    && (o.provenanceHex.Some? ==> Ascii(o.provenanceHex.value))
  }

  predicate AsciiBundle(b: Bundle) {
    && b.schema == BUNDLE_SCHEMA && b.protocol == PROTOCOL && b.authority == "none" && Ascii(b.exporter)
    && (forall p | p in b.peers :: AsciiPeer(p)) && (forall o | o in b.objects :: AsciiObject(o))
  }

  /** What canonical encoding promises, and that ASCII text is in form C. */
  ghost predicate Lawful(x: Ctx) {
    && Inverse(x.content, x.codec.identityInC, x.codec.identityBytes, x.codec.identityOf)
    && Inverse(x.content, x.codec.recordInC, x.codec.recordBytes, x.codec.recordOf)
    && Inverse(x.content, x.codec.advertisementInC, x.codec.advertisementBytes, x.codec.advertisementOf)
    && Inverse(x.content, x.codec.bundleInC, x.codec.bundleBytes, x.codec.bundleOf)
    && (forall b | AsciiBundle(b) :: x.codec.bundleInC(b))
  }

  /** The registry's peers as they are read from their canonical files. */
  predicate PeerInC(x: Ctx, r: P.PeerRecord) {
    && x.codec.identityInC(r.identity) && (forall k | k in r.lifecycle :: x.codec.recordInC(k))
    && (r.advertisement.Some? ==> x.codec.advertisementInC(r.advertisement.value))
  }

  ghost predicate RegistryInC(x: Ctx, reg: P.Registry) {
    forall n | n in reg :: PeerInC(x, reg[n])
  }

  // ---------------------------------------------------------------- reading entries

  function ReadBytes(x: Ctx, text: string): Option<Bytes> {
    var b := Hex.Decode(text);
    if b.None? || !x.content.canonical(b.value) then None else b
  }

  function ReadBack<T>(x: Ctx, parse: Bytes -> Option<T>, text: string): Option<T> {
    var b := ReadBytes(x, text);
    if b.None? then None else parse(b.value)
  }

  function ReadRecords(x: Ctx, texts: seq<string>): (r: Option<seq<K.Record>>)
    ensures r.Some? ==> |r.value| == |texts|
  {
    if texts == [] then Some([])
    else
      var first := ReadBack(x, x.codec.recordOf, texts[0]);
      var rest := ReadRecords(x, texts[1..]);
      if first.None? || rest.None? then None else Some([first.value] + rest.value)
  }

  datatype Peer = Peer(document: K.Document, records: seq<K.Record>, advertisement: Option<P.Advertisement>)

  function ReadPeer(x: Ctx, p: BundlePeer): Option<Peer> {
    var d := ReadBack(x, x.codec.identityOf, p.identityHex);
    var records := ReadRecords(x, p.lifecycleHex);
    if d.None? || records.None? then None
    else if p.advertisementHex.None? then Some(Peer(d.value, records.value, None))
    else
      var a := ReadBack(x, x.codec.advertisementOf, p.advertisementHex.value);
      if a.None? then None else Some(Peer(d.value, records.value, a))
  }

  datatype Item = Item(bytes: Bytes, provenance: Option<Bytes>)

  function ReadItem(x: Ctx, o: BundleObject): Option<Item> {
    var b := ReadBytes(x, o.objectHex);
    if b.None? then None
    else if o.provenanceHex.None? then Some(Item(b.value, None))
    else
      var raw := ReadBytes(x, o.provenanceHex.value);
      if raw.None? then None else Some(Item(b.value, raw))
  }

  // ---------------------------------------------------------------- verification

  predicate PeerOk(x: Ctx, p: BundlePeer) {
    && Wire.IsNodeId(p.nodeId) && |p.lifecycleHex| <= P.MAX_PEER_LIFECYCLE_RECORDS
    && var q := ReadPeer(x, p);
       && q.Some? && q.value.document.nodeId == p.nodeId
       && var s := K.Rebuild(x.env.crypto, q.value.document, q.value.records);
          && s.Ok?
          && (q.value.advertisement.Some? ==> P.AdvertisementVerifies(x.env, q.value.advertisement.value, s.value))
  }

  function KeyOf(o: BundleObject): S.Key {
    S.Key(o.objectId, o.sourceNode, o.provenanceId)
  }

  predicate ObjectOk(x: Ctx, o: BundleObject) {
    && Wire.IsSha256Ref(o.objectId) && Wire.IsNodeId(o.sourceNode)
    && (o.provenanceId.Some? <==> o.provenanceHex.Some?)
    && var item := ReadItem(x, o);
       && item.Some? && x.content.refOf(item.value.bytes) == o.objectId
       && (o.provenanceId.Some? ==>
             && Wire.IsSha256Ref(o.provenanceId.value)
             && x.content.refOf(item.value.provenance.value) == o.provenanceId.value
             && x.content.provenanceOf(item.value.provenance.value) == Some((o.sourceNode, o.objectId)))
  }

  predicate DistinctPeers(ps: seq<BundlePeer>) {
    forall i, j | 0 <= i < j < |ps| :: ps[i].nodeId != ps[j].nodeId
  }

  predicate DistinctObjects(os: seq<BundleObject>) {
    forall i, j | 0 <= i < j < |os| :: KeyOf(os[i]) != KeyOf(os[j])
  }

  predicate HeaderOk(b: Bundle) {
    && b.schema == BUNDLE_SCHEMA && b.protocol == PROTOCOL && Wire.IsNodeId(b.exporter) && b.createdAt.At?
    && b.authority == "none" && |b.peers| <= MAX_BUNDLE_PEERS && |b.objects| <= MAX_BUNDLE_OBJECTS
  }

  predicate PeersOk(x: Ctx, ps: seq<BundlePeer>) {
    DistinctPeers(ps) && forall i | 0 <= i < |ps| :: PeerOk(x, ps[i])
  }

  predicate ObjectsOk(x: Ctx, os: seq<BundleObject>) {
    DistinctObjects(os) && forall i | 0 <= i < |os| :: ObjectOk(x, os[i])
  }

  predicate BundleOk(x: Ctx, b: Bundle) {
    HeaderOk(b) && PeersOk(x, b.peers) && ObjectsOk(x, b.objects)
  }

  /** The bundle that the bytes hold, if they verify. */
  function Verify(x: Ctx, raw: Bytes): Option<Bundle> {
    if |raw| > MAX_BUNDLE_BYTES || !x.content.canonical(raw) then None
    else
      var b := x.codec.bundleOf(raw);
      if b.None? || !BundleOk(x, b.value) then None else b
  }

  method CheckPeers(good: BundlePeer -> bool, ps: seq<BundlePeer>) returns (ok: bool)
    ensures ok == (DistinctPeers(ps) && forall i | 0 <= i < |ps| :: good(ps[i]))
  {
    var seen: set<string> := {};
    for i := 0 to |ps|
      invariant forall n :: n in seen <==> exists j :: 0 <= j < i && ps[j].nodeId == n
      invariant forall j, k | 0 <= j < k < i :: ps[j].nodeId != ps[k].nodeId
      invariant forall j | 0 <= j < i :: good(ps[j])
    {
      if ps[i].nodeId in seen || !good(ps[i]) {
        return false;
      }
      seen := seen + {ps[i].nodeId};
    }
    ok := true;
  }

  method CheckObjects(good: BundleObject -> bool, os: seq<BundleObject>) returns (ok: bool)
    ensures ok == (DistinctObjects(os) && forall i | 0 <= i < |os| :: good(os[i]))
  {
    var seen: set<S.Key> := {};
    for i := 0 to |os|
      invariant forall k :: k in seen <==> exists j :: 0 <= j < i && KeyOf(os[j]) == k
      invariant forall j, k | 0 <= j < k < i :: KeyOf(os[j]) != KeyOf(os[k])
      invariant forall j | 0 <= j < i :: good(os[j])
    {
      if KeyOf(os[i]) in seen || !good(os[i]) {
        return false;
      }
      seen := seen + {KeyOf(os[i])};
    }
    ok := true;
  }

  datatype Report = Report(bundleId: string, peerCount: nat, objectCount: nat)

  function ReportOf(x: Ctx, raw: Bytes): Option<Report> {
    var b := Verify(x, raw);
    if b.None? then None else Some(Report(x.content.refOf(raw), |b.value.peers|, |b.value.objects|))
  }

  method VerifyBundle(x: Ctx, raw: Bytes) returns (r: Option<Report>)
    ensures r == ReportOf(x, raw)
  {
    if |raw| > MAX_BUNDLE_BYTES || !x.content.canonical(raw) {
      return None;
    }
    var parsed := x.codec.bundleOf(raw);
    if parsed.None? || !HeaderOk(parsed.value) {
      return None;
    }
    var b := parsed.value;
    var peersOk := CheckPeers(p => PeerOk(x, p), b.peers);
    if !peersOk {
      return None;
    }
    var objectsOk := CheckObjects(o => ObjectOk(x, o), b.objects);
    if !objectsOk {
      return None;
    }
    r := Some(Report(x.content.refOf(raw), |b.peers|, |b.objects|));
  }

  // ---------------------------------------------------------------- export

  function Embed(b: Option<Bytes>): Option<string> {
    if b.None? then None else Hex.Encode(b.value)
  }

  function EmbedRecords(x: Ctx, records: seq<K.Record>): Option<seq<string>> {
    if records == [] then Some([])
    else
      var first := Embed(x.codec.recordBytes(records[0]));
      var rest := EmbedRecords(x, records[1..]);
      if first.None? || rest.None? then None else Some([first.value] + rest.value)
  }

  /** The entry of one stored peer, if it is stored and nothing of it is too large. */
  function PeerEntry(x: Ctx, reg: P.Registry, n: string): Option<BundlePeer> {
    var found := P.Get(x.env, reg, n);
    if found.Err? || found.value.None? then None
    else
      var r := found.value.value;
      var identity := Embed(x.codec.identityBytes(r.identity));
      var records := EmbedRecords(x, r.lifecycle);
      if identity.None? || records.None? then None
      else if r.advertisement.None? then Some(BundlePeer(r.nodeId, identity.value, records.value, None, r.state))
      else
        var a := Embed(x.codec.advertisementBytes(r.advertisement.value));
        if a.None? then None else Some(BundlePeer(r.nodeId, identity.value, records.value, a, r.state))
  }

  /** A record of an attribution and the namespace it lies in. */
  datatype Placed = Placed(namespace: S.Namespace, key: S.Key)

  function PlacedOf(tree: S.Tree, objectIds: set<string>): set<Placed> {
    (set k | k in tree.foreign && k.objectId in objectIds :: Placed(S.Foreign, k))
    + (set k | k in tree.quarantine && k.objectId in objectIds :: Placed(S.Quarantine, k))
  }

  function StoredHex(files: map<string, Bytes>, path: string): Option<string> {
    if path in files then Hex.Encode(files[path]) else None
  }

  /** `validate_foreign_record`, as far as it looks at the attribution. */
  predicate KeyValid(k: S.Key) {
    && Wire.IsSha256Ref(k.objectId) && Wire.IsNodeId(k.sourceNode)
    && (k.provenanceId.Some? ==> Wire.IsSha256Ref(k.provenanceId.value))
  }

  function ObjectEntry(tree: S.Tree, q: Placed): Option<BundleObject> {
    var text := StoredHex(tree.objects, q.key.objectId);
    if text.None? || !KeyValid(q.key) then None
    else if q.key.provenanceId.None? then
      Some(BundleObject(q.key.objectId, q.key.sourceNode, q.namespace, text.value, None, None))
    else
      var provenance := StoredHex(tree.provenance, q.key.provenanceId.value);
      if provenance.None? then None
      else Some(BundleObject(q.key.objectId, q.key.sourceNode, q.namespace, text.value, q.key.provenanceId, provenance))
  }

  predicate PeerLess(a: BundlePeer, b: BundlePeer) {
    Lex.Before(a.nodeId, b.nodeId)
  }

  predicate OptionBefore(a: Option<string>, b: Option<string>) {
    b.Some? && (a.None? || Lex.Before(a.value, b.value))
  }

  predicate ObjectLess(a: BundleObject, b: BundleObject) {
    || Lex.Before(a.objectId, b.objectId)
    || (a.objectId == b.objectId && Lex.Before(a.sourceNode, b.sourceNode))
    || (a.objectId == b.objectId && a.sourceNode == b.sourceNode && OptionBefore(a.provenanceId, b.provenanceId))
  }

  lemma PeerOrder()
    ensures Ordering.Strict(PeerLess)
  {
    forall a, b, c
      ensures !PeerLess(a, a) && (PeerLess(a, b) && PeerLess(b, c) ==> PeerLess(a, c))
    {
      Lex.BeforeIrreflexive(a.nodeId);
      if PeerLess(a, b) && PeerLess(b, c) {
        Lex.BeforeTransitive(a.nodeId, b.nodeId, c.nodeId);
      }
    }
  }

  lemma BeforeOrder(a: string, b: string, c: string)
    ensures !Lex.Before(a, a)
    ensures Lex.Before(a, b) && Lex.Before(b, c) ==> Lex.Before(a, c)
  {
    Lex.BeforeIrreflexive(a);
    if Lex.Before(a, b) && Lex.Before(b, c) {
      Lex.BeforeTransitive(a, b, c);
    }
  }

  lemma ObjectOrder()
    ensures Ordering.Strict(ObjectLess)
  {
    forall a, b, c
      ensures !ObjectLess(a, a) && (ObjectLess(a, b) && ObjectLess(b, c) ==> ObjectLess(a, c))
    {
      BeforeOrder(a.objectId, b.objectId, c.objectId);
      BeforeOrder(a.sourceNode, b.sourceNode, c.sourceNode);
      if a.provenanceId.Some? {
        BeforeOrder(a.provenanceId.value, if b.provenanceId.Some? then b.provenanceId.value else "",
                    if c.provenanceId.Some? then c.provenanceId.value else "");
      }
    }
  }

  /** Entries of different attributions are ordered one way or the other. */
  lemma ObjectsApart(a: BundleObject, b: BundleObject)
    ensures ObjectLess(a, b) || ObjectLess(b, a) <==> KeyOf(a) != KeyOf(b)
  {
    ObjectOrder();
    Lex.BeforeTotal(a.objectId, b.objectId);
    Lex.BeforeTotal(a.sourceNode, b.sourceNode);
    if a.provenanceId.Some? && b.provenanceId.Some? {
      Lex.BeforeTotal(a.provenanceId.value, b.provenanceId.value);
    }
    BeforeOrder(a.objectId, a.objectId, a.objectId);
    BeforeOrder(a.sourceNode, a.sourceNode, a.sourceNode);
    if a.provenanceId.Some? {
      BeforeOrder(a.provenanceId.value, a.provenanceId.value, a.provenanceId.value);
    }
  }

  ghost predicate PeersFound(x: Ctx, reg: P.Registry, peerIds: set<string>) {
    |peerIds| <= MAX_BUNDLE_PEERS && forall n | n in peerIds :: PeerEntry(x, reg, n).Some?
  }

  ghost predicate ObjectsFound(tree: S.Tree, objectIds: set<string>) {
    && |objectIds| <= MAX_BUNDLE_OBJECTS && |PlacedOf(tree, objectIds)| <= MAX_BUNDLE_OBJECTS
    && (forall o | o in objectIds :: PlacedOf(tree, {o}) != {} && Wire.IsSha256Ref(o))
    && (forall q | q in PlacedOf(tree, objectIds) :: ObjectEntry(tree, q).Some?)
  }

  ghost predicate ListsPeers(x: Ctx, reg: P.Registry, peerIds: set<string>, entries: seq<BundlePeer>) {
    forall e :: e in entries <==> exists n :: n in peerIds && PeerEntry(x, reg, n) == Some(e)
  }

  ghost predicate ListsObjects(tree: S.Tree, objectIds: set<string>, entries: seq<BundleObject>) {
    forall e :: e in entries <==> exists q :: q in PlacedOf(tree, objectIds) && ObjectEntry(tree, q) == Some(e)
  }

  /** b is the bundle of these peers and of all attributions of these objects. */
  ghost predicate Exports(x: Ctx, tree: S.Tree, reg: P.Registry, exporter: string, createdAt: K.Stamp,
                          peerIds: set<string>, objectIds: set<string>, b: Bundle)
  {
    && b == Bundle(BUNDLE_SCHEMA, PROTOCOL, exporter, createdAt, b.peers, b.objects, "none")
    && PeersFound(x, reg, peerIds) && ObjectsFound(tree, objectIds)
    && Ordering.Ascending(PeerLess, b.peers) && ListsPeers(x, reg, peerIds, b.peers)
    && Ordering.Ascending(ObjectLess, b.objects) && ListsObjects(tree, objectIds, b.objects)
  }

  /** A selection has at most one bundle. */
  lemma OneBundle(x: Ctx, tree: S.Tree, reg: P.Registry, exporter: string, createdAt: K.Stamp,
                  peerIds: set<string>, objectIds: set<string>, b: Bundle, c: Bundle)
    requires Exports(x, tree, reg, exporter, createdAt, peerIds, objectIds, b)
    requires Exports(x, tree, reg, exporter, createdAt, peerIds, objectIds, c)
    ensures b == c
  {
    PeerOrder();
    ObjectOrder();
    Ordering.AscendingUnique(PeerLess, b.peers, c.peers);
    Ordering.AscendingUnique(ObjectLess, b.objects, c.objects);
  }

  lemma {:induction false} DistinctCount(xs: seq<string>)
    requires Lex.Distinct(xs)
    ensures |Lex.Elements(xs)| == |xs|
  {
    if xs != [] {
      var n := |xs| - 1;
      DistinctCount(xs[..n]);
      assert Lex.Elements(xs) == Lex.Elements(xs[..n]) + {xs[n]};
    }
  }

  /** A selection that can be exported: there is a bundle of it, and its bytes verify. */
  ghost predicate Exportable(x: Ctx, tree: S.Tree, reg: P.Registry, exporter: string, createdAt: K.Stamp,
                             peerIds: set<string>, objectIds: set<string>, raw: Bytes)
  {
    exists b :: Exports(x, tree, reg, exporter, createdAt, peerIds, objectIds, b)
                && x.codec.bundleBytes(b) == Some(raw) && Verify(x, raw) == Some(b)
  }

  type Lookup<!Q, +E> = Q -> Option<E>

  /** Looks up the selected peers in the order given. */
  method CollectPeers(lookup: Lookup<string, BundlePeer>, peerIds: seq<string>) returns (r: Option<seq<BundlePeer>>)
    ensures r.Some? <==> Lex.Distinct(peerIds) && forall i | 0 <= i < |peerIds| :: lookup(peerIds[i]).Some?
    ensures r.Some? ==> |r.value| == |peerIds|
    ensures r.Some? ==> forall i | 0 <= i < |peerIds| :: lookup(peerIds[i]) == Some(r.value[i])
  {
    var seen: set<string> := {};
    var entries: seq<BundlePeer> := [];
    for i := 0 to |peerIds|
      invariant forall n :: n in seen <==> exists j :: 0 <= j < i && peerIds[j] == n
      invariant forall j, k | 0 <= j < k < i :: peerIds[j] != peerIds[k]
      invariant |entries| == i && forall j | 0 <= j < i :: lookup(peerIds[j]) == Some(entries[j])
    {
      if peerIds[i] in seen {
        return None;
      }
      seen := seen + {peerIds[i]};
      var e := lookup(peerIds[i]);
      if e.None? {
        return None;
      }
      entries := entries + [e.value];
    }
    r := Some(entries);
  }

  /** The entries are those of `order`, one for one. */
  ghost predicate EntriesOf(lookup: Lookup<Placed, BundleObject>, order: seq<Placed>, entries: seq<BundleObject>) {
    && |entries| == |order|
    && (forall i, j | 0 <= i < j < |order| :: order[i] != order[j])
    && (forall i | 0 <= i < |order| :: lookup(order[i]) == Some(entries[i]))
  }

  ghost function PlacedSet(order: seq<Placed>): set<Placed> {
    set q | q in order
  }

  lemma AppendEntry(lookup: Lookup<Placed, BundleObject>, order: seq<Placed>, entries: seq<BundleObject>, q: Placed)
    requires EntriesOf(lookup, order, entries) && q !in order && lookup(q).Some?
    ensures EntriesOf(lookup, order + [q], entries + [lookup(q).value])
    ensures PlacedSet(order + [q]) == PlacedSet(order) + {q}
  {
  }

  lemma {:induction false} EntryCount(order: seq<Placed>)
    requires forall i, j | 0 <= i < j < |order| :: order[i] != order[j]
    ensures |PlacedSet(order)| == |order|
  {
    if order != [] {
      var n := |order| - 1;
      EntryCount(order[..n]);
      assert PlacedSet(order) == PlacedSet(order[..n]) + {order[n]};
    }
  }

  /** Appends the entries of some records, in any order. */
  method CollectRecords(lookup: Lookup<Placed, BundleObject>, records: set<Placed>, entries: seq<BundleObject>,
                        ghost order: seq<Placed>) returns (r: Option<seq<BundleObject>>, ghost longer: seq<Placed>)
    requires EntriesOf(lookup, order, entries) && |order| <= MAX_BUNDLE_OBJECTS && PlacedSet(order) !! records
    ensures r.Some? ==> EntriesOf(lookup, longer, r.value) && PlacedSet(longer) == PlacedSet(order) + records
    ensures r.Some? ==> |longer| <= MAX_BUNDLE_OBJECTS
    ensures r.Some? <==>
            (forall q | q in records :: lookup(q).Some?) && |order| + |records| <= MAX_BUNDLE_OBJECTS
  {
    longer := order;
    var left := records;
    var more := entries;
    while left != {}
      invariant left <= records && EntriesOf(lookup, longer, more)
      invariant forall q :: q in longer <==> q in order || (q in records && q !in left)
      invariant forall q | q in records :: q in left || lookup(q).Some?
      invariant |longer| + |left| == |order| + |records| && |longer| <= MAX_BUNDLE_OBJECTS
      decreases |left|
    {
      var q :| q in left;
      var e := lookup(q);
      if e.None? {
        return None, longer;
      }
      assert q !in order by {
        assert q in PlacedSet(order) ==> q !in records;
      }
      AppendEntry(lookup, longer, more, q);
      longer := longer + [q];
      more := more + [e.value];
      left := left - {q};
      if |more| > MAX_BUNDLE_OBJECTS {
        return None, longer;
      }
    }
    r := Some(more);
  }

  /** The records of all the objects. */
  function AllRecords(recordsOf: string -> set<Placed>, objectIds: set<string>): set<Placed> {
    set o, q | o in objectIds && q in recordsOf(o) :: q
  }

  ghost predicate Collectable(lookup: Lookup<Placed, BundleObject>, recordsOf: string -> set<Placed>,
                              objectIds: set<string>)
  {
    && (forall o | o in objectIds :: recordsOf(o) != {} && Wire.IsSha256Ref(o))
    && (forall q | q in AllRecords(recordsOf, objectIds) :: lookup(q).Some?)
    && |AllRecords(recordsOf, objectIds)| <= MAX_BUNDLE_OBJECTS
  }

  /** No record belongs to two objects. */
  ghost predicate Separate(recordsOf: string -> set<Placed>) {
    forall o, p | o != p :: recordsOf(o) !! recordsOf(p)
  }

  lemma OneMoreObject(recordsOf: string -> set<Placed>, some: set<string>, o: string)
    requires Separate(recordsOf) && o !in some
    ensures AllRecords(recordsOf, some + {o}) == AllRecords(recordsOf, some) + recordsOf(o)
    ensures AllRecords(recordsOf, some) !! recordsOf(o)
  {
  }

  lemma CollectableMore(lookup: Lookup<Placed, BundleObject>, recordsOf: string -> set<Placed>, some: set<string>,
                        o: string)
    requires Separate(recordsOf) && o !in some && Collectable(lookup, recordsOf, some)
    ensures Collectable(lookup, recordsOf, some + {o}) <==>
            && Wire.IsSha256Ref(o) && recordsOf(o) != {}
            && (forall q | q in recordsOf(o) :: lookup(q).Some?)
            && |AllRecords(recordsOf, some)| + |recordsOf(o)| <= MAX_BUNDLE_OBJECTS
  {
    OneMoreObject(recordsOf, some, o);
    UnionLooksUp(lookup, AllRecords(recordsOf, some), recordsOf(o));
    assert o in some + {o} && forall p | p in some + {o} :: p in some || p == o;
  }

  lemma UnionLooksUp(lookup: Lookup<Placed, BundleObject>, a: set<Placed>, b: set<Placed>)
    requires a !! b && forall q | q in a :: lookup(q).Some?
    ensures (forall q | q in a + b :: lookup(q).Some?) <==> (forall q | q in b :: lookup(q).Some?)
    ensures |a + b| == |a| + |b|
  {
    if forall q | q in a + b :: lookup(q).Some? {
      forall q | q in b
        ensures lookup(q).Some?
      {
        assert q in a + b;
      }
    }
  }

  lemma CollectableLess(lookup: Lookup<Placed, BundleObject>, recordsOf: string -> set<Placed>, some: set<string>,
                        all: set<string>)
    requires Collectable(lookup, recordsOf, all) && some <= all
    ensures Collectable(lookup, recordsOf, some)
  {
    SubsetCardinality(AllRecords(recordsOf, some), AllRecords(recordsOf, all));
  }

  /** Looks up the selected objects in the order given, and for each all of its attributions. */
  method CollectObjects(lookup: Lookup<Placed, BundleObject>, recordsOf: string -> set<Placed>, objectIds: seq<string>)
    returns (r: Option<seq<BundleObject>>, ghost order: seq<Placed>)
    requires Separate(recordsOf)
    ensures r.Some? <==> Lex.Distinct(objectIds) && Collectable(lookup, recordsOf, Lex.Elements(objectIds))
    ensures r.Some? ==>
              && EntriesOf(lookup, order, r.value)
              && PlacedSet(order) == AllRecords(recordsOf, Lex.Elements(objectIds))
  {
    var entries: seq<BundleObject> := [];
    var selected: set<string> := {};
    order := [];
    for i := 0 to |objectIds|
      invariant selected == Lex.Elements(objectIds[..i]) && Lex.Distinct(objectIds[..i])
      invariant EntriesOf(lookup, order, entries) && PlacedSet(order) == AllRecords(recordsOf, selected)
      invariant Collectable(lookup, recordsOf, selected)
    {
      var o := objectIds[i];
      SelectedNext(objectIds, i);
      if o in selected {
        return None, order;
      }
      OneMoreObject(recordsOf, selected, o);
      CollectableMore(lookup, recordsOf, selected, o);
      EntryCount(order);
      if Collectable(lookup, recordsOf, Lex.Elements(objectIds)) {
        CollectableLess(lookup, recordsOf, selected + {o}, Lex.Elements(objectIds));
      }
      if !Wire.IsSha256Ref(o) || recordsOf(o) == {} {
        return None, order;
      }
      var more;
      more, order := CollectRecords(lookup, recordsOf(o), entries, order);
      if more.None? {
        return None, order;
      }
      entries := more.value;
      selected := selected + {o};
    }
    assert objectIds[..|objectIds|] == objectIds;
    r := Some(entries);
  }

  lemma SelectedNext(xs: seq<string>, i: nat)
    requires i < |xs| && Lex.Distinct(xs[..i])
    ensures Lex.Elements(xs[..i + 1]) == Lex.Elements(xs[..i]) + {xs[i]} <= Lex.Elements(xs)
    ensures Lex.Distinct(xs[..i + 1]) <==> xs[i] !in Lex.Elements(xs[..i])
    ensures xs[i] in Lex.Elements(xs[..i]) ==> !Lex.Distinct(xs)
  {
  }

  lemma RecordsOfSelection(tree: S.Tree, recordsOf: string -> set<Placed>, objectIds: set<string>)
    requires forall o :: recordsOf(o) == PlacedOf(tree, {o})
    ensures Separate(recordsOf) && AllRecords(recordsOf, objectIds) == PlacedOf(tree, objectIds)
  {
    forall q
      ensures q in AllRecords(recordsOf, objectIds) <==> q in PlacedOf(tree, objectIds)
    {
      if q in PlacedOf(tree, objectIds) {
        assert q in recordsOf(q.key.objectId);
      }
    }
  }

  ghost predicate AllDifferent<T>(xs: seq<T>) {
    forall i, j | 0 <= i < j < |xs| :: xs[i] != xs[j]
  }

  /** Different entries that occur in a listing without repeated attributions are of different attributions. */
  lemma ApartByKeys(entries: seq<BundleObject>, listed: seq<BundleObject>)
    requires AllDifferent(entries) && (forall e | e in entries :: e in listed) && DistinctObjects(listed)
    ensures Ordering.Apart(ObjectLess, entries)
  {
    forall i, j | 0 <= i < j < |entries|
      ensures ObjectLess(entries[i], entries[j]) || ObjectLess(entries[j], entries[i])
    {
      assert entries[i] in listed && entries[j] in listed;
      var k :| 0 <= k < |listed| && listed[k] == entries[i];
      var l :| 0 <= l < |listed| && listed[l] == entries[j];
      ObjectsApart(entries[i], entries[j]);
    }
  }

  lemma AscendingKeys(listed: seq<BundleObject>)
    requires Ordering.Ascending(ObjectLess, listed)
    ensures DistinctObjects(listed)
  {
    forall i, j | 0 <= i < j < |listed|
      ensures KeyOf(listed[i]) != KeyOf(listed[j])
    {
      ObjectsApart(listed[i], listed[j]);
    }
  }

  lemma PeersApart(entries: seq<BundlePeer>)
    requires forall i, j | 0 <= i < j < |entries| :: entries[i].nodeId != entries[j].nodeId
    ensures Ordering.Apart(PeerLess, entries)
  {
    forall i, j | 0 <= i < j < |entries|
      ensures PeerLess(entries[i], entries[j]) || PeerLess(entries[j], entries[i])
    {
      Lex.BeforeTotal(entries[i].nodeId, entries[j].nodeId);
    }
  }

  lemma SortedPeers(x: Ctx, reg: P.Registry, peerIds: seq<string>, entries: seq<BundlePeer>, sorted: seq<BundlePeer>)
    requires P.Sound(x.env, reg) && Lex.Distinct(peerIds) && |entries| == |peerIds|
    requires forall i | 0 <= i < |peerIds| :: PeerEntry(x, reg, peerIds[i]) == Some(entries[i])
    requires multiset(sorted) == multiset(entries)
    ensures Ordering.Apart(PeerLess, entries)
    ensures ListsPeers(x, reg, Lex.Elements(peerIds), sorted)
  {
    forall i | 0 <= i < |peerIds|
      ensures entries[i].nodeId == peerIds[i]
    {
      assert P.Stored(x.env, reg, peerIds[i]);
    }
    PeersApart(entries);
    forall e
      ensures e in sorted <==> exists n :: n in Lex.Elements(peerIds) && PeerEntry(x, reg, n) == Some(e)
    {
      assert e in sorted <==> e in multiset(sorted);
      assert e in entries <==> e in multiset(entries);
      if e in entries {
        var i :| 0 <= i < |entries| && entries[i] == e;
        assert peerIds[i] in Lex.Elements(peerIds);
      }
    }
  }

  /** Entries collected one for one from the records are all different and list the objects. */
  lemma CollectedList(tree: S.Tree, order: seq<Placed>, lookup: Lookup<Placed, BundleObject>,
                      entries: seq<BundleObject>,
                      objectIds: set<string>)
    requires EntriesOf(lookup, order, entries) && PlacedSet(order) == PlacedOf(tree, objectIds)
    requires forall q :: lookup(q) == ObjectEntry(tree, q)
    ensures AllDifferent(entries) && ListsObjects(tree, objectIds, entries)
  {
  }

  lemma FoundIff(tree: S.Tree, lookup: Lookup<Placed, BundleObject>, recordsOf: string -> set<Placed>,
                 objectIds: set<string>)
    requires (forall q :: lookup(q) == ObjectEntry(tree, q)) && (forall o :: recordsOf(o) == PlacedOf(tree, {o}))
    ensures |objectIds| <= MAX_BUNDLE_OBJECTS ==>
              (Collectable(lookup, recordsOf, objectIds) <==> ObjectsFound(tree, objectIds))
  {
    RecordsOfSelection(tree, recordsOf, objectIds);
  }

  method PeerEntries(x: Ctx, reg: P.Registry, peerIds: seq<string>) returns (r: Option<seq<BundlePeer>>)
    requires P.Sound(x.env, reg) && |peerIds| <= MAX_BUNDLE_PEERS
    ensures r.Some? <==> Lex.Distinct(peerIds) && PeersFound(x, reg, Lex.Elements(peerIds))
    ensures r.Some? ==> Ordering.Ascending(PeerLess, r.value) && ListsPeers(x, reg, Lex.Elements(peerIds), r.value)
  {
    var peers := CollectPeers(n => PeerEntry(x, reg, n), peerIds);
    if Lex.Distinct(peerIds) {
      DistinctCount(peerIds);
    }
    if peers.None? {
      return None;
    }
    var sorted := Ordering.Sort(PeerLess, peers.value);
    PeerOrder();
    SortedPeers(x, reg, peerIds, peers.value, sorted);
    r := Some(sorted);
  }

  /** The order among the entries is settled unless one attribution occurs twice. */
  method SortObjects(entries: seq<BundleObject>) returns (sorted: seq<BundleObject>)
    requires AllDifferent(entries)
    ensures forall e :: e in sorted <==> e in entries
    ensures DistinctObjects(sorted) ==> Ordering.Ascending(ObjectLess, sorted)
    ensures forall c | Ordering.Ascending(ObjectLess, c) && (forall e :: e in c <==> e in entries) :: sorted == c
  {
    sorted := Ordering.Sort(ObjectLess, entries);
    ObjectOrder();
    forall e
      ensures e in sorted <==> e in entries
    {
      assert e in sorted <==> e in multiset(sorted);
      assert e in entries <==> e in multiset(entries);
    }
    if DistinctObjects(sorted) {
      ApartByKeys(entries, sorted);
    }
    forall c | Ordering.Ascending(ObjectLess, c) && (forall e :: e in c <==> e in entries)
      ensures sorted == c
    {
      AscendingKeys(c);
      ApartByKeys(entries, c);
      Ordering.AscendingUnique(ObjectLess, sorted, c);
    }
  }

  method ObjectEntries(tree: S.Tree, objectIds: seq<string>) returns (r: Option<seq<BundleObject>>)
    requires |objectIds| <= MAX_BUNDLE_OBJECTS
    ensures r.Some? <==> Lex.Distinct(objectIds) && ObjectsFound(tree, Lex.Elements(objectIds))
    ensures r.Some? ==> ListsObjects(tree, Lex.Elements(objectIds), r.value)
    ensures r.Some? && DistinctObjects(r.value) ==> Ordering.Ascending(ObjectLess, r.value)
    ensures r.Some? ==>
              forall c | Ordering.Ascending(ObjectLess, c) && ListsObjects(tree, Lex.Elements(objectIds), c) ::
                r.value == c
  {
    ghost var objectSet := Lex.Elements(objectIds);
    var lookup := (q: Placed) => ObjectEntry(tree, q);
    var recordsOf := (o: string) => PlacedOf(tree, {o});
    RecordsOfSelection(tree, recordsOf, objectSet);
    FoundIff(tree, lookup, recordsOf, objectSet);
    var objects, order := CollectObjects(lookup, recordsOf, objectIds);
    if Lex.Distinct(objectIds) {
      DistinctCount(objectIds);
    }
    if objects.None? {
      return None;
    }
    CollectedList(tree, order, lookup, objects.value, objectSet);
    var sorted := SortObjects(objects.value);
    SameListing(tree, objectSet, objects.value);
    r := Some(sorted);
  }

  lemma SameListing(tree: S.Tree, objectIds: set<string>, a: seq<BundleObject>)
    requires ListsObjects(tree, objectIds, a)
    ensures forall c :: ListsObjects(tree, objectIds, c) <==> forall e :: e in c <==> e in a
  {
  }

  lemma IdsAreAscii(s: string)
    ensures Wire.IsNodeId(s) || Wire.IsSha256Ref(s) ==> Ascii(s)
  {
    if Wire.IsNodeId(s) || Wire.IsSha256Ref(s) {
      var prefix := if Wire.IsNodeId(s) then "fed:qsol:" else "sha256:";
      assert Ascii(prefix);
      forall i | 0 <= i < |s|
        ensures s[i] < '\U{80}'
      {
        if i < |prefix| {
          assert s[i] == s[..|prefix|][i] == prefix[i];
        }
      }
    }
  }

  lemma HexIsAscii(b: Bytes)
    requires Hex.Encode(b).Some?
    ensures Ascii(Hex.Encode(b).value)
  {
    Hex.WrittenReads(b);
  }

  lemma {:induction false} EmbeddedAscii(x: Ctx, records: seq<K.Record>)
    requires EmbedRecords(x, records).Some?
    ensures forall t | t in EmbedRecords(x, records).value :: Ascii(t)
  {
    if records != [] {
      HexIsAscii(x.codec.recordBytes(records[0]).value);
      EmbeddedAscii(x, records[1..]);
    }
  }

  lemma PeerEntryAscii(x: Ctx, reg: P.Registry, n: string)
    requires P.Sound(x.env, reg) && PeerEntry(x, reg, n).Some?
    ensures AsciiPeer(PeerEntry(x, reg, n).value)
  {
    assert P.Stored(x.env, reg, n);
    IdsAreAscii(n);
    HexIsAscii(x.codec.identityBytes(reg[n].identity).value);
    EmbeddedAscii(x, reg[n].lifecycle);
    if reg[n].advertisement.Some? {
      HexIsAscii(x.codec.advertisementBytes(reg[n].advertisement.value).value);
    }
  }

  lemma ObjectEntryAscii(tree: S.Tree, q: Placed)
    requires ObjectEntry(tree, q).Some?
    ensures AsciiObject(ObjectEntry(tree, q).value)
  {
    var k := q.key;
    IdsAreAscii(k.objectId);
    IdsAreAscii(k.sourceNode);
    HexIsAscii(tree.objects[k.objectId]);
    if k.provenanceId.Some? {
      IdsAreAscii(k.provenanceId.value);
      HexIsAscii(tree.provenance[k.provenanceId.value]);
    }
  }

  lemma ListedAscii(x: Ctx, tree: S.Tree, reg: P.Registry, peerIds: set<string>, objectIds: set<string>, b: Bundle)
    requires P.Sound(x.env, reg) && Wire.IsNodeId(b.exporter)
    requires b.schema == BUNDLE_SCHEMA && b.protocol == PROTOCOL && b.authority == "none"
    requires ListsPeers(x, reg, peerIds, b.peers) && ListsObjects(tree, objectIds, b.objects)
    ensures AsciiBundle(b)
  {
    IdsAreAscii(b.exporter);
    forall p | p in b.peers
      ensures AsciiPeer(p)
    {
      var n :| n in peerIds && PeerEntry(x, reg, n) == Some(p);
      PeerEntryAscii(x, reg, n);
    }
    forall o | o in b.objects
      ensures AsciiObject(o)
    {
      var q :| q in PlacedOf(tree, objectIds) && ObjectEntry(tree, q) == Some(o);
      ObjectEntryAscii(tree, q);
    }
  }

  /** Encodes a bundle and verifies what it encoded. */
  method EncodeBundle(x: Ctx, b: Bundle) returns (r: Option<Bytes>)
    requires Lawful(x) && AsciiBundle(b)
    ensures r.Some? ==> x.codec.bundleBytes(b) == r && Verify(x, r.value) == Some(b)
    ensures r.None? ==> forall raw :: !(x.codec.bundleBytes(b) == Some(raw) && Verify(x, raw) == Some(b))
  {
    assert x.codec.bundleInC(b);
    var raw := x.codec.bundleBytes(b);
    if raw.None? || |raw.value| > MAX_BUNDLE_BYTES {
      return None;
    }
    var report := VerifyBundle(x, raw.value);
    r := if report.None? then None else raw;
  }

  /** `export_bundle`: succeeds exactly on selections without repetition that have a bundle whose bytes verify, and
      then returns those bytes.  Nothing else about the order of the selections enters. */
  method ExportBundle(x: Ctx, tree: S.Tree, reg: P.Registry, exporter: string, createdAt: K.Stamp,
                      peerIds: seq<string>, objectIds: seq<string>) returns (r: Option<Bytes>)
    requires Lawful(x) && P.Sound(x.env, reg)
    ensures r.Some? ==>
              && Lex.Distinct(peerIds) && Lex.Distinct(objectIds)
              && Exportable(x, tree, reg, exporter, createdAt, Lex.Elements(peerIds), Lex.Elements(objectIds), r.value)
    ensures r.None? && Lex.Distinct(peerIds) && Lex.Distinct(objectIds) ==>
              forall raw ::
                !Exportable(x, tree, reg, exporter, createdAt, Lex.Elements(peerIds), Lex.Elements(objectIds), raw)
  {
    ghost var peerSet, objectSet := Lex.Elements(peerIds), Lex.Elements(objectIds);
    if !Wire.IsNodeId(exporter) || createdAt.Malformed? {
      return None;
    }
    if |peerIds| > MAX_BUNDLE_PEERS || |objectIds| > MAX_BUNDLE_OBJECTS {
      if Lex.Distinct(peerIds) && Lex.Distinct(objectIds) {
        DistinctCount(peerIds);
        DistinctCount(objectIds);
      }
      return None;
    }
    var peers := PeerEntries(x, reg, peerIds);
    if peers.None? {
      return None;
    }
    var objects := ObjectEntries(tree, objectIds);
    if objects.None? {
      return None;
    }
    var b := Bundle(BUNDLE_SCHEMA, PROTOCOL, exporter, createdAt, peers.value, objects.value, "none");
    forall c | Exports(x, tree, reg, exporter, createdAt, peerSet, objectSet, c)
      ensures c == b
    {
      SamePeerListing(x, reg, peerSet, b.peers, c.peers);
    }
    ListedAscii(x, tree, reg, peerSet, objectSet, b);
    r := EncodeBundle(x, b);
    if r.Some? {
      VerifiedExports(x, tree, reg, exporter, createdAt, peerSet, objectSet, b, r.value);
    }
  }

  lemma VerifiedExports(x: Ctx, tree: S.Tree, reg: P.Registry, exporter: string, createdAt: K.Stamp,
                        peerIds: set<string>, objectIds: set<string>, b: Bundle, raw: Bytes)
    requires b == Bundle(BUNDLE_SCHEMA, PROTOCOL, exporter, createdAt, b.peers, b.objects, "none")
    requires PeersFound(x, reg, peerIds) && ObjectsFound(tree, objectIds)
    requires Ordering.Ascending(PeerLess, b.peers) && ListsPeers(x, reg, peerIds, b.peers)
    requires DistinctObjects(b.objects) ==> Ordering.Ascending(ObjectLess, b.objects)
    requires ListsObjects(tree, objectIds, b.objects)
    requires x.codec.bundleBytes(b) == Some(raw) && Verify(x, raw) == Some(b)
    ensures Exportable(x, tree, reg, exporter, createdAt, peerIds, objectIds, raw)
  {
    assert ObjectsOk(x, b.objects);
    assert Exports(x, tree, reg, exporter, createdAt, peerIds, objectIds, b);
  }

  lemma SamePeerListing(x: Ctx, reg: P.Registry, peerIds: set<string>, a: seq<BundlePeer>, b: seq<BundlePeer>)
    requires Ordering.Ascending(PeerLess, a) && Ordering.Ascending(PeerLess, b)
    requires ListsPeers(x, reg, peerIds, a) && ListsPeers(x, reg, peerIds, b)
    ensures a == b
  {
    PeerOrder();
    Ordering.AscendingUnique(PeerLess, a, b);
  }

  /** Exporting the same selection in any two orders gives the same answer: the same bytes, or no bundle both times. */
  method ExportInTwoOrders(x: Ctx, tree: S.Tree, reg: P.Registry, exporter: string, createdAt: K.Stamp,
                           peerIds: seq<string>, objectIds: seq<string>, peerIds': seq<string>, objectIds': seq<string>)
    returns (a: Option<Bytes>, b: Option<Bytes>)
    requires Lawful(x) && P.Sound(x.env, reg)
    requires multiset(peerIds) == multiset(peerIds') && multiset(objectIds) == multiset(objectIds')
    ensures a == b
  {
    a := ExportBundle(x, tree, reg, exporter, createdAt, peerIds, objectIds);
    b := ExportBundle(x, tree, reg, exporter, createdAt, peerIds', objectIds');
    SameSelection(peerIds, peerIds');
    SameSelection(objectIds, objectIds');
    SameSelection(peerIds', peerIds);
    SameSelection(objectIds', objectIds);
    ghost var peerSet, objectSet := Lex.Elements(peerIds), Lex.Elements(objectIds);
    if a.Some? && b.Some? {
      ghost var c :| Exports(x, tree, reg, exporter, createdAt, peerSet, objectSet, c) && x.codec.bundleBytes(c) == a;
      ghost var d :| Exports(x, tree, reg, exporter, createdAt, peerSet, objectSet, d) && x.codec.bundleBytes(d) == b;
      OneBundle(x, tree, reg, exporter, createdAt, peerSet, objectSet, c, d);
    }
  }

  lemma SameSelection(a: seq<string>, b: seq<string>)
    requires multiset(a) == multiset(b)
    ensures Lex.Elements(a) == Lex.Elements(b) && (Lex.Distinct(a) ==> Lex.Distinct(b))
  {
    forall x
      ensures x in a <==> x in b
    {
      assert x in a <==> x in multiset(a);
      assert x in b <==> x in multiset(b);
    }
    if Lex.Distinct(a) {
      DistinctCount(a);
      CountsOnce(b);
    }
  }

  lemma {:induction false} CountsOnce(xs: seq<string>)
    ensures |Lex.Elements(xs)| <= |xs|
    ensures |Lex.Elements(xs)| == |xs| ==> Lex.Distinct(xs)
  {
    if xs != [] {
      var n := |xs| - 1;
      CountsOnce(xs[..n]);
      assert Lex.Elements(xs) == Lex.Elements(xs[..n]) + {xs[n]};
      if |Lex.Elements(xs)| == |xs| {
        forall i | 0 <= i < n
          ensures xs[i] != xs[n]
        {
          assert xs[..n][i] in Lex.Elements(xs[..n]);
        }
      }
    }
  }

  // ---------------------------------------------------------------- what verification means

  /** The text is hexadecimal for canonical bytes. */
  predicate Holds(x: Ctx, text: string, b: Bytes) {
    Hex.Decode(text) == Some(b) && x.content.canonical(b)
  }

  /** The entry's identity, history and advertisement are readable, the identity is the named node's, the history is
      accepted, and the advertisement is signed. */
  predicate PeerVouchedFor(x: Ctx, p: BundlePeer) {
    && Wire.IsNodeId(p.nodeId) && |p.lifecycleHex| <= 512
    && var q := ReadPeer(x, p);
       && q.Some? && q.value.document.nodeId == p.nodeId
       && K.Rebuild(x.env.crypto, q.value.document, q.value.records).Ok?
       && (q.value.advertisement.Some? ==>
             P.SignedFor(x.env, q.value.advertisement.value, q.value.document, q.value.records))
  }

  /** The entry holds the object it names, and a provenance document if it names one, which says that this source
      provided this object. */
  ghost predicate ObjectVouchedFor(x: Ctx, o: BundleObject) {
    && Wire.IsSha256Ref(o.objectId) && Wire.IsNodeId(o.sourceNode)
    && (exists b :: Holds(x, o.objectHex, b) && x.content.refOf(b) == o.objectId)
    && match (o.provenanceId, o.provenanceHex)
       case (None, None) => true
       case (Some(id), Some(text)) =>
         && Wire.IsSha256Ref(id)
         && exists raw :: Holds(x, text, raw) && x.content.refOf(raw) == id
                          && x.content.provenanceOf(raw) == Some((o.sourceNode, o.objectId))
       case _ => false
  }

  lemma PeerOkIff(x: Ctx, p: BundlePeer)
    ensures PeerOk(x, p) <==> PeerVouchedFor(x, p)
  {
    var q := ReadPeer(x, p);
    if q.Some? && q.value.advertisement.Some? {
      var s := K.Rebuild(x.env.crypto, q.value.document, q.value.records);
      if s.Ok? {
        P.VerifiesIffSigned(x.env, q.value.advertisement.value, s.value);
      }
    }
  }

  lemma ObjectOkIff(x: Ctx, o: BundleObject)
    ensures ObjectOk(x, o) <==> ObjectVouchedFor(x, o)
  {
    if ObjectOk(x, o) {
      assert Holds(x, o.objectHex, ReadItem(x, o).value.bytes);
      if o.provenanceId.Some? {
        assert Holds(x, o.provenanceHex.value, ReadItem(x, o).value.provenance.value);
      }
    }
  }

  /** Bytes verify as a bundle exactly if they are canonical, not too many, and hold a bundle of this schema and
      protocol without authority, whose peers and attributions are all different, within the limits, and vouched for. */
  lemma VerifiedIff(x: Ctx, raw: Bytes, b: Bundle)
    ensures Verify(x, raw) == Some(b) <==>
            && |raw| <= 65_536 && x.content.canonical(raw) && x.codec.bundleOf(raw) == Some(b)
            && b.schema == "qsol-fed-bundle/1" && b.protocol == "qsol-fed/1" && b.authority == "none"
            && Wire.IsNodeId(b.exporter) && b.createdAt.At? && |b.peers| <= 256 && |b.objects| <= 1_024
            && DistinctPeers(b.peers) && DistinctObjects(b.objects)
            && (forall i | 0 <= i < |b.peers| :: PeerVouchedFor(x, b.peers[i]))
            && (forall i | 0 <= i < |b.objects| :: ObjectVouchedFor(x, b.objects[i]))
    ensures Verify(x, raw) == Some(b) ==>
              ReportOf(x, raw) == Some(Report(x.content.refOf(raw), |b.peers|, |b.objects|))
  {
    forall i | 0 <= i < |b.peers|
      ensures PeerOk(x, b.peers[i]) <==> PeerVouchedFor(x, b.peers[i])
    {
      PeerOkIff(x, b.peers[i]);
    }
    forall i | 0 <= i < |b.objects|
      ensures ObjectOk(x, b.objects[i]) <==> ObjectVouchedFor(x, b.objects[i])
    {
      ObjectOkIff(x, b.objects[i]);
    }
  }

  // ---------------------------------------------------------------- what can be selected

  /** A selection covers exactly the records of its objects, in both namespaces. */
  lemma PlacedIff(tree: S.Tree, objectIds: set<string>, q: Placed)
    ensures q in PlacedOf(tree, objectIds) <==> q.key in S.Dir(tree, q.namespace) && q.key.objectId in objectIds
    ensures q in PlacedOf(tree, objectIds) ==> q.key in S.Attributions(tree)
  {
  }

  lemma AttributionPlaced(tree: S.Tree, objectIds: set<string>, k: S.Key) returns (q: Placed)
    requires k in S.Attributions(tree) && k.objectId in objectIds
    ensures q in PlacedOf(tree, objectIds) && q.key == k
  {
    q := Placed(if k in tree.foreign then S.Foreign else S.Quarantine, k);
  }

  /** Bytes that fit into a bundle as hexadecimal text. */
  predicate Embeds(b: Option<Bytes>) {
    b.Some? && |b.value| <= 4_096
  }

  lemma {:induction false} RecordsEmbedIff(x: Ctx, records: seq<K.Record>)
    ensures EmbedRecords(x, records).Some? <==> forall k | k in records :: Embeds(x.codec.recordBytes(k))
  {
    if records != [] {
      RecordsEmbedIff(x, records[1..]);
      assert forall k :: k in records <==> k == records[0] || k in records[1..];
    }
  }

  /** A peer can be exported exactly if it is stored and nothing of it is too large. */
  lemma PeerEntryIff(x: Ctx, reg: P.Registry, n: string)
    requires P.Sound(x.env, reg)
    ensures PeerEntry(x, reg, n).Some? <==>
            && n in reg && Embeds(x.codec.identityBytes(reg[n].identity))
            && (forall k | k in reg[n].lifecycle :: Embeds(x.codec.recordBytes(k)))
            && (reg[n].advertisement.Some? ==> Embeds(x.codec.advertisementBytes(reg[n].advertisement.value)))
  {
    assert P.Stored(x.env, reg, n);
    if n in reg {
      RecordsEmbedIff(x, reg[n].lifecycle);
    }
  }

  /** An object can be exported with an attribution exactly if both are well named and their content is there and not
      too large. */
  lemma ObjectEntryIff(tree: S.Tree, q: Placed)
    ensures ObjectEntry(tree, q).Some? <==>
            && var k := q.key;
            && Wire.IsSha256Ref(k.objectId) && Wire.IsNodeId(k.sourceNode)
            && k.objectId in tree.objects && |tree.objects[k.objectId]| <= 4_096
            && (k.provenanceId.Some? ==>
                  && Wire.IsSha256Ref(k.provenanceId.value)
                  && k.provenanceId.value in tree.provenance && |tree.provenance[k.provenanceId.value]| <= 4_096)
  {
  }
}
