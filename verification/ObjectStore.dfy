/** The content-addressed object store and its crash-recoverable namespace move (src/store.rs).

    The directory tree is a record of maps.  One completed `write_exact_or_same` and one completed removal are
    atomic; a crash may fall between any two of them.  An attribution id is modelled by what it hashes. */
module ObjectStore {
  import opened Wrappers
  import opened KeyLifecycle
  import Utf8
  import Wire

  type Bytes = seq<Utf8.byte>

  datatype Namespace = Foreign | Quarantine

  function Other(n: Namespace): Namespace {
    if n == Foreign then Quarantine else Foreign
  }

  /** An object together with one attribution of it: the directory and the name of a record file. */
  datatype Key = Key(objectId: string, sourceNode: string, provenanceId: Option<string>)

  datatype ForeignRecord = ForeignRecord(key: Key, namespace: Namespace, receivedAt: int)

  datatype Move = Move(objectId: string, target: Namespace, changedAt: int)

  type Directory = map<Key, ForeignRecord>

  datatype Tree = Tree(
    objects: map<string, Bytes>, provenance: map<string, Bytes>,
    foreign: Directory, quarantine: Directory, markers: map<string, Move>)

  function Dir(t: Tree, n: Namespace): Directory {
    if n == Foreign then t.foreign else t.quarantine
  }

  function SetDir(t: Tree, n: Namespace, d: Directory): Tree {
    if n == Foreign then t.(foreign := d) else t.(quarantine := d)
  }

  /** The attributions the tree holds, wherever they lie. */
  function Attributions(t: Tree): set<Key> {
    t.foreign.Keys + t.quarantine.Keys
  }

  // ---------------------------------------------------------------- where a pending move leads

  /** The record a move writes at its target. */
  function Moved(r: ForeignRecord, tx: Move): ForeignRecord {
    r.(namespace := tx.target, receivedAt := tx.changedAt)
  }

  /** The record that ends up in namespace n under k, if any. */
  function Final(t: Tree, n: Namespace, k: Key): Option<ForeignRecord> {
    if k.objectId in t.markers && t.markers[k.objectId].target != n then None
    else if k in Dir(t, n) then Some(Dir(t, n)[k])
    else if k.objectId in t.markers && k in Dir(t, Other(n))
    then Some(Moved(Dir(t, Other(n))[k], t.markers[k.objectId]))
    else None
  }

  function SettledDir(t: Tree, n: Namespace): Directory {
    map k | k in Attributions(t) && Final(t, n, k).Some? :: Final(t, n, k).value
  }

  /** The tree with every pending move carried out and no marker left. */
  function Settled(t: Tree): Tree {
    t.(foreign := SettledDir(t, Foreign), quarantine := SettledDir(t, Quarantine), markers := map[])
  }

  /** Files fit their paths, and an attribution is in two namespaces only while a pending move has put it there. */
  predicate KeyOk(t: Tree, k: Key) {
    && (k in t.foreign ==> t.foreign[k].key == k && t.foreign[k].namespace == Foreign)
    && (k in t.quarantine ==> t.quarantine[k].key == k && t.quarantine[k].namespace == Quarantine)
    && (k in t.foreign && k in t.quarantine ==>
          && k.objectId in t.markers
          && var tx := t.markers[k.objectId];
             Dir(t, tx.target)[k] == Moved(Dir(t, Other(tx.target))[k], tx))
  }

  function RecordsOf(t: Tree, o: string): set<Key> {
    set k | k in Attributions(t) && k.objectId == o
  }

  /** A pending move has something to move. */
  predicate MarkerOk(t: Tree, o: string) {
    o in t.markers ==> t.markers[o].objectId == o && RecordsOf(t, o) != {}
  }

  ghost predicate Consistent(t: Tree) {
    (forall k :: KeyOk(t, k)) && (forall o :: MarkerOk(t, o))
  }

  /** The two trees hold the same content and lead to the same placement of the same attributions. */
  ghost predicate SameDestination(t: Tree, u: Tree) {
    && t.objects == u.objects && t.provenance == u.provenance && Attributions(t) == Attributions(u)
    && forall n, k :: Final(t, n, k) == Final(u, n, k)
  }

  lemma DirReached(t: Tree, u: Tree, n: Namespace)
    requires SameDestination(t, u) && u.markers == map[]
    ensures SettledDir(t, n) == Dir(u, n)
  {
  }

  /** A tree without markers is its own destination, so it is determined by where it leads. */
  lemma DestinationReached(t: Tree, u: Tree)
    requires SameDestination(t, u) && u.markers == map[]
    ensures u == Settled(t)
  {
    DirReached(t, u, Foreign);
    DirReached(t, u, Quarantine);
  }

  /** Settling leaves each attribution in exactly one namespace: the target of its move if it had one, with the time of
      the move on its record unless that was there already, and otherwise where it was, with its record untouched.
      Nothing is lost and nothing appears. */
  lemma SettledSpec(t: Tree, k: Key)
    requires Consistent(t)
    ensures k in Attributions(Settled(t)) <==> k in Attributions(t)
    ensures !(k in Settled(t).foreign && k in Settled(t).quarantine)
    ensures k in Attributions(t) && k.objectId in t.markers ==>
              var tx := t.markers[k.objectId];
              && k in Dir(Settled(t), tx.target)
              && Dir(Settled(t), tx.target)[k] ==
                 if k in Dir(t, tx.target) then Dir(t, tx.target)[k] else ForeignRecord(k, tx.target, tx.changedAt)
    ensures forall n | k in Dir(t, n) && k.objectId !in t.markers ::
              k in Dir(Settled(t), n) && Dir(Settled(t), n)[k] == Dir(t, n)[k]
  {
    assert KeyOk(t, k);
    assert k in Attributions(t) ==> Final(t, Foreign, k).Some? || Final(t, Quarantine, k).Some?;
  }

  /** u is t after the move: the records of the object lie at the target, those that came over marked with its time,
      and everything else is as it was. */
  ghost predicate Carried(t: Tree, tx: Move, u: Tree) {
    && u.objects == t.objects && u.provenance == t.provenance && u.markers == map[]
    && forall k :: CarriedKey(t, tx, u, k)
  }

  predicate CarriedKey(t: Tree, tx: Move, u: Tree, k: Key) {
    if k.objectId != tx.objectId then
      forall n {:trigger Dir(u, n)} ::
        (k in Dir(u, n) <==> k in Dir(t, n)) && (k in Dir(t, n) ==> Dir(u, n)[k] == Dir(t, n)[k])
    else
      && k !in Dir(u, Other(tx.target))
      && (k in Dir(u, tx.target) <==> k in Attributions(t))
      && (k in Dir(u, tx.target) ==>
            Dir(u, tx.target)[k] ==
            if k in Dir(t, tx.target) then Dir(t, tx.target)[k] else ForeignRecord(k, tx.target, tx.changedAt))
  }

  // ---------------------------------------------------------------- each durable action keeps the destination

  lemma SameMarkersOk(t: Tree, u: Tree)
    requires Consistent(t) && u.markers.Keys <= t.markers.Keys && Attributions(u) == Attributions(t)
    requires forall o | o in u.markers :: u.markers[o] == t.markers[o]
    ensures forall o :: MarkerOk(u, o)
  {
    forall o
      ensures MarkerOk(u, o)
    {
      assert MarkerOk(t, o) && RecordsOf(u, o) == RecordsOf(t, o);
    }
  }

  /** u is t after the move of k has been written at its target. */
  ghost predicate Written(t: Tree, tx: Move, k: Key, u: Tree) {
    && k.objectId in t.markers && t.markers[k.objectId] == tx
    && k in Dir(t, Other(tx.target)) && k !in Dir(t, tx.target)
    && u == SetDir(t, tx.target, Dir(t, tx.target)[k := Moved(Dir(t, Other(tx.target))[k], tx)])
  }

  lemma WrittenKey(t: Tree, tx: Move, k: Key, u: Tree, x: Key)
    requires Written(t, tx, k, u) && KeyOk(t, x)
    ensures KeyOk(u, x)
  {
  }

  lemma WrittenFinal(t: Tree, tx: Move, k: Key, u: Tree, n: Namespace, x: Key)
    requires Written(t, tx, k, u)
    ensures Final(u, n, x) == Final(t, n, x)
  {
  }

  lemma WritingTarget(t: Tree, tx: Move, k: Key, u: Tree)
    requires Consistent(t) && Written(t, tx, k, u)
    ensures Consistent(u) && SameDestination(u, t)
  {
    assert Attributions(u) == Attributions(t);
    SameMarkersOk(t, u);
    forall x
      ensures KeyOk(u, x)
    {
      WrittenKey(t, tx, k, u, x);
    }
    forall n, x
      ensures Final(u, n, x) == Final(t, n, x)
    {
      WrittenFinal(t, tx, k, u, n, x);
    }
  }

  /** u is t after the source of the moved k has been removed. */
  ghost predicate Removed(t: Tree, tx: Move, k: Key, u: Tree) {
    && k.objectId in t.markers && t.markers[k.objectId] == tx
    && k in Dir(t, Other(tx.target)) && k in Dir(t, tx.target)
    && u == SetDir(t, Other(tx.target), Dir(t, Other(tx.target)) - {k})
  }

  lemma RemovedKey(t: Tree, tx: Move, k: Key, u: Tree, x: Key)
    requires Removed(t, tx, k, u) && KeyOk(t, x)
    ensures KeyOk(u, x)
  {
  }

  lemma RemovedFinal(t: Tree, tx: Move, k: Key, u: Tree, n: Namespace, x: Key)
    requires Removed(t, tx, k, u)
    ensures Final(u, n, x) == Final(t, n, x)
  {
    assert Dir(u, tx.target) == Dir(t, tx.target);
  }

  lemma RemovingSource(t: Tree, tx: Move, k: Key, u: Tree)
    requires Consistent(t) && Removed(t, tx, k, u)
    ensures Consistent(u) && SameDestination(u, t)
  {
    assert Attributions(u) == Attributions(t);
    SameMarkersOk(t, u);
    forall x
      ensures KeyOk(u, x)
    {
      RemovedKey(t, tx, k, u, x);
    }
    forall n, x
      ensures Final(u, n, x) == Final(t, n, x)
    {
      RemovedFinal(t, tx, k, u, n, x);
    }
  }

  lemma RemovingMarker(t: Tree, tx: Move, u: Tree)
    requires Consistent(t) && tx.objectId in t.markers && t.markers[tx.objectId] == tx
    requires forall k | k in RecordsOf(t, tx.objectId) :: k !in Dir(t, Other(tx.target))
    requires u == t.(markers := t.markers - {tx.objectId})
    ensures Consistent(u) && SameDestination(u, t)
  {
    SameMarkersOk(t, u);
    forall k
      ensures KeyOk(u, k)
    {
      assert KeyOk(t, k);
      assert k.objectId == tx.objectId && k in Attributions(t) ==> k in RecordsOf(t, tx.objectId);
    }
    forall n, k
      ensures Final(u, n, k) == Final(t, n, k)
    {
      assert k.objectId == tx.objectId && k in Attributions(t) ==> k in RecordsOf(t, tx.objectId);
    }
  }

  // ---------------------------------------------------------------- storing

  datatype StoreError =
    | IdentityOrTimeInvalid | NotCanonical | ProvenanceMismatch | Conflict
    | MoveInvalid | RecordNotFound | LostAllAttributions

  /** SHA-256 references, the canonical-form check and the reading of a valid provenance document (its source node
      and source object). */
  datatype Content = Content(
    refOf: Bytes -> string, canonical: Bytes -> bool, provenanceOf: Bytes -> Option<(string, string)>)

  /** `write_exact_or_same`: an existing file is left alone, and must already hold the bytes. */
  function WriteExact(files: map<string, Bytes>, path: string, bytes: Bytes): Option<map<string, Bytes>> {
    if path !in files then Some(files[path := bytes])
    else if files[path] == bytes then Some(files)
    else None
  }

  function ProvenanceError(c: Content, sourceNode: string, objectRef: string, raw: Bytes): Option<StoreError> {
    if !c.canonical(raw) then Some(NotCanonical)
    else if c.provenanceOf(raw) != Some((sourceNode, objectRef)) then Some(ProvenanceMismatch)
    else None
  }

  /** The content files `put_foreign` writes before it records the attribution. */
  function StoreContent(c: Content, t: Tree, sourceNode: string, bytes: Bytes, provenance: Option<Bytes>)
    : (r: (Tree, Option<StoreError>))
    ensures r.0 == t.(objects := r.0.objects, provenance := r.0.provenance)
  {
    if !c.canonical(bytes) then (t, Some(NotCanonical))
    else
      var ref := c.refOf(bytes);
      var bad := if provenance.None? then None else ProvenanceError(c, sourceNode, ref, provenance.value);
      if bad.Some? then (t, bad)
      else
        var provenances := if provenance.None? then Some(t.provenance)
                           else WriteExact(t.provenance, c.refOf(provenance.value), provenance.value);
        if provenances.None? then (t, Some(Conflict))
        else
          var objects := WriteExact(t.objects, ref, bytes);
          if objects.None? then (t.(provenance := provenances.value), Some(Conflict))
          else (t.(provenance := provenances.value, objects := objects.value), None)
  }

  function KeyOf(c: Content, sourceNode: string, bytes: Bytes, provenance: Option<Bytes>): Key {
    Key(c.refOf(bytes), sourceNode, if provenance.None? then None else Some(c.refOf(provenance.value)))
  }

  /** `put_foreign`: an attribution that is already recorded keeps its record and its namespace. */
  function PutResult(c: Content, t: Tree, sourceNode: string, bytes: Bytes, provenance: Option<Bytes>,
                     namespace: Namespace, receivedAt: Stamp): (Tree, Result<ForeignRecord, StoreError>)
  {
    if !Wire.IsNodeId(sourceNode) || receivedAt.Malformed? then (t, Err(IdentityOrTimeInvalid))
    else
      var (stored, bad) := StoreContent(c, t, sourceNode, bytes, provenance);
      if bad.Some? then (stored, Err(bad.value))
      else
        var k := KeyOf(c, sourceNode, bytes, provenance);
        if k in t.foreign then (stored, Ok(t.foreign[k]))
        else if k in t.quarantine then (stored, Ok(t.quarantine[k]))
        else
          var record := ForeignRecord(k, namespace, receivedAt.unix);
          (SetDir(stored, namespace, Dir(t, namespace)[k := record]), Ok(record))
  }

  lemma AddedRecord(t: Tree, n: Namespace, k: Key, receivedAt: int, u: Tree)
    requires Consistent(t) && k !in Attributions(t)
    requires u.markers == t.markers && Dir(u, Other(n)) == Dir(t, Other(n))
    requires Dir(u, n) == Dir(t, n)[k := ForeignRecord(k, n, receivedAt)]
    ensures Consistent(u)
  {
    forall x
      ensures KeyOk(u, x)
    {
      assert KeyOk(t, x);
    }
    forall o
      ensures MarkerOk(u, o)
    {
      assert MarkerOk(t, o) && RecordsOf(t, o) <= RecordsOf(u, o);
    }
  }

  lemma SameRecords(t: Tree, u: Tree)
    requires Consistent(t) && u.markers == t.markers && u.foreign == t.foreign && u.quarantine == t.quarantine
    ensures Consistent(u)
  {
    forall x
      ensures KeyOk(u, x)
    {
      assert KeyOk(t, x);
    }
    SameMarkersOk(t, u);
  }

  /** At most one record file is added, and only for an attribution that has none. */
  lemma PutForeignShape(c: Content, t: Tree, sourceNode: string, bytes: Bytes, provenance: Option<Bytes>,
                        n: Namespace, receivedAt: Stamp)
    ensures var u := PutResult(c, t, sourceNode, bytes, provenance, n, receivedAt).0;
            var k := KeyOf(c, sourceNode, bytes, provenance);
            && u.markers == t.markers && Dir(u, Other(n)) == Dir(t, Other(n))
            && (|| Dir(u, n) == Dir(t, n)
                || (&& k !in Attributions(t) && receivedAt.At?
                    && Dir(u, n) == Dir(t, n)[k := ForeignRecord(k, n, receivedAt.unix)]))
  {
    var stored := StoreContent(c, t, sourceNode, bytes, provenance).0;
    assert stored.foreign == t.foreign && stored.quarantine == t.quarantine;
  }

  /** `put_foreign` keeps the tree consistent, starts no move, changes no record and forgets no attribution. */
  lemma PutForeignKeeps(c: Content, t: Tree, sourceNode: string, bytes: Bytes, provenance: Option<Bytes>,
                        n: Namespace, receivedAt: Stamp)
    requires Consistent(t)
    ensures var u := PutResult(c, t, sourceNode, bytes, provenance, n, receivedAt).0;
            && Consistent(u) && u.markers == t.markers && Attributions(t) <= Attributions(u)
            && (forall m, k | k in Dir(t, m) :: k in Dir(u, m) && Dir(u, m)[k] == Dir(t, m)[k])
  {
    PutForeignShape(c, t, sourceNode, bytes, provenance, n, receivedAt);
    var u := PutResult(c, t, sourceNode, bytes, provenance, n, receivedAt).0;
    if Dir(u, n) == Dir(t, n) {
      SameRecords(t, u);
    } else {
      AddedRecord(t, n, KeyOf(c, sourceNode, bytes, provenance), receivedAt.unix, u);
    }
  }

  // ---------------------------------------------------------------- moving, with crashes

  /** How long the process lives: forever, or for a number of durable actions. */
  datatype Power = Steady | For(actions: nat)

  function Spend(p: Power): Power
    requires p != For(0)
  {
    if p.Steady? then p else For(p.actions - 1)
  }

  datatype Outcome = Done | Crashed | Failed(error: StoreError)

  /** The tree an uninterrupted move leaves. */
  function MoveResult(t: Tree, tx: Move): Tree {
    Settled(t.(markers := t.markers[tx.objectId := tx]))
  }

  lemma SameDestinationTransitive(t: Tree, u: Tree, v: Tree)
    requires SameDestination(t, u) && SameDestination(u, v)
    ensures SameDestination(t, v)
  {
  }

  lemma MoveCarriesKey(t: Tree, tx: Move, k: Key)
    requires Consistent(t) && t.markers == map[] && RecordsOf(t, tx.objectId) != {}
    ensures CarriedKey(t, tx, MoveResult(t, tx), k)
  {
    var marked := t.(markers := t.markers[tx.objectId := tx]);
    MarkedConsistent(t, tx, marked);
    SettledSpec(marked, k);
    assert KeyOk(t, k) && KeyOk(marked, k);
    var u := MoveResult(t, tx);
    assert k in Attributions(marked) <==> k in Attributions(t);
    forall n: Namespace
      ensures k.objectId != tx.objectId ==>
                (k in Dir(u, n) <==> k in Dir(t, n)) && (k in Dir(t, n) ==> Dir(u, n)[k] == Dir(t, n)[k])
    {
      assert k in SettledDir(marked, n) <==> k in Attributions(marked) && Final(marked, n, k).Some?;
    }
  }

  /** The uninterrupted move, without saying how it gets there. */
  lemma MoveCarries(t: Tree, tx: Move)
    requires Consistent(t) && t.markers == map[] && RecordsOf(t, tx.objectId) != {}
    ensures Carried(t, tx, MoveResult(t, tx))
  {
    forall k
      ensures CarriedKey(t, tx, MoveResult(t, tx), k)
    {
      MoveCarriesKey(t, tx, k);
    }
  }

  /** Moving an object whose records already lie at the target changes nothing. */
  lemma AlreadyThere(t: Tree, tx: Move)
    requires t.markers == map[]
    requires forall k | k in RecordsOf(t, tx.objectId) :: k !in Dir(t, Other(tx.target))
    ensures MoveResult(t, tx) == t
  {
    var marked := t.(markers := t.markers[tx.objectId := tx]);
    forall n, k
      ensures Final(marked, n, k) == Final(t, n, k)
    {
      assert k.objectId == tx.objectId && k in Attributions(t) ==> k in RecordsOf(t, tx.objectId);
    }
    DestinationReached(marked, t);
  }

  /** An attribution on record has its object's bytes stored under their reference, and its provenance likewise, which
      names that source and that object. */
  predicate Held(c: Content, t: Tree, k: Key) {
    k in Attributions(t) ==>
      && k.objectId in t.objects && c.refOf(t.objects[k.objectId]) == k.objectId && c.canonical(t.objects[k.objectId])
      && (k.provenanceId.Some? ==>
            && k.provenanceId.value in t.provenance
            && var raw := t.provenance[k.provenanceId.value];
               && c.refOf(raw) == k.provenanceId.value && c.canonical(raw)
               && c.provenanceOf(raw) == Some((k.sourceNode, k.objectId)))
  }

  ghost predicate AllHeld(c: Content, t: Tree) {
    forall k :: Held(c, t, k)
  }

  lemma ItemKept(m: map<string, Bytes>, n: map<string, Bytes>, path: string)
    requires m.Items <= n.Items && path in m
    ensures path in n && n[path] == m[path]
  {
    assert (path, m[path]) in m.Items;
  }

  lemma HeldWithMore(c: Content, t: Tree, u: Tree)
    requires Attributions(u) <= Attributions(t)
    requires t.objects.Items <= u.objects.Items && t.provenance.Items <= u.provenance.Items
    ensures AllHeld(c, t) ==> AllHeld(c, u)
  {
    if AllHeld(c, t) {
      forall k
        ensures Held(c, u, k)
      {
        assert Held(c, t, k);
        if k in Attributions(u) {
          ItemKept(t.objects, u.objects, k.objectId);
          if k.provenanceId.Some? {
            ItemKept(t.provenance, u.provenance, k.provenanceId.value);
          }
        }
      }
    }
  }

  /** A record may be written once its content is. */
  lemma RecordHeld(c: Content, t: Tree, k: Key, n: Namespace, record: ForeignRecord, u: Tree)
    requires u == SetDir(t, n, Dir(t, n)[k := record])
    requires Held(c, t.(foreign := t.foreign[k := record]), k)
    ensures AllHeld(c, t) ==> AllHeld(c, u)
  {
    if AllHeld(c, t) {
      forall x
        ensures Held(c, u, x)
      {
        assert Held(c, t, x);
      }
    }
  }

  class FederationObjectStore {
    var tree: Tree

    constructor ()
      ensures Consistent(tree) && tree == Tree(map[], map[], map[], map[], map[])
      ensures forall c :: AllHeld(c, tree)
    {
      tree := Tree(map[], map[], map[], map[], map[]);
    }

    /** `write_exact_or_same` on one of the content directories: a durable action only if the file is new. */
    method WriteContent(files: map<string, Bytes>, path: string, bytes: Bytes, power: Power)
      returns (o: Outcome, more: map<string, Bytes>, rest: Power)
      ensures files.Items <= more.Items
      ensures !o.Crashed? ==> WriteExact(files, path, bytes) == if o.Done? then Some(more) else None
      ensures !o.Done? ==> more == files
      ensures o.Crashed? ==> WriteExact(files, path, bytes).Some?
      ensures o.Failed? ==> o.error == Conflict
      ensures power == Steady ==> !o.Crashed? && rest == Steady
    {
      more, rest := files, power;
      if path in files {
        o := if files[path] == bytes then Done else Failed(Conflict);
        return;
      }
      if rest == For(0) {
        return Crashed, more, rest;
      }
      rest := Spend(rest);
      more := files[path := bytes];
      o := Done;
    }

    /** `put_foreign`, which may be cut off: first the provenance, then the object, and the record of the attribution
        last, so that no record ever lacks its content. */
    method PutUntil(c: Content, sourceNode: string, bytes: Bytes, provenance: Option<Bytes>, n: Namespace,
                    receivedAt: Stamp, power: Power) returns (o: Outcome, r: Option<ForeignRecord>, rest: Power)
      modifies this
      ensures o.Done? ==> r.Some?
      ensures !o.Crashed? ==>
                (tree, if o.Failed? then Err(o.error) else Ok(r.value))
                == PutResult(c, old(tree), sourceNode, bytes, provenance, n, receivedAt)
      ensures o.Crashed? ==> tree == old(tree).(objects := tree.objects, provenance := tree.provenance)
      ensures old(tree).objects.Items <= tree.objects.Items && old(tree).provenance.Items <= tree.provenance.Items
      ensures AllHeld(c, old(tree)) ==> AllHeld(c, tree)
      ensures power == Steady ==> !o.Crashed?
    {
      rest, r := power, None;
      ghost var before := tree;
      if !Wire.IsNodeId(sourceNode) || receivedAt.Malformed? {
        return Failed(IdentityOrTimeInvalid), r, rest;
      }
      if !c.canonical(bytes) {
        return Failed(NotCanonical), r, rest;
      }
      var ref := c.refOf(bytes);
      if provenance.Some? {
        var bad := ProvenanceError(c, sourceNode, ref, provenance.value);
        if bad.Some? {
          return Failed(bad.value), r, rest;
        }
        var more;
        o, more, rest := WriteContent(tree.provenance, c.refOf(provenance.value), provenance.value, rest);
        tree := tree.(provenance := more);
        HeldWithMore(c, before, tree);
        if !o.Done? {
          return;
        }
      }
      var more;
      o, more, rest := WriteContent(tree.objects, ref, bytes, rest);
      tree := tree.(objects := more);
      HeldWithMore(c, before, tree);
      if !o.Done? {
        return;
      }
      ghost var stored := tree;
      assert (stored, None) == StoreContent(c, before, sourceNode, bytes, provenance);
      var k := KeyOf(c, sourceNode, bytes, provenance);
      if k in tree.foreign {
        r := Some(tree.foreign[k]);
        return;
      }
      if k in tree.quarantine {
        r := Some(tree.quarantine[k]);
        return;
      }
      if rest == For(0) {
        return Crashed, r, rest;
      }
      rest := Spend(rest);
      var record := ForeignRecord(k, n, receivedAt.unix);
      tree := SetDir(tree, n, Dir(tree, n)[k := record]);
      r := Some(record);
      RecordHeld(c, stored, k, n, record, tree);
    }

    method PutForeign(c: Content, sourceNode: string, bytes: Bytes, provenance: Option<Bytes>, n: Namespace,
                      receivedAt: Stamp) returns (r: Result<ForeignRecord, StoreError>)
      modifies this
      ensures (tree, r) == PutResult(c, old(tree), sourceNode, bytes, provenance, n, receivedAt)
      ensures AllHeld(c, old(tree)) ==> AllHeld(c, tree)
    {
      var o, record, rest := PutUntil(c, sourceNode, bytes, provenance, n, receivedAt, Steady);
      r := if o.Failed? then Err(o.error) else Ok(record.value);
    }

    /** Moves one listed record: up to two durable actions. */
    method MoveRecord(k: Key, record: ForeignRecord, tx: Move, power: Power) returns (o: Outcome, rest: Power)
      requires Consistent(tree) && tx.objectId in tree.markers && tree.markers[tx.objectId] == tx
      requires k.objectId == tx.objectId && k in Dir(tree, Other(tx.target)) && Dir(tree, Other(tx.target))[k] == record
      modifies this
      ensures Consistent(tree) && SameDestination(tree, old(tree)) && tree.markers == old(tree.markers)
      ensures !o.Failed?
      ensures o.Done? ==> Dir(tree, Other(tx.target)) == old(Dir(tree, Other(tx.target))) - {k}
      ensures power == Steady ==> o.Done? && rest == Steady
    {
      rest := power;
      var moved := Moved(record, tx);
      assert KeyOk(tree, k);
      ghost var first := tree;
      if k in Dir(tree, tx.target) {
        if Dir(tree, tx.target)[k] != moved {
          return Failed(Conflict), rest;
        }
      } else {
        if rest == For(0) {
          return Crashed, rest;
        }
        rest := Spend(rest);
        tree := SetDir(tree, tx.target, Dir(tree, tx.target)[k := moved]);
        WritingTarget(first, tx, k, tree);
      }
      if rest == For(0) {
        return Crashed, rest;
      }
      rest := Spend(rest);
      ghost var second := tree;
      tree := SetDir(tree, Other(tx.target), Dir(tree, Other(tx.target)) - {k});
      RemovingSource(second, tx, k, tree);
      SameDestinationTransitive(tree, second, first);
      o := Done;
    }

    /** Moves each listed record, in any order. */
    method MoveRecords(tx: Move, power: Power) returns (o: Outcome, rest: Power)
      requires Consistent(tree) && tx.objectId in tree.markers && tree.markers[tx.objectId] == tx
      modifies this
      ensures Consistent(tree) && SameDestination(tree, old(tree)) && tree.markers == old(tree.markers)
      ensures !o.Failed?
      ensures o.Done? ==> forall k | k in RecordsOf(tree, tx.objectId) :: k !in Dir(tree, Other(tx.target))
      ensures power == Steady ==> o.Done? && rest == Steady
    {
      rest, o := power, Done;
      var listed := Dir(tree, Other(tx.target));
      var left := set k | k in listed && k.objectId == tx.objectId;
      while left != {}
        invariant Consistent(tree) && SameDestination(tree, old(tree)) && tree.markers == old(tree.markers)
        invariant o.Done? && (power == Steady ==> rest == Steady)
        invariant forall k | k in left :: k.objectId == tx.objectId && k in listed && k in Dir(tree, Other(tx.target))
        invariant forall k | k in Dir(tree, Other(tx.target)) ::
                    k in listed && Dir(tree, Other(tx.target))[k] == listed[k]
        invariant forall k | k in Dir(tree, Other(tx.target)) && k.objectId == tx.objectId :: k in left
        decreases left
      {
        var k :| k in left;
        ghost var before := tree;
        o, rest := MoveRecord(k, listed[k], tx, rest);
        SameDestinationTransitive(tree, before, old(tree));
        if o.Crashed? {
          return;
        }
        left := left - {k};
      }
    }

    /** Moves the records and then removes the marker.  Wherever it stops, the destination of the tree has not
        changed. */
    method FinishNamespaceMove(tx: Move, power: Power) returns (o: Outcome, rest: Power)
      requires Consistent(tree) && tx.objectId in tree.markers && tree.markers[tx.objectId] == tx
      modifies this
      ensures Consistent(tree) && SameDestination(tree, old(tree))
      ensures !o.Failed?
      ensures o.Done? ==> tree.markers == old(tree.markers) - {tx.objectId}
      ensures o.Crashed? ==> tree.markers == old(tree.markers)
      ensures power == Steady ==> o.Done? && rest == Steady
    {
      assert MarkerOk(tree, tx.objectId);
      if RecordsOf(tree, tx.objectId) == {} {
        return Failed(LostAllAttributions), power;
      }
      o, rest := MoveRecords(tx, power);
      if o.Crashed? {
        return;
      }
      if rest == For(0) {
        return Crashed, rest;
      }
      rest := Spend(rest);
      ghost var moved := tree;
      tree := tree.(markers := tree.markers - {tx.objectId});
      RemovingMarker(moved, tx, tree);
      SameDestinationTransitive(tree, moved, old(tree));
    }

    /** `recover_namespace_moves`: finishes every pending move, in any order. */
    method RecoverNamespaceMoves(power: Power) returns (o: Outcome, rest: Power)
      requires Consistent(tree)
      modifies this
      ensures Consistent(tree) && SameDestination(tree, old(tree))
      ensures !o.Failed?
      ensures o.Done? ==> tree == Settled(old(tree))
      ensures power == Steady ==> o.Done? && rest == Steady
    {
      rest, o := power, Done;
      while tree.markers.Keys != {}
        invariant Consistent(tree) && SameDestination(tree, old(tree))
        invariant o.Done? && (power == Steady ==> rest == Steady)
        decreases tree.markers.Keys
      {
        var id :| id in tree.markers.Keys;
        assert MarkerOk(tree, id);
        ghost var before := tree;
        o, rest := FinishNamespaceMove(tree.markers[id], rest);
        SameDestinationTransitive(tree, before, old(tree));
        if o.Crashed? {
          return;
        }
      }
      assert tree.markers == map[];
      DestinationReached(old(tree), tree);
    }

    /** `move_namespace`: checks, marker, moves.  A crash before the first durable action, which writes the marker,
        leaves the old tree; any later crash leaves a tree that leads where the whole move leads. */
    method MoveNamespace(objectRef: string, target: Namespace, changedAt: Stamp, power: Power)
      returns (o: Outcome, rest: Power)
      requires Consistent(tree) && tree.markers == map[]
      modifies this
      ensures Consistent(tree)
      ensures o.Failed? ==> tree == old(tree)
      ensures o == Failed(MoveInvalid) <==> !Wire.IsSha256Ref(objectRef) || changedAt.Malformed?
      ensures o == Failed(RecordNotFound) <==>
                Wire.IsSha256Ref(objectRef) && changedAt.At? && RecordsOf(old(tree), objectRef) == {}
      ensures o.Failed? ==> o.error in {MoveInvalid, RecordNotFound}
      ensures o.Done? ==> tree == MoveResult(old(tree), Move(objectRef, target, changedAt.unix))
      ensures o.Done? ==> Carried(old(tree), Move(objectRef, target, changedAt.unix), tree)
      ensures !o.Failed? ==> RecordsOf(old(tree), objectRef) != {}
      ensures o.Crashed? ==>
                && changedAt.At?
                && var tx := Move(objectRef, target, changedAt.unix);
                   if power == For(0) then tree == old(tree)
                   else SameDestination(tree, old(tree).(markers := map[objectRef := tx]))
      ensures power == Steady ==> !o.Crashed?
    {
      rest := power;
      if !Wire.IsSha256Ref(objectRef) || changedAt.Malformed? {
        return Failed(MoveInvalid), rest;
      }
      var records := RecordsOf(tree, objectRef);
      if records == {} {
        return Failed(RecordNotFound), rest;
      }
      var tx := Move(objectRef, target, changedAt.unix);
      if forall k | k in records :: k !in Dir(tree, Other(target)) {
        AlreadyThere(tree, tx);
        MoveCarries(tree, tx);
        return Done, rest;
      }
      if rest == For(0) {
        return Crashed, rest;
      }
      rest := Spend(rest);
      tree := tree.(markers := tree.markers[objectRef := tx]);
      ghost var marked := tree;
      MarkedConsistent(old(tree), tx, marked);
      o, rest := FinishNamespaceMove(tx, rest);
      if o.Done? {
        assert tree.markers == map[];
        DestinationReached(marked, tree);
        MoveCarries(old(tree), tx);
      }
    }

    /** Reopening again and again, interrupted each time but the last. */
    method ReopenThroughCrashes(reopenings: seq<Power>)
      requires Consistent(tree)
      modifies this
      ensures Consistent(tree) && tree == Settled(old(tree)) && tree.markers == map[]
    {
      var o, rest;
      for i := 0 to |reopenings|
        invariant Consistent(tree) && SameDestination(tree, old(tree))
      {
        ghost var before := tree;
        o, rest := RecoverNamespaceMoves(reopenings[i]);
        SameDestinationTransitive(tree, before, old(tree));
      }
      ghost var before := tree;
      o, rest := RecoverNamespaceMoves(Steady);
      SameDestinationTransitive(tree, before, old(tree));
      DestinationReached(old(tree), tree);
    }

    /** A move interrupted at any point, then reopened with any number of further interruptions, and at last
        reopened for good: once the marker was written the tree is the one the uninterrupted move leaves; if the crash
        came before any durable action, or the move was refused, it is the tree before the move. */
    method MoveThroughCrashes(objectRef: string, target: Namespace, changedAt: Stamp, power: Power,
                              reopenings: seq<Power>)
      returns (o: Outcome)
      requires Consistent(tree) && tree.markers == map[]
      modifies this
      ensures Consistent(tree) && tree.markers == map[]
      ensures o.Failed? ==> tree == old(tree)
      ensures !o.Failed? ==> changedAt.At?
      ensures o.Done? ==> tree == MoveResult(old(tree), Move(objectRef, target, changedAt.unix))
      ensures o.Crashed? ==>
                tree == if power == For(0) then old(tree)
                        else MoveResult(old(tree), Move(objectRef, target, changedAt.unix))
      ensures o.Done? || (o.Crashed? && power != For(0)) ==>
                Carried(old(tree), Move(objectRef, target, changedAt.unix), tree)
      ensures power == Steady ==> !o.Crashed?
    {
      var rest;
      o, rest := MoveNamespace(objectRef, target, changedAt, power);
      ghost var left := tree;
      ReopenThroughCrashes(reopenings);
      if !o.Crashed? || power == For(0) {
        DestinationReached(left, left);
      } else {
        DestinationShared(old(tree).(markers := map[objectRef := Move(objectRef, target, changedAt.unix)]), left);
        MoveCarries(old(tree), Move(objectRef, target, changedAt.unix));
      }
    }

    /** A put interrupted at any point, then reopened as often as it takes: it keeps every record, and adds its own only
        with all its content. */
    method PutThroughCrashes(c: Content, sourceNode: string, bytes: Bytes, provenance: Option<Bytes>, n: Namespace,
                             receivedAt: Stamp, power: Power, reopenings: seq<Power>) returns (o: Outcome)
      requires Consistent(tree) && tree.markers == map[]
      modifies this
      ensures Consistent(tree) && tree.markers == map[]
      ensures AllHeld(c, old(tree)) ==> AllHeld(c, tree)
      ensures Attributions(old(tree)) <= Attributions(tree)
      ensures !o.Crashed? ==> tree == PutResult(c, old(tree), sourceNode, bytes, provenance, n, receivedAt).0
      ensures o.Crashed? ==> tree == old(tree).(objects := tree.objects, provenance := tree.provenance)
      ensures old(tree).objects.Items <= tree.objects.Items && old(tree).provenance.Items <= tree.provenance.Items
      ensures power == Steady ==> !o.Crashed?
    {
      ghost var before := tree;
      var r, rest;
      o, r, rest := PutUntil(c, sourceNode, bytes, provenance, n, receivedAt, power);
      PutForeignKeeps(c, before, sourceNode, bytes, provenance, n, receivedAt);
      if o.Crashed? {
        SameRecords(before, tree);
        ghost var left := tree;
        ReopenThroughCrashes(reopenings);
        DestinationReached(left, left);
      }
    }

    /** Over any run of puts and moves that crash and recover at will, the store ends consistent with no move pending,
        every attribution it ever held is still there, in one namespace only, no content is forgotten, and every
        attribution has the bytes of its object and its provenance. */
    method RunRequests(c: Content, requests: seq<Request>)
      requires Consistent(tree) && tree.markers == map[]
      modifies this
      ensures Consistent(tree) && tree.markers == map[]
      ensures AllHeld(c, old(tree)) ==> AllHeld(c, tree)
      ensures Attributions(old(tree)) <= Attributions(tree) && tree.foreign.Keys !! tree.quarantine.Keys
      ensures old(tree).objects.Items <= tree.objects.Items && old(tree).provenance.Items <= tree.provenance.Items
    {
      for i := 0 to |requests|
        invariant Consistent(tree) && tree.markers == map[]
        invariant AllHeld(c, old(tree)) ==> AllHeld(c, tree)
        invariant Attributions(old(tree)) <= Attributions(tree)
        invariant old(tree).objects.Items <= tree.objects.Items && old(tree).provenance.Items <= tree.provenance.Items
      {
        ghost var before := tree;
        match requests[i] {
          case Put(source, bytes, provenance, n, at, power, reopenings) =>
            var o := PutThroughCrashes(c, source, bytes, provenance, n, at, power, reopenings);
          case Relocate(objectRef, target, at, power, reopenings) =>
            var o := MoveThroughCrashes(objectRef, target, at, power, reopenings);
            if tree != before {
              MoveKeepsAttributions(before, Move(objectRef, target, at.unix));
              HeldWithMore(c, before, tree);
            }
        }
      }
      forall k | k in tree.foreign
        ensures k !in tree.quarantine
      {
        assert KeyOk(tree, k);
      }
    }
  }

  datatype Request =
    | Put(sourceNode: string, bytes: Bytes, provenance: Option<Bytes>, namespace: Namespace, at: Stamp, power: Power,
          reopenings: seq<Power>)
    | Relocate(objectRef: string, target: Namespace, at: Stamp, power: Power, reopenings: seq<Power>)

  lemma ContentGrows(c: Content, t: Tree, sourceNode: string, bytes: Bytes, provenance: Option<Bytes>)
    ensures var u := StoreContent(c, t, sourceNode, bytes, provenance).0;
            t.objects.Items <= u.objects.Items && t.provenance.Items <= u.provenance.Items
  {
  }

  lemma MoveKeepsAttributions(t: Tree, tx: Move)
    requires Consistent(t) && t.markers == map[]
    ensures Attributions(MoveResult(t, tx)) == Attributions(t)
    ensures MoveResult(t, tx).objects == t.objects && MoveResult(t, tx).provenance == t.provenance
  {
  }

  lemma MarkedConsistent(t: Tree, tx: Move, u: Tree)
    requires Consistent(t) && t.markers == map[] && RecordsOf(t, tx.objectId) != {}
    requires u == t.(markers := t.markers[tx.objectId := tx])
    ensures Consistent(u)
  {
    forall x
      ensures KeyOk(u, x)
    {
      assert KeyOk(t, x);
    }
    forall o
      ensures MarkerOk(u, o)
    {
      assert RecordsOf(u, o) == RecordsOf(t, o);
    }
  }

  /** Trees that lead the same way settle to the same tree. */
  lemma DestinationShared(t: Tree, u: Tree)
    requires SameDestination(u, t)
    ensures Settled(u) == Settled(t)
  {
    forall n, k
      ensures Final(u, n, k) == Final(t, n, k)
    {
    }
    assert SettledDir(u, Foreign) == SettledDir(t, Foreign);
    assert SettledDir(u, Quarantine) == SettledDir(t, Quarantine);
  }

  // ---------------------------------------------------------------- what a put needs and answers

  /** The path is free or holds these bytes. */
  predicate Fits(files: map<string, Bytes>, path: string, bytes: Bytes) {
    path in files ==> files[path] == bytes
  }

  /** A put is accepted exactly from a node, at a well-formed time, with canonical bytes, with a provenance document, if
      any, that is canonical and says that this source provided this object, and if no other content stands in its way;
      the answer is the record that was there, or else the new one. */
  lemma PutMeans(c: Content, t: Tree, sourceNode: string, bytes: Bytes, provenance: Option<Bytes>, n: Namespace,
                 receivedAt: Stamp)
    requires Consistent(t)
    ensures var (u, r) := PutResult(c, t, sourceNode, bytes, provenance, n, receivedAt);
            var ref := c.refOf(bytes);
            var k := Key(ref, sourceNode, if provenance.Some? then Some(c.refOf(provenance.value)) else None);
            && (r.Ok? <==>
                  && Wire.IsNodeId(sourceNode) && receivedAt.At? && c.canonical(bytes) && Fits(t.objects, ref, bytes)
                  && (provenance.Some? ==>
                        && c.canonical(provenance.value) && c.provenanceOf(provenance.value) == Some((sourceNode, ref))
                        && Fits(t.provenance, c.refOf(provenance.value), provenance.value)))
            && (r.Ok? ==>
                  && ref in u.objects && u.objects[ref] == bytes
                  && (provenance.Some? ==>
                        && c.refOf(provenance.value) in u.provenance
                        && u.provenance[c.refOf(provenance.value)] == provenance.value)
                  && r.value == (if k in t.foreign then t.foreign[k]
                                 else if k in t.quarantine then t.quarantine[k]
                                 else ForeignRecord(k, n, receivedAt.unix))
                  && k in Dir(u, r.value.namespace) && Dir(u, r.value.namespace)[k] == r.value)
  {
    assert KeyOk(t, KeyOf(c, sourceNode, bytes, provenance));
    ContentGrows(c, t, sourceNode, bytes, provenance);
  }

  lemma WrittenExact(files: map<string, Bytes>, path: string, bytes: Bytes)
    ensures var r := WriteExact(files, path, bytes); r.Some? ==> r.value == files[path := bytes]
  {
  }

  /** The tree with a provenance document filed, if there is one. */
  function Documented(c: Content, t: Tree, provenance: Option<Bytes>): Tree {
    if provenance.None? then t else t.(provenance := t.provenance[c.refOf(provenance.value) := provenance.value])
  }

  lemma ContentAdds(c: Content, t: Tree, sourceNode: string, bytes: Bytes, provenance: Option<Bytes>)
    ensures var (u, bad) := StoreContent(c, t, sourceNode, bytes, provenance);
            && (bad.None? ==> u == Documented(c, t, provenance).(objects := t.objects[c.refOf(bytes) := bytes]))
            && (bad.Some? ==> u == t || u == Documented(c, t, provenance))
  {
    WrittenExact(t.objects, c.refOf(bytes), bytes);
    if provenance.Some? {
      WrittenExact(t.provenance, c.refOf(provenance.value), provenance.value);
    }
  }

  /** All that a put changes.  A refused one leaves at most the provenance document behind. */
  lemma PutAdds(c: Content, t: Tree, sourceNode: string, bytes: Bytes, provenance: Option<Bytes>, n: Namespace,
                receivedAt: Stamp)
    ensures var (u, r) := PutResult(c, t, sourceNode, bytes, provenance, n, receivedAt);
            var k := Key(c.refOf(bytes), sourceNode,
                         if provenance.Some? then Some(c.refOf(provenance.value)) else None);
            && (r.Err? ==> u == t || u == Documented(c, t, provenance))
            && (r.Ok? ==>
                  var filed := Documented(c, t, provenance).(objects := t.objects[c.refOf(bytes) := bytes]);
                  u == if k in Attributions(t) then filed
                       else SetDir(filed, n, Dir(t, n)[k := ForeignRecord(k, n, receivedAt.unix)]))
  {
    ContentAdds(c, t, sourceNode, bytes, provenance);
  }
}
