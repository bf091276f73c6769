/** Envelope admission (`post_envelope` in src/api.rs): peer lookup, verification, addressing and replay, all
    against one reading of the clock, over whole runs with restarts and crashes. */
module Admission {
  import opened Wrappers
  import opened KeyLifecycle
  import opened ReplayStore
  import Wire

  /** First and last second that fit a wire timestamp (years 0000 to 9999). */
  const WIRE_FIRST := -62_167_219_200
  const WIRE_LAST := 253_402_300_799

  function FormatWireTime(now: int): Stamp {
    if WIRE_FIRST <= now <= WIRE_LAST then At(now) else Malformed
  }

  datatype Setting = Setting(crypto: Crypto, policy: ClockPolicy, retention: int, localNode: string)

  datatype Outcome =
    | EnvelopeInvalid | PeerNotIntroduced | AuthenticationFailed | NotAddressedHere
    | StoreFailure | ReplayedMessage | Admitted

  datatype Node = Node(peers: map<string, Identity>, store: Store)

  /** `SignedEnvelope::from_wire`; None stands for bytes that do not parse canonically. */
  predicate FromWire(c: Crypto, wire: Option<SignedEnvelope>) {
    && wire.Some?
    && wire.value.schema == SIGNED_ENVELOPE_SCHEMA
    && wire.value.nodeId == wire.value.body.sender
    && c.wellShaped(wire.value.body)
    && Wire.IsSha256Ref(wire.value.messageId)
    && c.messageIdOf(wire.value.body) == wire.value.messageId
  }

  /** Why the pipeline stops before the replay store, if it does. */
  function Refusal(g: Setting, peers: map<string, Identity>, wire: Option<SignedEnvelope>, now: int): Option<Outcome> {
    if !FromWire(g.crypto, wire) then Some(EnvelopeInvalid)
    else
      var e := wire.value;
      if e.nodeId !in peers then Some(PeerNotIntroduced)
      else if Verify(g.crypto, g.policy, e, peers[e.nodeId], now) != Valid then Some(AuthenticationFailed)
      else if e.body.recipient != g.localNode then Some(NotAddressedHere)
      else None
  }

  function OutcomeOf(r: Result<Decision, StoreError>): Outcome {
    match r
    case Ok(FreshRecorded) => Admitted
    case Ok(Replay) => ReplayedMessage
    case Err(_) => StoreFailure
  }

  ghost function Post(g: Setting, n: Node, wire: Option<SignedEnvelope>, now: int): (Node, Outcome) {
    var refusal := Refusal(g, n.peers, wire, now);
    if refusal.Some? then (n, refusal.value)
    else
      var (store, r) := Checked(g.retention, n.store, wire.value.messageId, FormatWireTime(now));
      (n.(store := store), OutcomeOf(r))
  }

  class Api {
    const setting: Setting
    const replay: DurableReplayStore
    var peers: map<string, Identity>

    constructor (setting: Setting, replay: DurableReplayStore)
      ensures this.setting == setting && this.replay == replay && peers == map[]
    {
      this.setting, this.replay, this.peers := setting, replay, map[];
    }

    function View(): Node
      reads this, replay, replay.file
    {
      Node(peers, replay.View())
    }

    method PostEnvelope(wire: Option<SignedEnvelope>, now: int) returns (o: Outcome)
      requires replay.retention == setting.retention
      modifies replay, replay.file
      ensures (View(), o) == Post(setting, old(View()), wire, now)
    {
      if !FromWire(setting.crypto, wire) {
        return EnvelopeInvalid;
      }
      var e := wire.value;
      if e.nodeId !in peers {
        return PeerNotIntroduced;
      }
      var validity := Verify(setting.crypto, setting.policy, e, peers[e.nodeId], now);
      if validity != Valid {
        return AuthenticationFailed;
      }
      if e.body.recipient != setting.localNode {
        return NotAddressedHere;
      }
      var decision := replay.CheckAndRecord(e.messageId, FormatWireTime(now));
      o := OutcomeOf(decision);
    }
  }

  // ---------------------------------------------------------------- runs

  /** A crash inside a post happens after its compaction (if one was due) or after its append.  After a crash or a
      restart the process reopens the log and knows no peers.  A hello may install any identity whatsoever. */
  datatype Event =
    | Hello(nodeId: string, identity: Identity)
    | PostEvent(wire: Option<SignedEnvelope>, now: int)
    | Restart
    | CrashInPost(wire: Option<SignedEnvelope>, now: int, appended: bool)

  function Reopened(st: Store): Store {
    var r := OpenLog(st.log, false);
    if r.Ok? then st.(seen := r.value) else st
  }

  ghost function LogAtCrash(g: Setting, n: Node, wire: Option<SignedEnvelope>, now: int, appended: bool): seq<LogLine> {
    if appended || Refusal(g, n.peers, wire, now).Some? || Post(g, n, wire, now).1 == ReplayedMessage
       || FormatWireTime(now).Malformed?
    then Post(g, n, wire, now).0.store.log
    else Trimmed(g.retention, n.store, wire.value.messageId, now).log
  }

  ghost function Step(g: Setting, n: Node, e: Event): Node {
    match e
    case Hello(id, identity) => n.(peers := n.peers[id := identity])
    case PostEvent(wire, now) => Post(g, n, wire, now).0
    case Restart => Node(map[], Reopened(n.store))
    case CrashInPost(wire, now, appended) =>
      Node(map[], Reopened(n.store.(log := LogAtCrash(g, n, wire, now, appended))))
  }

  /** The id the event admits, if it admits one. */
  ghost function Admits(g: Setting, n: Node, e: Event): Option<string> {
    if e.PostEvent? && Post(g, n, e.wire, e.now).1 == Admitted then Some(e.wire.value.messageId) else None
  }

  ghost function Run(g: Setting, n: Node, events: seq<Event>): Node
    decreases |events|
  {
    if events == [] then n else Run(g, Step(g, n, events[0]), events[1..])
  }

  /** The ids admitted along a run, in order. */
  ghost function Admissions(g: Setting, n: Node, events: seq<Event>): seq<string>
    decreases |events|
  {
    if events == [] then []
    else
      var first := Admits(g, n, events[0]);
      var rest := Admissions(g, Step(g, n, events[0]), events[1..]);
      if first.Some? then [first.value] + rest else rest
  }

  /** The ids ever recorded: by an admitting post, or by one that crashed after its append. */
  ghost function RecordedAfter(g: Setting, n: Node, e: Event, recorded: set<string>): set<string> {
    if (e.PostEvent? || (e.CrashInPost? && e.appended)) && Post(g, n, e.wire, e.now).1 == Admitted
    then recorded + {e.wire.value.messageId}
    else recorded
  }

  ghost function Recorded(g: Setting, n: Node, events: seq<Event>, recorded: set<string>): set<string>
    decreases |events|
  {
    if events == [] then recorded
    else Recorded(g, Step(g, n, events[0]), events[1..], RecordedAfter(g, n, events[0], recorded))
  }

  function Max(a: int, b: int): int {
    if a < b then b else a
  }

  /** The greatest clock reading so far. */
  function ClockAfter(clock: int, e: Event): int {
    if e.PostEvent? || e.CrashInPost? then Max(clock, e.now) else clock
  }

  function FinalClock(clock: int, events: seq<Event>): int
    decreases |events|
  {
    if events == [] then clock else FinalClock(ClockAfter(clock, events[0]), events[1..])
  }

  /** The posts stand in the order in which they get hold of the replay store.  Handlers run side by side and read the
      clock before that, so a reading may be up to `lag` seconds behind an earlier one; with lag 0 the posts reach the
      store in the order of their readings.  The posted bodies come from `bodies`. */
  ghost predicate ValidRun(bodies: set<Body>, clock: int, lag: int, events: seq<Event>)
    decreases |events|
  {
    events != [] ==>
      && (events[0].PostEvent? || events[0].CrashInPost? ==>
            && clock - lag <= events[0].now
            && (events[0].wire.Some? ==> events[0].wire.value.body in bodies))
      && ValidRun(bodies, ClockAfter(clock, events[0]), lag, events[1..])
  }

  /** No two of these bodies share a message id. */
  ghost predicate NoCollision(c: Crypto, bodies: set<Body>) {
    forall a, b | a in bodies && b in bodies && c.messageIdOf(a) == c.messageIdOf(b) :: a == b
  }

  ghost predicate NoRepeats(ids: seq<string>) {
    forall i, j | 0 <= i < j < |ids| :: ids[i] != ids[j]
  }

  // ---------------------------------------------------------------- the invariant of a run

  ghost predicate LongEnough(g: Setting, lag: int) {
    0 <= lag && g.retention >= g.policy.lifetime + 2 * g.policy.skew + lag
  }

  /** No body with this id passes the clock check at `clock` or later. */
  ghost predicate Dead(g: Setting, bodies: set<Body>, id: string, clock: int) {
    forall b, t: int | b in bodies && g.crypto.messageIdOf(b) == id && clock <= t :: !ClockAccepts(g.policy, b, t)
  }

  /** Some posted body with this id passed the clock check at `at`. */
  ghost predicate Vouched(g: Setting, bodies: set<Body>, id: string, at: int) {
    exists b :: b in bodies && g.crypto.messageIdOf(b) == id && ClockAccepts(g.policy, b, at)
  }

  /** Memory holds a line's record unless the line is older than the horizon. */
  ghost predicate Agrees(st: Store, horizon: int) {
    && (forall l | l in st.log ::
          l.Entry? && l.at.At? && ((l.id in st.seen && st.seen[l.id] == l.at.unix) || l.at.unix < horizon))
    && (forall id | id in st.seen :: Entry(id, At(st.seen[id])) in st.log)
  }

  /** `clock` is the greatest reading so far, so no later reading is below clock - lag. */
  ghost predicate Kept(g: Setting, bodies: set<Body>, lag: int, st: Store, clock: int, recorded: set<string>) {
    && GoodLog(st.log)
    && Agrees(st, clock - g.retention)
    && (forall l | l in st.log :: l.Entry? && l.at.At? && Vouched(g, bodies, l.id, l.at.unix))
    && (forall id | id in recorded :: id in Ids(st.log) || Dead(g, bodies, id, clock - lag))
    && Ids(st.log) <= recorded
  }

  /** The core of the design: once a line is past retention, the clock check rejects its message for good, at any
      reading that may still come. */
  lemma PastRetentionIsDead(g: Setting, bodies: set<Body>, lag: int, id: string, at: int, clock: int)
    requires LongEnough(g, lag) && NoCollision(g.crypto, bodies)
    requires Vouched(g, bodies, id, at) && at < clock - g.retention
    ensures Dead(g, bodies, id, clock - lag)
  {
  }

  lemma PrunedAgreement(g: Setting, st: Store, clock: int, now: int)
    requires Agrees(st, clock - g.retention)
    ensures Agrees(st.(seen := Prune(g.retention, st.seen, now)), Max(clock, now) - g.retention)
  {
  }

  /** Pruning and compaction keep everything but ids that are dead. */
  lemma TrimmedKept(g: Setting, bodies: set<Body>, lag: int, st: Store, clock: int, recorded: set<string>, id: string,
                    now: int)
    requires LongEnough(g, lag) && NoCollision(g.crypto, bodies)
    requires Kept(g, bodies, lag, st, clock, recorded)
    ensures Kept(g, bodies, lag, Trimmed(g.retention, st, id, now), Max(clock, now), recorded)
  {
    var seen := Prune(g.retention, st.seen, now);
    PrunedAgreement(g, st, clock, now);
    if NeedsCompaction(st.log, id) {
      forall x | x in seen
        ensures Wire.IsSha256Ref(x)
      {
        var i :| 0 <= i < |st.log| && st.log[i] == Entry(x, At(seen[x]));
        assert ValidLine(st.log[i]);
      }
      CompactedMirrors(seen);
      CompactedFits(st, seen);
      forall l | l in Compacted(seen)
        ensures l in st.log
      {
        assert l == Entry(l.id, At(seen[l.id]));
      }
      forall x | x in recorded
        ensures x in Ids(Compacted(seen)) || Dead(g, bodies, x, Max(clock, now) - lag)
      {
        if x in Ids(st.log) && x !in seen {
          IdIsOnALine(st.log, x);
          var i :| 0 <= i < |st.log| && st.log[i].Entry? && st.log[i].id == x;
          assert st.log[i] in st.log;
          PastRetentionIsDead(g, bodies, lag, x, st.log[i].at.unix, Max(clock, now));
        }
      }
    }
  }

  lemma CompactedFits(st: Store, seen: map<string, int>)
    requires GoodLog(st.log) && CleanLines(Compacted(seen)) && Ids(Compacted(seen)) == seen.Keys
    requires forall id | id in seen :: Entry(id, At(seen[id])) in st.log
    ensures LogBytes(Compacted(seen)) <= MAX_REPLAY_LOG_BYTES
  {
    CleanBytes(st.log);
    CleanBytes(Compacted(seen));
    CleanIds(st.log);
    CleanIds(Compacted(seen));
    assert seen.Keys <= Ids(st.log);
    SubsetCardinality(seen.Keys, Ids(st.log));
  }

  lemma AppendKept(g: Setting, bodies: set<Body>, lag: int, st: Store, clock: int, recorded: set<string>, id: string,
                   now: int)
    requires Kept(g, bodies, lag, st, clock, recorded) && now <= clock
    requires Wire.IsSha256Ref(id) && id !in Ids(st.log) && id !in st.seen
    requires LogBytes(st.log) + LINE_BYTES <= MAX_REPLAY_LOG_BYTES
    requires Vouched(g, bodies, id, now)
    ensures Kept(g, bodies, lag, Store(st.log + [Entry(id, At(now))], st.seen[id := now]), clock, recorded + {id})
  {
    var line := Entry(id, At(now));
    var log := st.log + [line];
    assert forall l :: l in log <==> l in st.log || l == line;
    assert Ids(log) == Ids(st.log) + {id};
    forall i | 0 <= i < |st.log|
      ensures st.log[i].id != id
    {
      assert st.log[i] in st.log;
    }
    CleanBytes(st.log);
    CleanBytes(log);
  }

  /** For an id that passes the clock check, being remembered, being on a line and ever having been recorded are the
      same: the store forgets nothing that could matter. */
  lemma AliveIdRemembered(g: Setting, bodies: set<Body>, lag: int, st: Store, clock: int, recorded: set<string>,
                          id: string, now: int)
    requires LongEnough(g, lag) && NoCollision(g.crypto, bodies)
    requires Kept(g, bodies, lag, st, clock, recorded) && clock - lag <= now
    requires Vouched(g, bodies, id, now)
    ensures id in Prune(g.retention, st.seen, now) <==> id in recorded
    ensures id in Ids(st.log) <==> id in recorded
  {
    if id in Ids(st.log) {
      IdIsOnALine(st.log, id);
      var i :| 0 <= i < |st.log| && st.log[i].Entry? && st.log[i].id == id;
      assert st.log[i] in st.log;
      var at := st.log[i].at.unix;
      if at < now - g.retention {
        PastRetentionIsDead(g, bodies, lag, id, at, now);
      }
      if at < clock - g.retention {
        PastRetentionIsDead(g, bodies, lag, id, at, clock);
      }
    }
  }

  /** The answer to a post that gets past the refusals: a replay exactly if its id was ever recorded. */
  ghost predicate AnswersFromRecord(o: Outcome, id: string, recorded: set<string>) {
    (o == ReplayedMessage <==> id in recorded) && (o == Admitted ==> id !in recorded)
  }

  /** An id that still passes the clock check is answered from the whole record, and after the post the invariant
      holds again. */
  lemma PostKeeps(g: Setting, bodies: set<Body>, lag: int, n: Node, clock: int, recorded: set<string>,
                  wire: Option<SignedEnvelope>, now: int)
    requires LongEnough(g, lag) && NoCollision(g.crypto, bodies)
    requires Kept(g, bodies, lag, n.store, clock, recorded) && clock - lag <= now
    requires wire.Some? ==> wire.value.body in bodies
    ensures var (after, o) := Post(g, n, wire, now);
            && Kept(g, bodies, lag, after.store, Max(clock, now),
                    if o == Admitted then recorded + {wire.value.messageId} else recorded)
            && (Refusal(g, n.peers, wire, now).None? && FormatWireTime(now).At? ==>
                  AnswersFromRecord(o, wire.value.messageId, recorded))
            && (Refusal(g, n.peers, wire, now).Some? || FormatWireTime(now).Malformed? ==>
                  o != Admitted && o != ReplayedMessage)
  {
    if Refusal(g, n.peers, wire, now).None? && FormatWireTime(now).At? {
      RecordingKeeps(g, bodies, lag, n.store, clock, recorded, wire.value.messageId, now);
    } else {
      KeptLater(g, bodies, lag, n.store, clock, recorded, now);
    }
  }

  lemma RecordingKeeps(g: Setting, bodies: set<Body>, lag: int, st: Store, clock: int, recorded: set<string>,
                       id: string, now: int)
    requires LongEnough(g, lag) && NoCollision(g.crypto, bodies)
    requires Kept(g, bodies, lag, st, clock, recorded) && clock - lag <= now
    requires Vouched(g, bodies, id, now) && Wire.IsSha256Ref(id)
    ensures var (after, r) := Checked(g.retention, st, id, At(now));
            && Kept(g, bodies, lag, after, Max(clock, now),
                    if r == Ok(FreshRecorded) then recorded + {id} else recorded)
            && (r == Ok(Replay) <==> id in recorded)
            && (r == Ok(FreshRecorded) ==> id !in recorded)
  {
    PrunedAgreement(g, st, clock, now);
    AliveIdRemembered(g, bodies, lag, st, clock, recorded, id, now);
    if id in recorded {
      KeptLater(g, bodies, lag, st, clock, recorded, now);
    } else {
      TrimmedKept(g, bodies, lag, st, clock, recorded, id, now);
      var trimmed := Trimmed(g.retention, st, id, now);
      CleanBytes(trimmed.log);
      if LogBytes(trimmed.log) + LINE_BYTES <= MAX_REPLAY_LOG_BYTES {
        AppendKept(g, bodies, lag, trimmed, Max(clock, now), recorded, id, now);
      }
    }
  }

  lemma KeptLater(g: Setting, bodies: set<Body>, lag: int, st: Store, clock: int, recorded: set<string>, now: int)
    requires Kept(g, bodies, lag, st, clock, recorded)
    ensures Kept(g, bodies, lag, st, Max(clock, now), recorded)
    ensures Kept(g, bodies, lag, st.(seen := Prune(g.retention, st.seen, now)), Max(clock, now), recorded)
  {
    PrunedAgreement(g, st, clock, now);
  }

  /** A log found on disk is as good as the store that wrote it. */
  lemma ReopenedKept(g: Setting, bodies: set<Body>, lag: int, st: Store, lost: map<string, int>, clock: int,
                     recorded: set<string>)
    requires Kept(g, bodies, lag, st, clock, recorded)
    ensures OpenLog(st.log, false).Ok?
    ensures Kept(g, bodies, lag, Reopened(Store(st.log, lost)), clock, recorded)
  {
    GoodLogOpens(st.log);
  }

  /** The log a crash leaves behind is the log of some store that keeps the invariant. */
  lemma CrashLogKept(g: Setting, bodies: set<Body>, lag: int, n: Node, clock: int, recorded: set<string>,
                     wire: Option<SignedEnvelope>, now: int, appended: bool) returns (st: Store)
    requires LongEnough(g, lag) && NoCollision(g.crypto, bodies)
    requires Kept(g, bodies, lag, n.store, clock, recorded) && clock - lag <= now
    requires wire.Some? ==> wire.value.body in bodies
    ensures st.log == LogAtCrash(g, n, wire, now, appended)
    ensures Kept(g, bodies, lag, st, Max(clock, now), RecordedAfter(g, n, CrashInPost(wire, now, appended), recorded))
  {
    PostKeeps(g, bodies, lag, n, clock, recorded, wire, now);
    if appended || Refusal(g, n.peers, wire, now).Some? || Post(g, n, wire, now).1 == ReplayedMessage
       || FormatWireTime(now).Malformed? {
      st := Post(g, n, wire, now).0.store;
    } else {
      TrimmedKept(g, bodies, lag, n.store, clock, recorded, wire.value.messageId, now);
      st := Trimmed(g.retention, n.store, wire.value.messageId, now);
    }
  }

  lemma CrashKeeps(g: Setting, bodies: set<Body>, lag: int, n: Node, clock: int, recorded: set<string>,
                   wire: Option<SignedEnvelope>, now: int, appended: bool)
    requires LongEnough(g, lag) && NoCollision(g.crypto, bodies)
    requires Kept(g, bodies, lag, n.store, clock, recorded) && clock - lag <= now
    requires wire.Some? ==> wire.value.body in bodies
    ensures var e := CrashInPost(wire, now, appended);
            Kept(g, bodies, lag, Step(g, n, e).store, Max(clock, now), RecordedAfter(g, n, e, recorded))
  {
    var st := CrashLogKept(g, bodies, lag, n, clock, recorded, wire, now, appended);
    var after := RecordedAfter(g, n, CrashInPost(wire, now, appended), recorded);
    ReopenedKept(g, bodies, lag, st, n.store.seen, Max(clock, now), after);
  }

  lemma StepKeeps(g: Setting, bodies: set<Body>, lag: int, n: Node, clock: int, recorded: set<string>, e: Event)
    requires LongEnough(g, lag) && NoCollision(g.crypto, bodies)
    requires Kept(g, bodies, lag, n.store, clock, recorded) && ValidRun(bodies, clock, lag, [e])
    ensures Kept(g, bodies, lag, Step(g, n, e).store, ClockAfter(clock, e), RecordedAfter(g, n, e, recorded))
    ensures Admits(g, n, e).Some? ==> Admits(g, n, e).value in RecordedAfter(g, n, e, recorded) - recorded
  {
    match e {
      case Hello(_, _) =>
      case PostEvent(wire, now) => PostKeeps(g, bodies, lag, n, clock, recorded, wire, now);
      case Restart => ReopenedKept(g, bodies, lag, n.store, n.store.seen, clock, recorded);
      case CrashInPost(wire, now, appended) => CrashKeeps(g, bodies, lag, n, clock, recorded, wire, now, appended);
    }
  }

  lemma {:induction false} RunKeeps(g: Setting, bodies: set<Body>, lag: int, n: Node, clock: int,
                                    recorded: set<string>, events: seq<Event>)
    requires LongEnough(g, lag) && NoCollision(g.crypto, bodies)
    requires Kept(g, bodies, lag, n.store, clock, recorded) && ValidRun(bodies, clock, lag, events)
    ensures NoRepeats(Admissions(g, n, events))
    ensures forall id | id in Admissions(g, n, events) :: id !in recorded
    ensures Kept(g, bodies, lag, Run(g, n, events).store, FinalClock(clock, events), Recorded(g, n, events, recorded))
    decreases |events|
  {
    if events != [] {
      var e := events[0];
      StepKeeps(g, bodies, lag, n, clock, recorded, e);
      RunKeeps(g, bodies, lag, Step(g, n, e), ClockAfter(clock, e), RecordedAfter(g, n, e, recorded), events[1..]);
    }
  }

  // ---------------------------------------------------------------- main results

  function FreshNode(): Node {
    Node(map[], Store([], map[]))
  }

  /** The ids admitted along a run from an empty log. */
  ghost function AllAdmissions(g: Setting, events: seq<Event>): seq<string> {
    Admissions(g, FreshNode(), events)
  }

  ghost function AllRecorded(g: Setting, events: seq<Event>): set<string> {
    Recorded(g, FreshNode(), events, {})
  }

  /** Over every run of hellos, posts, restarts and crashes whose clock readings lag by at most `lag`, no message id is
      admitted twice if the retention covers that lag too. */
  lemma AdmittedAtMostOnce(g: Setting, bodies: set<Body>, clock: int, lag: int, events: seq<Event>)
    requires LongEnough(g, lag) && NoCollision(g.crypto, bodies) && ValidRun(bodies, clock, lag, events)
    ensures NoRepeats(AllAdmissions(g, events))
  {
    RunKeeps(g, bodies, lag, FreshNode(), clock, {}, events);
  }

  /** The store that forgets answers like one that never does: after any run, a post that gets past the refusals is a
      replay exactly if its id was recorded at any time before, through all pruning, compaction, restarts and
      crashes. */
  lemma ForgetsNothingThatMatters(g: Setting, bodies: set<Body>, clock: int, lag: int, events: seq<Event>,
                                  wire: Option<SignedEnvelope>, now: int)
    requires LongEnough(g, lag) && NoCollision(g.crypto, bodies) && ValidRun(bodies, clock, lag, events)
    requires FinalClock(clock, events) - lag <= now && (wire.Some? ==> wire.value.body in bodies)
    requires Refusal(g, Run(g, FreshNode(), events).peers, wire, now).None? && FormatWireTime(now).At?
    ensures AnswersFromRecord(Post(g, Run(g, FreshNode(), events), wire, now).1, wire.value.messageId,
                              AllRecorded(g, events))
  {
    RunKeeps(g, bodies, lag, FreshNode(), clock, {}, events);
    var n := Run(g, FreshNode(), events);
    PostKeeps(g, bodies, lag, n, FinalClock(clock, events), AllRecorded(g, events), wire, now);
  }

  /** The answers a run gives: one for each post that is not cut off by a crash. */
  ghost function Answers(g: Setting, n: Node, events: seq<Event>): seq<Outcome>
    decreases |events|
  {
    if events == [] then []
    else
      var rest := Answers(g, Step(g, n, events[0]), events[1..]);
      if events[0].PostEvent? then [Post(g, n, events[0].wire, events[0].now).1] + rest else rest
  }

  /** Stores with one log whose memories no pruning from `clock` on tells apart. */
  ghost predicate Alike(retention: int, a: Store, b: Store, clock: int) {
    a.log == b.log && forall t: int | clock <= t :: Prune(retention, a.seen, t) == Prune(retention, b.seen, t)
  }

  lemma PostAlike(g: Setting, peers: map<string, Identity>, a: Store, b: Store, clock: int,
                  wire: Option<SignedEnvelope>, now: int)
    requires Alike(g.retention, a, b, clock) && clock <= now
    ensures var (here, there) := (Post(g, Node(peers, a), wire, now), Post(g, Node(peers, b), wire, now));
            && here.1 == there.1 && here.0.peers == there.0.peers == peers
            && Alike(g.retention, here.0.store, there.0.store, now)
  {
    assert Prune(g.retention, a.seen, now) == Prune(g.retention, b.seen, now);
  }

  lemma CrashLogAlike(g: Setting, peers: map<string, Identity>, a: Store, b: Store, clock: int,
                      wire: Option<SignedEnvelope>, now: int, appended: bool)
    requires Alike(g.retention, a, b, clock) && clock <= now
    ensures LogAtCrash(g, Node(peers, a), wire, now, appended) == LogAtCrash(g, Node(peers, b), wire, now, appended)
  {
    PostAlike(g, peers, a, b, clock, wire, now);
    assert Prune(g.retention, a.seen, now) == Prune(g.retention, b.seen, now);
  }

  lemma StepAlike(g: Setting, peers: map<string, Identity>, a: Store, b: Store, clock: int, e: Event)
    requires Alike(g.retention, a, b, clock) && (e.PostEvent? || e.CrashInPost? ==> clock <= e.now)
    ensures var (here, there) := (Step(g, Node(peers, a), e), Step(g, Node(peers, b), e));
            here.peers == there.peers && Alike(g.retention, here.store, there.store, ClockAfter(clock, e))
  {
    match e {
      case Hello(_, _) =>
      case PostEvent(wire, now) => PostAlike(g, peers, a, b, clock, wire, now);
      case Restart =>
      case CrashInPost(wire, now, appended) => CrashLogAlike(g, peers, a, b, clock, wire, now, appended);
    }
  }

  lemma {:induction false} RunAlike(g: Setting, bodies: set<Body>, peers: map<string, Identity>, a: Store, b: Store,
                                    clock: int, events: seq<Event>)
    requires Alike(g.retention, a, b, clock) && ValidRun(bodies, clock, 0, events)
    ensures Answers(g, Node(peers, a), events) == Answers(g, Node(peers, b), events)
    decreases |events|
  {
    if events != [] {
      var e := events[0];
      StepAlike(g, peers, a, b, clock, e);
      if e.PostEvent? {
        PostAlike(g, peers, a, b, clock, e.wire, e.now);
      }
      var here, there := Step(g, Node(peers, a), e), Step(g, Node(peers, b), e);
      RunAlike(g, bodies, here.peers, here.store, there.store, ClockAfter(clock, e), events[1..]);
    }
  }

  /** The peers known after a series of hellos. */
  function Greeted(peers: map<string, Identity>, hellos: seq<Event>): map<string, Identity>
    requires forall i | 0 <= i < |hellos| :: hellos[i].Hello?
    decreases |hellos|
  {
    if hellos == [] then peers else Greeted(peers[hellos[0].nodeId := hellos[0].identity], hellos[1..])
  }

  lemma {:induction false} HellosOnlyGreet(g: Setting, n: Node, hellos: seq<Event>)
    requires forall i | 0 <= i < |hellos| :: hellos[i].Hello?
    ensures Run(g, n, hellos) == Node(Greeted(n.peers, hellos), n.store)
    decreases |hellos|
  {
    if hellos != [] {
      HellosOnlyGreet(g, Step(g, n, hellos[0]), hellos[1..]);
    }
  }

  lemma ReopenedAlike(g: Setting, st: Store, clock: int)
    requires GoodLog(st.log) && Agrees(st, clock - g.retention)
    ensures Alike(g.retention, Reopened(st), st, clock)
  {
    GoodLogOpens(st.log);
  }

  /** Whatever the run, the log stays openable and within its limit, and a restart changes no later answer: once the
      same peers have said hello again, every continuation with its own posts, hellos, restarts and crashes gets just
      the answers it would have got without the restart, size failures included, if its posts come in the order of
      their readings.  (If they do not, ForgetsNothingThatMatters still fixes which of them are replays.) */
  lemma RestartIsInvisible(g: Setting, bodies: set<Body>, clock: int, lag: int, events: seq<Event>, hellos: seq<Event>,
                           later: seq<Event>)
    requires LongEnough(g, lag) && NoCollision(g.crypto, bodies) && ValidRun(bodies, clock, lag, events)
    requires forall i | 0 <= i < |hellos| :: hellos[i].Hello?
    requires Greeted(map[], hellos) == Run(g, FreshNode(), events).peers
    requires ValidRun(bodies, FinalClock(clock, events), 0, later)
    ensures var n := Run(g, FreshNode(), events);
            && OpenLog(n.store.log, false).Ok?
            && CleanLines(n.store.log) && LogBytes(n.store.log) <= MAX_REPLAY_LOG_BYTES
            && Answers(g, Run(g, Step(g, n, Restart), hellos), later) == Answers(g, n, later)
  {
    RunKeeps(g, bodies, lag, FreshNode(), clock, {}, events);
    var n := Run(g, FreshNode(), events);
    var now := FinalClock(clock, events);
    GoodLogOpens(n.store.log);
    ReopenedAlike(g, n.store, now);
    HellosOnlyGreet(g, Step(g, n, Restart), hellos);
    RunAlike(g, bodies, n.peers, Reopened(n.store), n.store, now, later);
  }

  // ---------------------------------------------------------------- the bound is exact

  ghost predicate AtMostOnceAlways(p: ClockPolicy, retention: int, lag: int) {
    forall g: Setting, bodies: set<Body>, clock: int, events: seq<Event> ::
      g.policy == p && g.retention == retention && NoCollision(g.crypto, bodies) && ValidRun(bodies, clock, lag, events)
      ==> NoRepeats(AllAdmissions(g, events))
  }

  /** Two message ids, whatever they are. */
  datatype Names = Names(one: string, other: string)

  predicate AreIds(ids: Names) {
    Wire.IsSha256Ref(ids.one) && Wire.IsSha256Ref(ids.other) && ids.one != ids.other
  }

  lemma SomeIds() returns (ids: Names)
    ensures AreIds(ids)
  {
    var zeros: string, ones: string := seq(64, _ => '0'), seq(64, _ => '1');
    ids := Names("sha256:" + zeros, "sha256:" + ones);
    assert ids.one[7] == '0' && ids.other[7] == '1';
  }

  /** Every signature counts, and the message class tells the two messages apart. */
  function TwoIdCrypto(ids: Names): Crypto {
    Crypto(k => k, k => k, (_, _, _) => true,
           (b: Body) => if b.messageClass == "" then ids.one else ids.other, _ => true)
  }

  /** The last second at which an envelope posted at time 0 can still pass. */
  function LastSecond(p: ClockPolicy): int {
    p.lifetime + 2 * p.skew
  }

  /** Issued as far ahead as the clock check allows at time 0, and living as long as it allows. */
  function LongestLived(ids: Names, p: ClockPolicy): SignedEnvelope {
    SignedEnvelope(SIGNED_ENVELOPE_SCHEMA, "r", "k", ids.one,
                   Body("", "r", "r", "", "", None, At(p.skew), Some(At(p.skew + p.lifetime))), "")
  }

  /** Another message, issued `lag` seconds after that. */
  function Overtaking(ids: Names, p: ClockPolicy, lag: nat): SignedEnvelope {
    var issued := LastSecond(p) + lag;
    SignedEnvelope(SIGNED_ENVELOPE_SCHEMA, "r", "k", ids.other,
                   Body("", "r", "r", "other", "", None, At(issued), Some(At(issued + p.lifetime))), "")
  }

  function OnePeer(): Identity {
    Identity("r", "root", "root", "k", 0, map["k" := KeyState("k", 0, None, Active)])
  }

  /** The envelope is posted at time 0.  Later a second handler reads the clock at the last second at which the
      envelope still passes, but before it gets hold of the store another post with a reading `lag` seconds later
      does. */
  function Overtaken(ids: Names, p: ClockPolicy, lag: nat): seq<Event> {
    [Hello("r", OnePeer()), PostEvent(Some(LongestLived(ids, p)), 0),
     PostEvent(Some(Overtaking(ids, p, lag)), LastSecond(p) + lag),
     PostEvent(Some(LongestLived(ids, p)), LastSecond(p))]
  }

  function ShortSetting(ids: Names, p: ClockPolicy, retention: int): Setting {
    Setting(TwoIdCrypto(ids), p, retention, "r")
  }

  function WithStore(st: Store): Node {
    Node(map["r" := OnePeer()], st)
  }

  function Line(id: string, at: int): LogLine {
    Entry(id, At(at))
  }

  lemma {:induction false} ShortLog(log: seq<LogLine>)
    requires |log| <= 3 && forall i | 0 <= i < |log| :: log[i].Entry? && |log[i].id| == 71
    ensures LogBytes(log) == LINE_BYTES * |log|
  {
    if log != [] {
      ShortLog(log[1..]);
    }
  }

  /** On a short log an id that is not remembered is recorded. */
  lemma RecordsAnew(retention: int, st: Store, id: string, now: int)
    requires |st.log| <= 2 && (forall i | 0 <= i < |st.log| :: st.log[i].Entry? && |st.log[i].id| == 71)
    requires Wire.IsSha256Ref(id) && id !in Prune(retention, st.seen, now)
    ensures Checked(retention, st, id, At(now))
            == (Store(st.log + [Line(id, now)], Prune(retention, st.seen, now)[id := now]), Ok(FreshRecorded))
  {
    ShortLog(st.log);
  }

  lemma PassesAt(ids: Names, p: ClockPolicy, retention: int, lag: nat, st: Store, wire: SignedEnvelope, now: int)
    requires AreIds(ids) && 0 <= p.skew && 1 <= p.lifetime && LastSecond(p) + lag <= WIRE_LAST
    requires || (wire == LongestLived(ids, p) && 0 <= now <= LastSecond(p))
             || (wire == Overtaking(ids, p, lag) && now == LastSecond(p) + lag)
    ensures Refusal(ShortSetting(ids, p, retention), WithStore(st).peers, Some(wire), now).None?
    ensures FormatWireTime(now) == At(now)
  {
  }

  /** The three stores of the overtaken run. */
  function AfterFirst(ids: Names): Store {
    Store([Line(ids.one, 0)], map[ids.one := 0])
  }

  function AfterSecond(ids: Names, p: ClockPolicy, lag: nat): Store {
    Store([Line(ids.one, 0), Line(ids.other, LastSecond(p) + lag)], map[ids.other := LastSecond(p) + lag])
  }

  function LogAfterThird(ids: Names, p: ClockPolicy, lag: nat): seq<LogLine> {
    [Line(ids.one, 0), Line(ids.other, LastSecond(p) + lag), Line(ids.one, LastSecond(p))]
  }

  lemma PostRecordsAnew(g: Setting, st: Store, wire: SignedEnvelope, now: int, after: Store)
    requires |st.log| <= 2 && (forall i | 0 <= i < |st.log| :: st.log[i].Entry? && |st.log[i].id| == 71)
    requires Refusal(g, WithStore(st).peers, Some(wire), now).None? && FormatWireTime(now) == At(now)
    requires wire.messageId !in Prune(g.retention, st.seen, now) && Wire.IsSha256Ref(wire.messageId)
    requires after.log == st.log + [Line(wire.messageId, now)]
    requires after.seen == Prune(g.retention, st.seen, now)[wire.messageId := now]
    ensures Post(g, WithStore(st), Some(wire), now) == (WithStore(after), Admitted)
  {
    RecordsAnew(g.retention, st, wire.messageId, now);
  }

  lemma FirstPost(ids: Names, p: ClockPolicy, retention: int)
    requires AreIds(ids) && 0 <= p.skew && 1 <= p.lifetime && LastSecond(p) <= WIRE_LAST
    ensures Post(ShortSetting(ids, p, retention), WithStore(Store([], map[])), Some(LongestLived(ids, p)), 0)
            == (WithStore(AfterFirst(ids)), Admitted)
  {
    var st, after := Store([], map[]), AfterFirst(ids);
    PassesAt(ids, p, retention, 0, st, LongestLived(ids, p), 0);
    assert Prune(retention, st.seen, 0) == map[];
    assert after.log == st.log + [Line(ids.one, 0)] && after.seen == map[][ids.one := 0];
    PostRecordsAnew(ShortSetting(ids, p, retention), st, LongestLived(ids, p), 0, after);
  }

  lemma SecondPost(ids: Names, p: ClockPolicy, retention: int, lag: nat)
    requires AreIds(ids) && 0 <= p.skew && 1 <= p.lifetime && LastSecond(p) + lag <= WIRE_LAST
    requires retention < LastSecond(p) + lag
    ensures Post(ShortSetting(ids, p, retention), WithStore(AfterFirst(ids)), Some(Overtaking(ids, p, lag)),
                 LastSecond(p) + lag)
            == (WithStore(AfterSecond(ids, p, lag)), Admitted)
  {
    var now := LastSecond(p) + lag;
    var st, after := AfterFirst(ids), AfterSecond(ids, p, lag);
    PassesAt(ids, p, retention, lag, st, Overtaking(ids, p, lag), now);
    assert Prune(retention, st.seen, now) == map[];
    assert after.log == st.log + [Line(ids.other, now)] && after.seen == map[][ids.other := now];
    PostRecordsAnew(ShortSetting(ids, p, retention), st, Overtaking(ids, p, lag), now, after);
  }

  /** What the third post leaves, whether or not its own pruning drops the second. */
  function AfterThird(ids: Names, p: ClockPolicy, retention: int, lag: nat): Store {
    var seen := Prune(retention, AfterSecond(ids, p, lag).seen, LastSecond(p));
    Store(LogAfterThird(ids, p, lag), seen[ids.one := LastSecond(p)])
  }

  lemma ThirdPost(ids: Names, p: ClockPolicy, retention: int, lag: nat)
    requires AreIds(ids) && 0 <= p.skew && 1 <= p.lifetime && LastSecond(p) + lag <= WIRE_LAST
    ensures Post(ShortSetting(ids, p, retention), WithStore(AfterSecond(ids, p, lag)), Some(LongestLived(ids, p)),
                 LastSecond(p))
            == (WithStore(AfterThird(ids, p, retention, lag)), Admitted)
  {
    var st, after := AfterSecond(ids, p, lag), AfterThird(ids, p, retention, lag);
    PassesAt(ids, p, retention, lag, st, LongestLived(ids, p), LastSecond(p));
    assert after.log == st.log + [Line(ids.one, LastSecond(p))];
    PostRecordsAnew(ShortSetting(ids, p, retention), st, LongestLived(ids, p), LastSecond(p), after);
  }

  lemma DoubledLogDoesNotOpen(ids: Names, p: ClockPolicy, lag: nat)
    requires AreIds(ids)
    ensures OpenLog(LogAfterThird(ids, p, lag), false) == Err(DuplicateLine)
  {
    var log := LogAfterThird(ids, p, lag);
    ShortLog(log);
    var one := map[][ids.one := 0];
    var two := one[ids.other := LastSecond(p) + lag];
    assert log[1..] == [log[1], log[2]] && log[1..][1..] == [log[2]];
    assert Load(log, map[]) == Load(log[1..], one) == Load([log[2]], two) == Err(DuplicateLine);
  }

  ghost predicate OvertakenRunFails(ids: Names, p: ClockPolicy, retention: int, lag: nat) {
    var g := ShortSetting(ids, p, retention);
    var bodies := {LongestLived(ids, p).body, Overtaking(ids, p, lag).body};
    && NoCollision(g.crypto, bodies) && ValidRun(bodies, 0, lag, Overtaken(ids, p, lag))
    && AllAdmissions(g, Overtaken(ids, p, lag)) == [ids.one, ids.other, ids.one]
    && OpenLog(Run(g, FreshNode(), Overtaken(ids, p, lag)).store.log, false) == Err(DuplicateLine)
  }

  lemma OvertakenIsValid(ids: Names, p: ClockPolicy, lag: nat)
    requires AreIds(ids) && 0 <= p.skew && 1 <= p.lifetime
    ensures ValidRun({LongestLived(ids, p).body, Overtaking(ids, p, lag).body}, 0, lag, Overtaken(ids, p, lag))
  {
    var events := Overtaken(ids, p, lag);
    var bodies := {LongestLived(ids, p).body, Overtaking(ids, p, lag).body};
    var second, third, fourth := events[1..], [events[2], events[3]], [events[3]];
    assert second[1..] == third && third[1..] == fourth && fourth[1..] == [];
    assert ValidRun(bodies, LastSecond(p) + lag, lag, fourth);
    assert ValidRun(bodies, 0, lag, third) && ValidRun(bodies, 0, lag, second);
  }

  /** A run that begins with an admitted post. */
  lemma AdmitsFirst(g: Setting, n: Node, e: Event, after: Node, rest: seq<Event>, admitted: seq<string>, end: Node)
    requires e.PostEvent? && e.wire.Some? && Post(g, n, e.wire, e.now) == (after, Admitted)
    requires Admissions(g, after, rest) == admitted && Run(g, after, rest) == end
    ensures Admissions(g, n, [e] + rest) == [e.wire.value.messageId] + admitted
    ensures Run(g, n, [e] + rest) == end
  {
    assert ([e] + rest)[1..] == rest && ([e] + rest)[0] == e;
  }

  /** With any retention below lifetime + 2 * skew + lag the overtaken run admits one message twice, and leaves a log
      that does not open again. */
  lemma ShorterRetentionAdmitsTwice(ids: Names, p: ClockPolicy, retention: int, lag: nat)
    requires AreIds(ids) && 0 <= p.skew && 1 <= p.lifetime && LastSecond(p) + lag <= WIRE_LAST
    requires retention < LastSecond(p) + lag
    ensures OvertakenRunFails(ids, p, retention, lag)
  {
    var g := ShortSetting(ids, p, retention);
    var events := Overtaken(ids, p, lag);
    OvertakenIsValid(ids, p, lag);
    OvertakenRun(ids, p, retention, lag);
    DoubledLogDoesNotOpen(ids, p, lag);
    var posts := [events[1], events[2], events[3]];
    assert events == [events[0]] + posts && events[1..] == posts;
    assert Step(g, FreshNode(), events[0]) == WithStore(Store([], map[]));
  }

  lemma OvertakenTail(ids: Names, p: ClockPolicy, retention: int, lag: nat)
    requires AreIds(ids) && 0 <= p.skew && 1 <= p.lifetime && LastSecond(p) + lag <= WIRE_LAST
    requires retention < LastSecond(p) + lag
    ensures var (g, events) := (ShortSetting(ids, p, retention), Overtaken(ids, p, lag));
            && Admissions(g, WithStore(AfterFirst(ids)), [events[2], events[3]]) == [ids.other, ids.one]
            && Run(g, WithStore(AfterFirst(ids)), [events[2], events[3]])
               == WithStore(AfterThird(ids, p, retention, lag))
  {
    var g, events := ShortSetting(ids, p, retention), Overtaken(ids, p, lag);
    var two, end := WithStore(AfterSecond(ids, p, lag)), WithStore(AfterThird(ids, p, retention, lag));
    ThirdPost(ids, p, retention, lag);
    AdmitsFirst(g, two, events[3], end, [], [], end);
    assert [events[3]] + [] == [events[3]] && [ids.one] + [] == [ids.one];
    SecondPost(ids, p, retention, lag);
    AdmitsFirst(g, WithStore(AfterFirst(ids)), events[2], two, [events[3]], [ids.one], end);
    assert [events[2], events[3]] == [events[2]] + [events[3]];
  }

  lemma OvertakenRun(ids: Names, p: ClockPolicy, retention: int, lag: nat)
    requires AreIds(ids) && 0 <= p.skew && 1 <= p.lifetime && LastSecond(p) + lag <= WIRE_LAST
    requires retention < LastSecond(p) + lag
    ensures var (g, events) := (ShortSetting(ids, p, retention), Overtaken(ids, p, lag));
            var (start, posts) := (WithStore(Store([], map[])), [events[1], events[2], events[3]]);
            && Admissions(g, start, posts) == [ids.one, ids.other, ids.one]
            && Run(g, start, posts) == WithStore(AfterThird(ids, p, retention, lag))
  {
    var g, events := ShortSetting(ids, p, retention), Overtaken(ids, p, lag);
    OvertakenTail(ids, p, retention, lag);
    FirstPost(ids, p, retention);
    AdmitsFirst(g, WithStore(Store([], map[])), events[1], WithStore(AfterFirst(ids)), [events[2], events[3]],
                [ids.other, ids.one], WithStore(AfterThird(ids, p, retention, lag)));
    assert [events[1], events[2], events[3]] == [events[1]] + [events[2], events[3]];
    assert [ids.one, ids.other, ids.one] == [ids.one] + [ids.other, ids.one];
  }

  /** Where readings lag by at most `lag`, retention for lifetime + 2 * skew + lag seconds is necessary and
      sufficient. */
  lemma RetentionBoundExact(p: ClockPolicy, retention: int, lag: nat)
    requires 0 <= p.skew && 1 <= p.lifetime && LastSecond(p) + lag <= WIRE_LAST
    ensures AtMostOnceAlways(p, retention, lag) <==> retention >= p.lifetime + 2 * p.skew + lag
  {
    if retention >= p.lifetime + 2 * p.skew + lag {
      forall g: Setting, bodies: set<Body>, clock: int, events: seq<Event>
        | g.policy == p && g.retention == retention && NoCollision(g.crypto, bodies)
          && ValidRun(bodies, clock, lag, events)
        ensures NoRepeats(AllAdmissions(g, events))
      {
        AdmittedAtMostOnce(g, bodies, clock, lag, events);
      }
    } else {
      var ids := SomeIds();
      ShorterRetentionAdmitsTwice(ids, p, retention, lag);
      var admitted := AllAdmissions(ShortSetting(ids, p, retention), Overtaken(ids, p, lag));
      assert admitted[0] == admitted[2];
    }
  }

  /** At the program's own constants: 4200 seconds are enough for posts that reach the store in the order of their clock
      readings and for no others, and one second less is not enough even for those. */
  lemma ProgramRetentionExact(lag: nat)
    requires LastSecond(DEFAULT_CLOCK_POLICY) + lag <= WIRE_LAST
    ensures AtMostOnceAlways(DEFAULT_CLOCK_POLICY, REPLAY_RETENTION_SECONDS, lag) <==> lag == 0
    ensures !AtMostOnceAlways(DEFAULT_CLOCK_POLICY, REPLAY_RETENTION_SECONDS - 1, lag)
  {
    RetentionBoundExact(DEFAULT_CLOCK_POLICY, REPLAY_RETENTION_SECONDS, lag);
    RetentionBoundExact(DEFAULT_CLOCK_POLICY, REPLAY_RETENTION_SECONDS - 1, lag);
  }

  /** The failing run at the program's constants: the envelope posted at 0 and again with reading 4200, overtaken by a
      post with reading 4201. */
  lemma OvertakenPostAdmittedTwice(ids: Names)
    requires AreIds(ids)
    ensures OvertakenRunFails(ids, DEFAULT_CLOCK_POLICY, REPLAY_RETENTION_SECONDS, 1)
    ensures Overtaken(ids, DEFAULT_CLOCK_POLICY, 1)[2].now == 4201
    ensures Overtaken(ids, DEFAULT_CLOCK_POLICY, 1)[3].now == 4200
  {
    ShorterRetentionAdmitsTwice(ids, DEFAULT_CLOCK_POLICY, REPLAY_RETENTION_SECONDS, 1);
  }

  // ---------------------------------------------------------------- what an admission rests on

  /** The envelope comes from a peer introduced here and is addressed here, the clock accepts it, its id is derived from
      its body, and its signature verifies under a key of that peer that is accepted at the time of issue. */
  predicate Authentic(g: Setting, peers: map<string, Identity>, e: SignedEnvelope, now: int) {
    && e.schema == SIGNED_ENVELOPE_SCHEMA && e.nodeId == e.body.sender && e.body.recipient == g.localNode
    && e.nodeId in peers && peers[e.nodeId].nodeId == e.nodeId
    && ClockAccepts(g.policy, e.body, now)
    && Wire.IsSha256Ref(e.messageId) && g.crypto.wellShaped(e.body) && g.crypto.messageIdOf(e.body) == e.messageId
    && var s := peers[e.nodeId];
       && e.keyId in s.keys && s.keys[e.keyId].status == Active
       && s.keys[e.keyId].validFrom <= e.body.issuedAt.unix
       && (s.keys[e.keyId].validUntil.None? || e.body.issuedAt.unix <= s.keys[e.keyId].validUntil.value)
       && g.crypto.verifies(s.keys[e.keyId].publicKey, EnvelopePayload(e.messageId, e.body), e.signature)
  }

  /** A post gets as far as the replay store exactly if it is authentic, and only such a post is ever admitted or
      answered as a replay. */
  lemma ReachesStoreIff(g: Setting, n: Node, wire: Option<SignedEnvelope>, now: int)
    ensures Post(g, n, wire, now).1 in {Admitted, ReplayedMessage, StoreFailure} <==>
            wire.Some? && Authentic(g, n.peers, wire.value, now)
    ensures Refusal(g, n.peers, wire, now).None? <==> wire.Some? && Authentic(g, n.peers, wire.value, now)
    ensures !(wire.Some? && Authentic(g, n.peers, wire.value, now)) ==> Post(g, n, wire, now).0 == n
  {
    if wire.Some? && wire.value.nodeId in n.peers {
      ValidIff(g.crypto, g.policy, wire.value, n.peers[wire.value.nodeId], now);
    }
  }

  /** Somewhere in the run an authentic envelope with this id is posted. */
  ghost predicate AuthenticallyPosted(g: Setting, n: Node, events: seq<Event>, id: string)
    decreases |events|
  {
    && events != []
    && (|| ((events[0].PostEvent? || events[0].CrashInPost?) && events[0].wire.Some?
            && events[0].wire.value.messageId == id && Authentic(g, n.peers, events[0].wire.value, events[0].now))
        || AuthenticallyPosted(g, Step(g, n, events[0]), events[1..], id))
  }

  /** No run admits or records an id of which it has not seen an authentic envelope. */
  lemma {:induction false} OnlyAuthenticRecorded(g: Setting, n: Node, events: seq<Event>, recorded: set<string>)
    ensures forall id | id in Admissions(g, n, events) :: AuthenticallyPosted(g, n, events, id)
    ensures forall id | id in Recorded(g, n, events, recorded) - recorded :: AuthenticallyPosted(g, n, events, id)
    decreases |events|
  {
    if events != [] {
      var e := events[0];
      if e.PostEvent? || e.CrashInPost? {
        ReachesStoreIff(g, n, e.wire, e.now);
      }
      OnlyAuthenticRecorded(g, Step(g, n, e), events[1..], RecordedAfter(g, n, e, recorded));
    }
  }

  lemma {:induction false} NothingPosted(g: Setting, n: Node, events: seq<Event>, id: string)
    requires forall key, payload, signature :: !g.crypto.verifies(key, payload, signature)
    ensures !AuthenticallyPosted(g, n, events, id)
    decreases |events|
  {
    if events != [] {
      NothingPosted(g, Step(g, n, events[0]), events[1..], id);
    }
  }

  /** Under a scheme that accepts no signature no run admits or records anything, whatever identities say hello. */
  lemma NothingWithoutSignature(g: Setting, events: seq<Event>)
    requires forall key, payload, signature :: !g.crypto.verifies(key, payload, signature)
    ensures AllAdmissions(g, events) == [] && AllRecorded(g, events) == {}
  {
    var admitted := AllAdmissions(g, events);
    assert admitted != [] ==> admitted[0] in admitted;
    OnlyAuthenticRecorded(g, FreshNode(), events, {});
    forall id
      ensures id !in AllAdmissions(g, events) && id !in AllRecorded(g, events)
    {
      NothingPosted(g, FreshNode(), events, id);
    }
  }

  /** An authentic envelope that was never recorded is admitted, unless the live records alone fill the log. */
  lemma NewMessageAdmittedIff(g: Setting, bodies: set<Body>, clock: int, lag: int, events: seq<Event>,
                              e: SignedEnvelope, now: int)
    requires LongEnough(g, lag) && NoCollision(g.crypto, bodies) && ValidRun(bodies, clock, lag, events)
    requires FinalClock(clock, events) - lag <= now && e.body in bodies && FormatWireTime(now).At?
    requires Authentic(g, Run(g, FreshNode(), events).peers, e, now) && e.messageId !in AllRecorded(g, events)
    ensures var n := Run(g, FreshNode(), events);
            var live := Prune(g.retention, n.store.seen, now);
            Post(g, n, Some(e), now).1 ==
            if LINE_BYTES * (|live| + 1) <= MAX_REPLAY_LOG_BYTES then Admitted else StoreFailure
  {
    RunKeeps(g, bodies, lag, FreshNode(), clock, {}, events);
    var n := Run(g, FreshNode(), events);
    ReachesStoreIff(g, n, Some(e), now);
    AliveIdRemembered(g, bodies, lag, n.store, FinalClock(clock, events), AllRecorded(g, events), e.messageId, now);
    RefusedForSpaceIff(g.retention, n.store, e.messageId, FormatWireTime(now));
  }

  // ---------------------------------------------------------------- calls that bypass the clock check

  /** `check_and_record` on its own does not keep the log openable: recording an id whose line is past retention
      but not yet compacted away leaves a duplicate.  A fresh record reopens exactly in the other cases. */
  lemma FreshRecordReopensIff(retention: int, st: Store, clock: int, id: string, at: Stamp)
    requires GoodLog(st.log) && Agrees(st, clock - retention)
    requires Checked(retention, st, id, at).1 == Ok(FreshRecorded)
    ensures OpenLog(Checked(retention, st, id, at).0.log, false).Ok?
            <==> NeedsCompaction(st.log, id) || id !in Ids(st.log)
  {
    var seen := Prune(retention, st.seen, at.unix);
    var base := Trimmed(retention, st, id, at.unix).log;
    var log := base + [Entry(id, at)];
    if NeedsCompaction(st.log, id) {
      forall x | x in seen
        ensures Wire.IsSha256Ref(x)
      {
        var i :| 0 <= i < |st.log| && st.log[i] == Entry(x, At(st.seen[x]));
        assert ValidLine(st.log[i]);
      }
      CompactedMirrors(seen);
    }
    assert CleanLines(base) && (NeedsCompaction(st.log, id) ==> id !in Ids(base));
    AppendIsClean(base, id, at);
    if id !in Ids(base) {
      CleanBytes(base);
      CleanBytes(log);
    }
    OpensExactlyGoodLogs(log);
  }

  lemma AppendIsClean(log: seq<LogLine>, id: string, at: Stamp)
    requires CleanLines(log) && ValidLine(Entry(id, at))
    ensures CleanLines(log + [Entry(id, at)]) <==> id !in Ids(log)
  {
    var longer := log + [Entry(id, at)];
    if id in Ids(log) {
      IdIsOnALine(log, id);
      var i :| 0 <= i < |log| && log[i].Entry? && log[i].id == id;
      assert longer[i].id == longer[|log|].id;
    } else {
      forall i | 0 <= i < |log|
        ensures log[i].id != id
      {
        assert log[i] in log;
      }
    }
  }

  /** The failing case exists for every retention and every id: recorded at second 0 and again one second after its
      retention has run out, the id is answered as fresh, and the log that leaves does not open. */
  lemma StaleIdBreaksLog(retention: nat, id: string)
    requires Wire.IsSha256Ref(id)
    ensures var st := Store([Entry(id, At(0))], map[id := 0]);
            var (after, r) := Checked(retention, st, id, At(retention + 1));
            && OpenLog(st.log, false) == Ok(st.seen)
            && r == Ok(FreshRecorded) && OpenLog(after.log, false) == Err(DuplicateLine)
  {
    var st := Store([Entry(id, At(0))], map[id := 0]);
    var stale := Entry(id, At(retention + 1));
    var log := st.log + [stale];
    assert st.log[1..] == [] && st.seen == map[][id := 0] && Load(st.log, map[]) == Load([], st.seen);
    ShortLog(st.log);
    ShortLog(log);
    RecordsAnew(retention, st, id, retention + 1);
    assert log[1..] == [stale];
    assert Load(log, map[]) == Load([stale], st.seen) == Err(DuplicateLine);
  }

  /** A restart or a crash forgets all peers: until the next hello nothing is admitted or recorded. */
  lemma NothingUntilHello(g: Setting, n: Node, e: Event, events: seq<Event>, recorded: set<string>)
    requires (e.Restart? || e.CrashInPost?) && forall i | 0 <= i < |events| :: !events[i].Hello?
    ensures Admissions(g, Step(g, n, e), events) == [] && Recorded(g, Step(g, n, e), events, recorded) == recorded
  {
    NothingFromStrangers(g, Step(g, n, e), events, recorded);
  }

  lemma {:induction false} NothingFromStrangers(g: Setting, n: Node, events: seq<Event>, recorded: set<string>)
    requires n.peers == map[] && forall i | 0 <= i < |events| :: !events[i].Hello?
    ensures Admissions(g, n, events) == [] && Recorded(g, n, events, recorded) == recorded
    decreases |events|
  {
    if events != [] {
      assert !events[0].Hello?;
      NothingFromStrangers(g, Step(g, n, events[0]), events[1..], recorded);
    }
  }
}
