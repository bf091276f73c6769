/** The durable replay store (src/replay.rs).

    The log file is a sequence of lines.  Only whole lines are written, so a torn tail appears here only as the
    flag that `open` inspects.  The retention is a parameter; the program uses REPLAY_RETENTION_SECONDS. */
module ReplayStore {
  import opened Wrappers
  import opened KeyLifecycle
  import Wire
  import Lex

  const MAX_REPLAY_LOG_BYTES: nat := 64 * 1024 * 1024
  const REPLAY_COMPACTION_THRESHOLD_BYTES: nat := 1024 * 1024
  const REPLAY_RETENTION_SECONDS := MAX_SIGNED_MESSAGE_LIFETIME_SECONDS + 2 * MAX_CLOCK_SKEW_SECONDS
  const LINE_BYTES := 93

  /** A line with a tab splits into an id and a timestamp; any other line is Garbage of some size. */
  datatype LogLine = Entry(id: string, at: Stamp) | Garbage(size: nat)

  datatype StoreError =
    | LogTooLarge | PartialTail | InvalidLine | DuplicateLine | RecordInvalid | ActiveWindowTooLarge

  datatype Decision = FreshRecorded | Replay

  function LineBytes(l: LogLine): nat {
    match l
    case Entry(id, _) => |id| + 22
    case Garbage(size) => size
  }

  function LogBytes(lines: seq<LogLine>): nat {
    if lines == [] then 0 else LineBytes(lines[0]) + LogBytes(lines[1..])
  }

  predicate ValidLine(l: LogLine) {
    l.Entry? && Wire.IsSha256Ref(l.id) && l.at.At?
  }

  // ---------------------------------------------------------------- specification

  function Load(lines: seq<LogLine>, seen: map<string, int>): Result<map<string, int>, StoreError>
    decreases |lines|
  {
    if lines == [] then Ok(seen)
    else if !ValidLine(lines[0]) then Err(InvalidLine)
    else if lines[0].id in seen then Err(DuplicateLine)
    else Load(lines[1..], seen[lines[0].id := lines[0].at.unix])
  }

  function OpenLog(lines: seq<LogLine>, partialTail: bool): Result<map<string, int>, StoreError> {
    if LogBytes(lines) > MAX_REPLAY_LOG_BYTES then Err(LogTooLarge)
    else if lines != [] && partialTail then Err(PartialTail)
    else Load(lines, map[])
  }

  datatype Store = Store(log: seq<LogLine>, seen: map<string, int>)

  function Prune(retention: int, seen: map<string, int>, now: int): map<string, int> {
    map id | id in seen && seen[id] >= now - retention :: seen[id]
  }

  /** What compaction writes: the remembered records in ascending id order. */
  ghost function Compacted(seen: map<string, int>): (lines: seq<LogLine>)
    ensures |lines| == |Lex.Listing(seen.Keys)|
  {
    var ids := Lex.Listing(seen.Keys);
    assert forall i | 0 <= i < |ids| :: ids[i] in Lex.Elements(ids);
    seq(|ids|, i requires 0 <= i < |ids| => Entry(ids[i], At(seen[ids[i]])))
  }

  predicate NeedsCompaction(log: seq<LogLine>, id: string) {
    || LogBytes(log) >= REPLAY_COMPACTION_THRESHOLD_BYTES
    || LogBytes(log) + |id| + 22 > MAX_REPLAY_LOG_BYTES
  }

  /** The store just before a fresh record is appended: pruned, and compacted if the log has grown. */
  ghost function Trimmed(retention: int, st: Store, id: string, now: int): Store {
    var seen := Prune(retention, st.seen, now);
    Store(if NeedsCompaction(st.log, id) then Compacted(seen) else st.log, seen)
  }

  ghost function Checked(retention: int, st: Store, id: string, at: Stamp)
    : (Store, Result<Decision, StoreError>)
  {
    if !Wire.IsSha256Ref(id) || at.Malformed? then (st, Err(RecordInvalid))
    else
      var seen := Prune(retention, st.seen, at.unix);
      if id in seen then (st.(seen := seen), Ok(Replay))
      else
        var trimmed := Trimmed(retention, st, id, at.unix);
        if LogBytes(trimmed.log) + |id| + 22 > MAX_REPLAY_LOG_BYTES then (trimmed, Err(ActiveWindowTooLarge))
        else (Store(trimmed.log + [Entry(id, at)], seen[id := at.unix]), Ok(FreshRecorded))
  }

  // ---------------------------------------------------------------- the store itself

  class LogFile {
    var lines: seq<LogLine>
    var partialTail: bool

    constructor ()
      ensures lines == [] && !partialTail
    {
      lines, partialTail := [], false;
    }
  }

  class DurableReplayStore {
    const file: LogFile
    const retention: int
    var seen: map<string, int>

    function View(): Store
      reads this, file
    {
      Store(file.lines, seen)
    }

    constructor (file: LogFile, retention: int, seen: map<string, int>)
      ensures this.file == file && this.retention == retention && this.seen == seen
    {
      this.file, this.retention, this.seen := file, retention, seen;
    }

    /** Refuses an oversized, torn, malformed or duplicated log, and otherwise remembers every line of it. */
    static method Open(file: LogFile, retention: int) returns (r: Result<DurableReplayStore, StoreError>)
      ensures r.Err? <==> OpenLog(file.lines, file.partialTail).Err?
      ensures r.Err? ==> OpenLog(file.lines, file.partialTail) == Err(r.error)
      ensures r.Ok? ==>
                && fresh(r.value) && r.value.file == file && r.value.retention == retention
                && OpenLog(file.lines, file.partialTail) == Ok(r.value.seen)
    {
      var bytes := MeasureLog(file.lines);
      if bytes > MAX_REPLAY_LOG_BYTES {
        return Err(LogTooLarge);
      }
      if file.lines != [] && file.partialTail {
        return Err(PartialTail);
      }
      var loaded: map<string, int> := map[];
      var i := 0;
      while i < |file.lines|
        invariant 0 <= i <= |file.lines|
        invariant Load(file.lines, map[]) == Load(file.lines[i..], loaded)
      {
        var line := file.lines[i];
        assert file.lines[i..][1..] == file.lines[i + 1..];
        if !ValidLine(line) {
          return Err(InvalidLine);
        }
        if line.id in loaded {
          return Err(DuplicateLine);
        }
        loaded := loaded[line.id := line.at.unix];
        i := i + 1;
      }
      var store := new DurableReplayStore(file, retention, loaded);
      r := Ok(store);
    }

    /** Visits the records in any order and drops those older than the retention. */
    method PruneMemory(now: int)
      modifies this
      ensures seen == Prune(retention, old(seen), now)
    {
      var oldest := now - retention;
      var left := seen.Keys;
      while left != {}
        invariant left <= seen.Keys <= old(seen).Keys && forall id | id in seen :: seen[id] == old(seen)[id]
        invariant forall id | id in old(seen).Keys - left :: id in seen <==> old(seen)[id] >= oldest
        decreases left
      {
        var id :| id in left;
        left := left - {id};
        if seen[id] < oldest {
          seen := seen - {id};
        }
      }
    }

    method Compact(now: int)
      modifies this, file
      ensures seen == Prune(retention, old(seen), now)
      ensures file.lines == Compacted(seen)
    {
      PruneMemory(now);
      var ids := Lex.Sort(seen.Keys);
      var compacted: seq<LogLine> := [];
      var i := 0;
      while i < |ids|
        invariant 0 <= i <= |ids|
        invariant compacted == Compacted(seen)[..i]
      {
        assert ids[i] in Lex.Elements(ids);
        compacted := compacted + [Entry(ids[i], At(seen[ids[i]]))];
        i := i + 1;
      }
      file.lines := compacted;
    }

    method CheckAndRecord(id: string, at: Stamp) returns (r: Result<Decision, StoreError>)
      modifies this, file
      ensures (View(), r) == Checked(retention, old(View()), id, at)
    {
      if !Wire.IsSha256Ref(id) || at.Malformed? {
        return Err(RecordInvalid);
      }
      PruneMemory(at.unix);
      if id in seen {
        return Ok(Replay);
      }
      var current := MeasureLog(file.lines);
      if current >= REPLAY_COMPACTION_THRESHOLD_BYTES || current + |id| + 22 > MAX_REPLAY_LOG_BYTES {
        PruneLater(retention, old(seen), at.unix, at.unix);
        Compact(at.unix);
        current := MeasureLog(file.lines);
      }
      if current + |id| + 22 > MAX_REPLAY_LOG_BYTES {
        return Err(ActiveWindowTooLarge);
      }
      file.lines := file.lines + [Entry(id, at)];
      seen := seen[id := at.unix];
      r := Ok(FreshRecorded);
    }
  }

  method MeasureLog(lines: seq<LogLine>) returns (n: nat)
    ensures n == LogBytes(lines)
  {
    n := 0;
    var i := |lines|;
    while i > 0
      invariant 0 <= i <= |lines|
      invariant n == LogBytes(lines[i..])
    {
      i := i - 1;
      assert lines[i..][1..] == lines[i + 1..];
      n := n + LineBytes(lines[i]);
    }
  }

  /** Pruning on the way never changes what a later pruning leaves, so it does not matter how often or when a store
      was pruned before. */
  lemma PruneLater(retention: int, seen: map<string, int>, now: int, later: int)
    requires now <= later
    ensures Prune(retention, Prune(retention, seen, now), later) == Prune(retention, seen, later)
  {
  }

  // ---------------------------------------------------------------- logs that reopen

  /** Only valid lines, no id twice. */
  ghost predicate CleanLines(log: seq<LogLine>) {
    && (forall i | 0 <= i < |log| :: ValidLine(log[i]))
    && (forall i, j | 0 <= i < j < |log| :: log[i].id != log[j].id)
  }

  ghost predicate GoodLog(log: seq<LogLine>) {
    CleanLines(log) && LogBytes(log) <= MAX_REPLAY_LOG_BYTES
  }

  /** The ids on the lines of a log. */
  function Ids(log: seq<LogLine>): set<string> {
    set l | l in log && l.Entry? :: l.id
  }

  lemma IdsOfFirst(log: seq<LogLine>)
    requires log != [] && log[0].Entry?
    ensures Ids(log) == {log[0].id} + Ids(log[1..])
  {
  }

  lemma IdIsOnALine(log: seq<LogLine>, id: string)
    requires id in Ids(log)
    ensures exists i :: 0 <= i < |log| && log[i].Entry? && log[i].id == id
  {
  }

  lemma {:induction false} CleanBytes(log: seq<LogLine>)
    requires CleanLines(log)
    ensures LogBytes(log) == LINE_BYTES * |log|
  {
    if log != [] {
      CleanBytes(log[1..]);
    }
  }

  lemma FirstIdIsNew(log: seq<LogLine>)
    requires CleanLines(log) && log != []
    ensures log[0].id !in Ids(log[1..])
  {
  }

  /** Each line has its own id. */
  lemma {:induction false} CleanIds(log: seq<LogLine>)
    requires CleanLines(log)
    ensures |Ids(log)| == |log|
  {
    if log != [] {
      CleanIds(log[1..]);
      IdsOfFirst(log);
      FirstIdIsNew(log);
    }
  }

  /** Memory says about each id just what its line says. */
  ghost predicate Mirrors(seen: map<string, int>, log: seq<LogLine>) {
    && (forall l | l in log :: l.Entry? && l.at.At? && l.id in seen && seen[l.id] == l.at.unix)
    && (forall id | id in seen :: Entry(id, At(seen[id])) in log)
  }

  lemma {:induction false} LoadMirrors(log: seq<LogLine>, seen: map<string, int>)
    requires CleanLines(log)
    requires forall id | id in seen :: id !in Ids(log)
    ensures Load(log, seen).Ok?
    ensures forall id :: id in Load(log, seen).value <==> id in seen || id in Ids(log)
    ensures forall id | id in seen :: Load(log, seen).value[id] == seen[id]
    ensures forall i | 0 <= i < |log| ::
              log[i].id in Load(log, seen).value && Load(log, seen).value[log[i].id] == log[i].at.unix
    decreases |log|
  {
    if log != [] {
      var l := log[0];
      IdsOfFirst(log);
      FirstIdIsNew(log);
      LoadMirrors(log[1..], seen[l.id := l.at.unix]);
    }
  }

  /** A good log opens, and opening remembers exactly its lines. */
  lemma GoodLogOpens(log: seq<LogLine>)
    requires GoodLog(log)
    ensures OpenLog(log, false).Ok?
    ensures Mirrors(OpenLog(log, false).value, log)
  {
    LoadMirrors(log, map[]);
    var seen := OpenLog(log, false).value;
    forall l | l in log
      ensures l.Entry? && l.at.At? && l.id in seen
    {
      var i :| 0 <= i < |log| && log[i] == l;
      assert ValidLine(log[i]);
    }
    forall id | id in seen
      ensures Entry(id, At(seen[id])) in log
    {
      IdIsOnALine(log, id);
      var i :| 0 <= i < |log| && log[i].Entry? && log[i].id == id;
      assert log[i] == Entry(id, At(seen[id]));
    }
  }

  /** Only a good log opens. */
  lemma {:induction false} LoadRejectsUnclean(log: seq<LogLine>, seen: map<string, int>)
    requires Load(log, seen).Ok?
    ensures CleanLines(log)
    ensures forall id | id in seen :: id !in Ids(log)
    decreases |log|
  {
    if log != [] {
      var l := log[0];
      LoadRejectsUnclean(log[1..], seen[l.id := l.at.unix]);
      IdsOfFirst(log);
      forall i, j | 0 <= i < j < |log|
        ensures log[i].id != log[j].id
      {
        if i == 0 {
          assert log[j] == log[1..][j - 1];
          assert log[j].id in Ids(log[1..]);
        } else {
          assert log[i] == log[1..][i - 1] && log[j] == log[1..][j - 1];
        }
      }
    }
  }

  /** `open` succeeds on a complete file exactly when the log is good. */
  lemma OpensExactlyGoodLogs(log: seq<LogLine>)
    ensures OpenLog(log, false).Ok? <==> GoodLog(log)
  {
    if GoodLog(log) {
      GoodLogOpens(log);
    }
    if OpenLog(log, false).Ok? {
      LoadRejectsUnclean(log, map[]);
    }
  }

  lemma CompactedMirrors(seen: map<string, int>)
    requires forall id | id in seen :: Wire.IsSha256Ref(id)
    ensures CleanLines(Compacted(seen)) && Mirrors(seen, Compacted(seen))
    ensures Ids(Compacted(seen)) == seen.Keys
  {
    var ids := Lex.Listing(seen.Keys);
    var lines := Compacted(seen);
    forall i | 0 <= i < |ids|
      ensures ids[i] in seen && ValidLine(lines[i]) && lines[i] == Entry(ids[i], At(seen[ids[i]]))
    {
      assert ids[i] in Lex.Elements(ids);
    }
    forall i, j | 0 <= i < j < |ids|
      ensures lines[i].id != lines[j].id
    {
      Lex.BeforeIrreflexive(ids[i]);
    }
    forall id | id in seen
      ensures Entry(id, At(seen[id])) in lines
    {
      assert id in Lex.Elements(ids);
      var i :| 0 <= i < |ids| && ids[i] == id;
      assert lines[i] == Entry(id, At(seen[id]));
    }
  }

  // ---------------------------------------------------------------- space

  /** Every remembered record is on a line. */
  ghost predicate Backed(st: Store) {
    forall id | id in st.seen :: Entry(id, At(st.seen[id])) in st.log
  }

  lemma BackedIdsAreRefs(st: Store)
    requires GoodLog(st.log) && Backed(st)
    ensures forall id | id in st.seen :: Wire.IsSha256Ref(id)
    ensures |st.seen| <= |st.log|
  {
    forall id | id in st.seen
      ensures Wire.IsSha256Ref(id) && id in Ids(st.log)
    {
      var l := Entry(id, At(st.seen[id]));
      var i :| 0 <= i < |st.log| && st.log[i] == l;
      assert ValidLine(st.log[i]);
    }
    CleanIds(st.log);
    assert st.seen.Keys <= Ids(st.log);
    SubsetCardinality(st.seen.Keys, Ids(st.log));
  }

  lemma CompactedSize(seen: map<string, int>)
    requires forall id | id in seen :: Wire.IsSha256Ref(id)
    ensures LogBytes(Compacted(seen)) == LINE_BYTES * |seen| && Ids(Compacted(seen)) == seen.Keys
  {
    CompactedMirrors(seen);
    CleanBytes(Compacted(seen));
    CleanIds(Compacted(seen));
  }

  lemma PrunedBacked(retention: int, st: Store, now: int)
    requires GoodLog(st.log) && Backed(st)
    ensures var seen := Prune(retention, st.seen, now);
            && (forall id | id in seen :: Wire.IsSha256Ref(id))
            && LINE_BYTES * |seen| <= LogBytes(st.log)
  {
    BackedIdsAreRefs(st);
    BackedIdsAreRefs(st.(seen := Prune(retention, st.seen, now)));
    CleanBytes(st.log);
  }

  /** A new record is refused only if the live records alone, with it, would fill the log; otherwise it is recorded. */
  lemma RefusedForSpaceIff(retention: int, st: Store, id: string, at: Stamp)
    requires GoodLog(st.log) && Backed(st) && Wire.IsSha256Ref(id) && at.At?
    requires id !in Prune(retention, st.seen, at.unix)
    ensures var full := LINE_BYTES * (|Prune(retention, st.seen, at.unix)| + 1) > MAX_REPLAY_LOG_BYTES;
            Checked(retention, st, id, at).1 == if full then Err(ActiveWindowTooLarge) else Ok(FreshRecorded)
  {
    PrunedBacked(retention, st, at.unix);
    CompactedSize(Prune(retention, st.seen, at.unix));
  }

  lemma CutLog(seen: map<string, int>, id: string, at: Stamp)
    requires (forall x | x in seen :: Wire.IsSha256Ref(x)) && Wire.IsSha256Ref(id) && id !in seen && at.At?
    ensures var log := Compacted(seen) + [Entry(id, at)];
            Ids(log) == seen.Keys + {id} && LogBytes(log) == LINE_BYTES * |seen[id := at.unix]|
  {
    CompactedSize(seen);
    AppendedLine(Compacted(seen), id, at);
    assert seen[id := at.unix].Keys == seen.Keys + {id};
  }

  /** What recording does to the log: below the threshold it is only appended to; from there on it is cut down to the
      live records first. */
  lemma RecordedLog(retention: int, st: Store, id: string, at: Stamp)
    requires GoodLog(st.log) && Backed(st)
    requires Checked(retention, st, id, at).1 == Ok(FreshRecorded)
    ensures var after := Checked(retention, st, id, at).0;
            && after.seen == Prune(retention, st.seen, at.unix)[id := at.unix]
            && (LogBytes(st.log) < REPLAY_COMPACTION_THRESHOLD_BYTES ==> after.log == st.log + [Entry(id, at)])
            && (LogBytes(st.log) >= REPLAY_COMPACTION_THRESHOLD_BYTES ==>
                  Ids(after.log) == after.seen.Keys && LogBytes(after.log) == LINE_BYTES * |after.seen|)
  {
    var seen := Prune(retention, st.seen, at.unix);
    PrunedBacked(retention, st, at.unix);
    CutLog(seen, id, at);
    assert seen[id := at.unix].Keys == seen.Keys + {id};
  }

  lemma {:induction false} AppendedLine(log: seq<LogLine>, id: string, at: Stamp)
    ensures LogBytes(log + [Entry(id, at)]) == LogBytes(log) + |id| + 22
    ensures Ids(log + [Entry(id, at)]) == Ids(log) + {id}
  {
    var longer := log + [Entry(id, at)];
    assert forall l :: l in longer <==> l in log || l == Entry(id, at);
    if log == [] {
      assert longer[1..] == [];
    } else {
      assert longer[1..] == log[1..] + [Entry(id, at)];
      AppendedLine(log[1..], id, at);
    }
  }
}
