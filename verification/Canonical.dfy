/** The qsol-fed-canonical-json/1 profile (src/canonical.rs, tools/qsol_canonical.py).

    Unicode normalization form C is the parameter `nfc`, of which only idempotence is assumed.  A JSON object is
    the sequence of its members; a BTreeMap is one whose keys ascend in UTF-8 byte order. */
module Canonical {
  import opened Wrappers
  import opened Json
  import Lex
  import Utf8
  import Wire

  const SAFE_INTEGER_MIN := -9_007_199_254_740_991
  const MAX_INPUT_BYTES := 65_536
  const MAX_DEPTH := 32
  const MAX_ARRAY_ITEMS := 1_024
  const MAX_OBJECT_MEMBERS := 1_024

  datatype Fault =
    | InputTooLarge | BomForbidden | InvalidUtf8 | MalformedJson
    | IntegerOutOfRange | NonIntegerNumber | StringTooLarge | TooManyArrayItems | TooManyObjectMembers
    | DuplicateKey | NormalizedDuplicateKey | MaxDepthExceeded | OutputTooLarge
    | EnvelopeMustBeObject | ProjectionFieldsMissing

  type Normalizer = string -> string

  ghost predicate Idempotent(nfc: Normalizer) {
    forall s :: nfc(nfc(s)) == nfc(s)
  }

  // ---------------------------------------------------------------- ordered maps

  /** The order of a BTreeMap with string keys. */
  predicate KeyBefore(a: string, b: string) {
    Lex.Less(Utf8.Encode(a), Utf8.Encode(b))
  }

  predicate Ordered(members: seq<Member>) {
    forall i, j | 0 <= i < j < |members| :: KeyBefore(members[i].key, members[j].key)
  }

  function Keys(members: seq<Member>): set<string> {
    set m | m in members :: m.key
  }

  function InsertMember(members: seq<Member>, m: Member): seq<Member> {
    if members == [] || KeyBefore(m.key, members[0].key) then [m] + members
    else if members[0].key == m.key then [m] + members[1..]
    else [members[0]] + InsertMember(members[1..], m)
  }

  lemma KeyOrder(a: string, b: string)
    ensures KeyBefore(a, b) <==> Lex.Before(a, b)
    ensures !KeyBefore(a, a)
    ensures KeyBefore(a, b) || a == b || KeyBefore(b, a)
  {
    Utf8.OrderPreserved(a, b);
    Utf8.OrderPreserved(b, a);
    Lex.BeforeTotal(a, b);
    Lex.LessIrreflexive(Utf8.Encode(a));
  }

  lemma {:induction false} InsertLast(members: seq<Member>, m: Member)
    requires forall i | 0 <= i < |members| :: KeyBefore(members[i].key, m.key)
    ensures InsertMember(members, m) == members + [m]
  {
    if members != [] {
      KeyOrder(members[0].key, m.key);
      if KeyBefore(m.key, members[0].key) {
        Lex.LessTransitive(Utf8.Encode(m.key), Utf8.Encode(members[0].key), Utf8.Encode(m.key));
        KeyOrder(m.key, m.key);
      }
      InsertLast(members[1..], m);
    }
  }

  /** Inserting a new key keeps a map ordered and adds just that member. */
  lemma {:induction false} InsertKeeps(members: seq<Member>, m: Member)
    requires Ordered(members) && m.key !in Keys(members)
    ensures Ordered(InsertMember(members, m))
    ensures forall x :: x in InsertMember(members, m) <==> x == m || x in members
    ensures |InsertMember(members, m)| == |members| + 1
  {
    if members == [] {
    } else if KeyBefore(m.key, members[0].key) {
      forall j | 0 < j < |members|
        ensures KeyBefore(m.key, members[j].key)
      {
        Lex.LessTransitive(Utf8.Encode(m.key), Utf8.Encode(members[0].key), Utf8.Encode(members[j].key));
      }
    } else {
      var first, rest := members[0], members[1..];
      assert first in members && first.key in Keys(members);
      assert forall x :: x in members <==> x == first || x in rest;
      KeyOrder(first.key, m.key);
      InsertKeeps(rest, m);
      var q := InsertMember(rest, m);
      forall j | 0 <= j < |q|
        ensures KeyBefore(first.key, q[j].key)
      {
        if q[j] != m {
          assert q[j] in rest;
          var i :| 0 <= i < |rest| && rest[i] == q[j];
          assert members[i + 1] == q[j];
        }
      }
    }
  }

  // ---------------------------------------------------------------- the visitor

  function NormalizeString(nfc: Normalizer, s: string): Result<string, Fault> {
    if |Utf8.Encode(nfc(s))| > Wire.MAX_STRING_UTF8 then Err(StringTooLarge) else Ok(nfc(s))
  }

  function Visit(nfc: Normalizer, j: Json): Result<Json, Fault>
    decreases j, 1
  {
    match j
    case Null => Ok(Null)
    case Bool(b) => Ok(Bool(b))
    case Integer(n) => if SAFE_INTEGER_MIN <= n <= Wire.SAFE_INTEGER_MAX then Ok(Integer(n)) else Err(IntegerOutOfRange)
    case Decimal => Err(NonIntegerNumber)
    case Str(s) =>
      var n := NormalizeString(nfc, s);
      if n.Err? then Err(n.error) else Ok(Str(n.value))
    case Array(items) => VisitItems(nfc, items, [])
    case Object(members) => VisitMembers(nfc, members, {}, [])
  }

  function VisitItems(nfc: Normalizer, items: seq<Json>, done: seq<Json>): Result<Json, Fault>
    decreases items, 0
  {
    if items == [] then Ok(Array(done))
    else
      var v := Visit(nfc, items[0]);
      if v.Err? then v
      else if |done| >= MAX_ARRAY_ITEMS then Err(TooManyArrayItems)
      else VisitItems(nfc, items[1..], done + [v.value])
  }

  function VisitMembers(nfc: Normalizer, members: seq<Member>, rawSeen: set<string>, done: seq<Member>)
    : Result<Json, Fault>
    decreases members, 0
  {
    if members == [] then Ok(Object(done))
    else
      var m := members[0];
      if |done| >= MAX_OBJECT_MEMBERS then Err(TooManyObjectMembers)
      else if m.key in rawSeen then Err(DuplicateKey)
      else
        var key := NormalizeString(nfc, m.key);
        if key.Err? then Err(key.error)
        else if key.value in Keys(done) then Err(NormalizedDuplicateKey)
        else
          var v := Visit(nfc, m.value);
          if v.Err? then v
          else VisitMembers(nfc, members[1..], rawSeen + {m.key}, InsertMember(done, Member(key.value, v.value)))
  }

  method VisitValue(nfc: Normalizer, j: Json) returns (r: Result<Json, Fault>)
    ensures r == Visit(nfc, j)
    decreases j, 1
  {
    match j {
      case Array(_) => r := VisitSeq(nfc, j);
      case Object(_) => r := VisitMap(nfc, j);
      case _ => r := Visit(nfc, j);
    }
  }

  method VisitSeq(nfc: Normalizer, j: Json) returns (r: Result<Json, Fault>)
    requires j.Array?
    ensures r == Visit(nfc, j)
    decreases j, 0
  {
    var values: seq<Json> := [];
    var i := 0;
    while i < |j.items|
      invariant 0 <= i <= |j.items|
      invariant Visit(nfc, j) == VisitItems(nfc, j.items[i..], values)
    {
      assert j.items[i..][1..] == j.items[i + 1..] && j.items[i..][0] == j.items[i];
      var v := VisitValue(nfc, j.items[i]);
      if v.Err? {
        return v;
      }
      if |values| >= MAX_ARRAY_ITEMS {
        return Err(TooManyArrayItems);
      }
      values := values + [v.value];
      i := i + 1;
    }
    r := Ok(Array(values));
  }

  method VisitMap(nfc: Normalizer, j: Json) returns (r: Result<Json, Fault>)
    requires j.Object?
    ensures r == Visit(nfc, j)
    decreases j, 0
  {
    var result: seq<Member> := [];
    var rawSeen: set<string> := {};
    var normalizedSeen: set<string> := {};
    var i := 0;
    while i < |j.members|
      invariant 0 <= i <= |j.members|
      invariant Ordered(result) && normalizedSeen == Keys(result)
      invariant Visit(nfc, j) == VisitMembers(nfc, j.members[i..], rawSeen, result)
    {
      var m := j.members[i];
      assert j.members[i..][1..] == j.members[i + 1..] && j.members[i..][0] == m;
      if |result| >= MAX_OBJECT_MEMBERS {
        return Err(TooManyObjectMembers);
      }
      if m.key in rawSeen {
        return Err(DuplicateKey);
      }
      rawSeen := rawSeen + {m.key};
      var key := NormalizeString(nfc, m.key);
      if key.Err? {
        return Err(key.error);
      }
      if key.value in normalizedSeen {
        return Err(NormalizedDuplicateKey);
      }
      normalizedSeen := normalizedSeen + {key.value};
      var v := VisitValue(nfc, m.value);
      if v.Err? {
        return v;
      }
      InsertKeeps(result, Member(key.value, v.value));
      result := InsertMember(result, Member(key.value, v.value));
      i := i + 1;
    }
    r := Ok(Object(result));
  }

  // ---------------------------------------------------------------- bounds

  /** `validate_depth`. */
  predicate DepthOk(v: Json, depth: nat)
    decreases v
  {
    && depth <= MAX_DEPTH
    && (v.Array? ==> forall x | x in v.items :: DepthOk(x, depth + 1))
    && (v.Object? ==> forall m | m in v.members :: DepthOk(m.value, depth + 1))
  }

  predicate GoodString(nfc: Normalizer, s: string) {
    nfc(s) == s && |Utf8.Encode(s)| <= Wire.MAX_STRING_UTF8
  }

  ghost predicate DistinctKeys(members: seq<Member>) {
    forall i, j | 0 <= i < j < |members| :: members[i].key != members[j].key
  }

  /** Normalized and within every limit but depth; objects in any order. */
  ghost predicate Bounded(nfc: Normalizer, v: Json)
    decreases v
  {
    match v
    case Null => true
    case Bool(_) => true
    case Integer(n) => SAFE_INTEGER_MIN <= n <= Wire.SAFE_INTEGER_MAX
    case Decimal => false
    case Str(s) => GoodString(nfc, s)
    case Array(items) => |items| <= MAX_ARRAY_ITEMS && forall x | x in items :: Bounded(nfc, x)
    case Object(members) =>
      && |members| <= MAX_OBJECT_MEMBERS && DistinctKeys(members)
      && forall m | m in members :: GoodString(nfc, m.key) && Bounded(nfc, m.value)
  }

  /** Every object is a BTreeMap. */
  ghost predicate Arranged(v: Json)
    decreases v
  {
    && (v.Array? ==> forall x | x in v.items :: Arranged(x))
    && (v.Object? ==> Ordered(v.members) && forall m | m in v.members :: Arranged(m.value))
  }

  /** A value of the profile. */
  ghost predicate InProfile(nfc: Normalizer, v: Json) {
    Bounded(nfc, v) && Arranged(v)
  }

  lemma {:induction false} BoundedPrintable(nfc: Normalizer, v: Json)
    requires Bounded(nfc, v)
    ensures Printable(v)
    decreases v
  {
    match v {
      case Array(items) =>
        forall x | x in items ensures Printable(x) { BoundedPrintable(nfc, x); }
      case Object(members) =>
        forall m | m in members ensures Printable(m.value) { BoundedPrintable(nfc, m.value); }
      case _ =>
    }
  }

  lemma OrderedDistinct(members: seq<Member>)
    requires Ordered(members)
    ensures DistinctKeys(members)
  {
    forall i, j | 0 <= i < j < |members|
      ensures members[i].key != members[j].key
    {
      KeyOrder(members[i].key, members[i].key);
    }
  }

  // ---------------------------------------------------------------- the visitor produces values of the profile

  lemma {:induction false} VisitSound(nfc: Normalizer, j: Json)
    requires Idempotent(nfc) && Visit(nfc, j).Ok?
    ensures InProfile(nfc, Visit(nfc, j).value)
    decreases j, 1
  {
    match j {
      case Array(items) => VisitItemsSound(nfc, items, []);
      case Object(members) => VisitMembersSound(nfc, members, {}, []);
      case _ =>
    }
  }

  lemma {:induction false} VisitItemsSound(nfc: Normalizer, items: seq<Json>, done: seq<Json>)
    requires Idempotent(nfc) && VisitItems(nfc, items, done).Ok?
    requires InProfile(nfc, Array(done))
    ensures InProfile(nfc, VisitItems(nfc, items, done).value)
    decreases items, 0
  {
    if items != [] {
      VisitSound(nfc, items[0]);
      VisitItemsSound(nfc, items[1..], done + [Visit(nfc, items[0]).value]);
    }
  }

  lemma {:induction false} VisitMembersSound(nfc: Normalizer, members: seq<Member>, rawSeen: set<string>,
                                             done: seq<Member>)
    requires Idempotent(nfc) && VisitMembers(nfc, members, rawSeen, done).Ok?
    requires InProfile(nfc, Object(done))
    ensures InProfile(nfc, VisitMembers(nfc, members, rawSeen, done).value)
    decreases members, 0
  {
    if members != [] {
      VisitSound(nfc, members[0].value);
      var m := Member(nfc(members[0].key), Visit(nfc, members[0].value).value);
      InsertKeeps(done, m);
      OrderedDistinct(InsertMember(done, m));
      VisitMembersSound(nfc, members[1..], rawSeen + {members[0].key}, InsertMember(done, m));
    }
  }

  // ---------------------------------------------------------------- and leaves them alone

  lemma {:induction false} VisitIdentity(nfc: Normalizer, v: Json)
    requires InProfile(nfc, v)
    ensures Visit(nfc, v) == Ok(v)
    decreases v, 1
  {
    match v {
      case Array(items) =>
        VisitItemsIdentity(nfc, items, []);
        assert [] + items == items;
      case Object(members) =>
        VisitMembersIdentity(nfc, members, []);
        assert [] + members == members;
        assert Keys([]) == {};
      case _ =>
    }
  }

  lemma {:induction false} VisitItemsIdentity(nfc: Normalizer, items: seq<Json>, done: seq<Json>)
    requires |done| + |items| <= MAX_ARRAY_ITEMS && forall x | x in items :: InProfile(nfc, x)
    ensures VisitItems(nfc, items, done) == Ok(Array(done + items))
    decreases items, 0
  {
    if items == [] {
      assert done + items == done;
    } else {
      VisitIdentity(nfc, items[0]);
      VisitItemsIdentity(nfc, items[1..], done + [items[0]]);
      assert done + [items[0]] + items[1..] == done + items;
    }
  }

  lemma {:induction false} VisitMembersIdentity(nfc: Normalizer, members: seq<Member>, done: seq<Member>)
    requires |done| + |members| <= MAX_OBJECT_MEMBERS && Ordered(done + members)
    requires forall m | m in members :: GoodString(nfc, m.key) && InProfile(nfc, m.value)
    ensures VisitMembers(nfc, members, Keys(done), done) == Ok(Object(done + members))
    decreases members, 0
  {
    if members == [] {
      assert done + members == done;
    } else {
      var m, rest := members[0], members[1..];
      assert members == [m] + rest;
      AppendedKey(done, m, rest);
      VisitIdentity(nfc, m.value);
      VisitMembersIdentity(nfc, rest, done + [m]);
    }
  }

  /** The next key of an ordered listing is new and goes to the end. */
  lemma AppendedKey(done: seq<Member>, m: Member, rest: seq<Member>)
    requires Ordered(done + ([m] + rest))
    ensures m.key !in Keys(done)
    ensures InsertMember(done, m) == done + [m]
    ensures Keys(done + [m]) == Keys(done) + {m.key}
    ensures done + [m] + rest == done + ([m] + rest)
  {
    var all := done + ([m] + rest);
    assert all[|done|] == m;
    forall i | 0 <= i < |done|
      ensures KeyBefore(done[i].key, m.key) && done[i].key != m.key
    {
      assert all[i] == done[i];
      KeyOrder(m.key, m.key);
    }
    InsertLast(done, m);
  }

  // ---------------------------------------------------------------- parsing and printing documents

  predicate StartsWithBom(raw: seq<Utf8.byte>) {
    |raw| >= 3 && raw[0] == 0xEF && raw[1] == 0xBB && raw[2] == 0xBF
  }

  function ParseCanonicalValue(nfc: Normalizer, raw: seq<Utf8.byte>): Result<Json, Fault> {
    if |raw| > MAX_INPUT_BYTES then Err(InputTooLarge)
    else if StartsWithBom(raw) then Err(BomForbidden)
    else
      var text := Utf8.Decode(raw);
      if text.None? then Err(InvalidUtf8)
      else
        var j := ParseDocument(text.value);
        if j.None? then Err(MalformedJson)
        else
          var v := Visit(nfc, j.value);
          if v.Err? then v
          else if !DepthOk(v.value, 1) then Err(MaxDepthExceeded)
          else v
  }

  /** `normalize_constructed`.  A constructed value holds no Decimal. */
  function NormalizeConstructed(nfc: Normalizer, v: Json, depth: nat): Result<Json, Fault>
    decreases v, 1
  {
    if depth > MAX_DEPTH then Err(MaxDepthExceeded)
    else match v
      case Null => Ok(Null)
      case Bool(b) => Ok(Bool(b))
      case Integer(n) => if SAFE_INTEGER_MIN <= n <= Wire.SAFE_INTEGER_MAX then Ok(v) else Err(IntegerOutOfRange)
      case Decimal => Err(NonIntegerNumber)
      case Str(s) =>
        var n := NormalizeString(nfc, s);
        if n.Err? then Err(n.error) else Ok(Str(n.value))
      case Array(items) =>
        if |items| > MAX_ARRAY_ITEMS then Err(TooManyArrayItems) else NormalizeItems(nfc, items, depth, [])
      case Object(members) =>
        if |members| > MAX_OBJECT_MEMBERS then Err(TooManyObjectMembers) else NormalizeMembers(nfc, members, depth, [])
  }

  function NormalizeItems(nfc: Normalizer, items: seq<Json>, depth: nat, done: seq<Json>): Result<Json, Fault>
    decreases items, 0
  {
    if items == [] then Ok(Array(done))
    else
      var v := NormalizeConstructed(nfc, items[0], depth + 1);
      if v.Err? then v else NormalizeItems(nfc, items[1..], depth, done + [v.value])
  }

  function NormalizeMembers(nfc: Normalizer, members: seq<Member>, depth: nat, done: seq<Member>): Result<Json, Fault>
    decreases members, 0
  {
    if members == [] then Ok(Object(done))
    else
      var m := members[0];
      var key := NormalizeString(nfc, m.key);
      if key.Err? then Err(key.error)
      else if key.value in Keys(done) then Err(NormalizedDuplicateKey)
      else
        var v := NormalizeConstructed(nfc, m.value, depth + 1);
        if v.Err? then v
        else NormalizeMembers(nfc, members[1..], depth, InsertMember(done, Member(key.value, v.value)))
  }

  method NormalizeValue(nfc: Normalizer, v: Json, depth: nat) returns (r: Result<Json, Fault>)
    ensures r == NormalizeConstructed(nfc, v, depth)
    decreases v, 1
  {
    if depth <= MAX_DEPTH && v.Object? && |v.members| <= MAX_OBJECT_MEMBERS {
      r := NormalizeObject(nfc, v, depth);
    } else {
      r := NormalizeConstructed(nfc, v, depth);
    }
  }

  /** The loop of `normalize_constructed` that fills the map of an object. */
  method NormalizeObject(nfc: Normalizer, v: Json, depth: nat) returns (r: Result<Json, Fault>)
    requires depth <= MAX_DEPTH && v.Object? && |v.members| <= MAX_OBJECT_MEMBERS
    ensures r == NormalizeConstructed(nfc, v, depth)
    decreases v, 0
  {
    var normalized: seq<Member> := [];
    for i := 0 to |v.members|
      invariant NormalizeConstructed(nfc, v, depth) == NormalizeMembers(nfc, v.members[i..], depth, normalized)
    {
      var m := v.members[i];
      assert v.members[i..][1..] == v.members[i + 1..] && v.members[i..][0] == m;
      var key := NormalizeString(nfc, m.key);
      if key.Err? {
        return Err(key.error);
      }
      if key.value in Keys(normalized) {
        return Err(NormalizedDuplicateKey);
      }
      var value := NormalizeValue(nfc, m.value, depth + 1);
      if value.Err? {
        return value;
      }
      normalized := InsertMember(normalized, Member(key.value, value.value));
    }
    r := Ok(Object(normalized));
  }

  // ---------------------------------------------------------------- what normalization does

  lemma {:induction false} NormalizeSound(nfc: Normalizer, v: Json, depth: nat)
    requires Idempotent(nfc) && NormalizeConstructed(nfc, v, depth).Ok?
    ensures InProfile(nfc, NormalizeConstructed(nfc, v, depth).value)
    ensures DepthOk(NormalizeConstructed(nfc, v, depth).value, depth)
    decreases v, 1
  {
    match v {
      case Array(items) => NormalizeItemsSound(nfc, items, depth, []);
      case Object(members) => NormalizeMembersSound(nfc, members, depth, []);
      case _ =>
    }
  }

  lemma {:induction false} NormalizeItemsSound(nfc: Normalizer, items: seq<Json>, depth: nat, done: seq<Json>)
    requires Idempotent(nfc) && NormalizeItems(nfc, items, depth, done).Ok?
    requires |done| + |items| <= MAX_ARRAY_ITEMS
    requires InProfile(nfc, Array(done)) && DepthOk(Array(done), depth)
    ensures InProfile(nfc, NormalizeItems(nfc, items, depth, done).value)
    ensures DepthOk(NormalizeItems(nfc, items, depth, done).value, depth)
    decreases items, 0
  {
    if items != [] {
      NormalizeSound(nfc, items[0], depth + 1);
      var v := NormalizeConstructed(nfc, items[0], depth + 1).value;
      NormalizeItemsSound(nfc, items[1..], depth, done + [v]);
    }
  }

  lemma {:induction false} NormalizeMembersSound(nfc: Normalizer, members: seq<Member>, depth: nat, done: seq<Member>)
    requires Idempotent(nfc) && NormalizeMembers(nfc, members, depth, done).Ok?
    requires |done| + |members| <= MAX_OBJECT_MEMBERS
    requires InProfile(nfc, Object(done)) && DepthOk(Object(done), depth)
    ensures InProfile(nfc, NormalizeMembers(nfc, members, depth, done).value)
    ensures DepthOk(NormalizeMembers(nfc, members, depth, done).value, depth)
    decreases members, 0
  {
    if members != [] {
      NormalizeSound(nfc, members[0].value, depth + 1);
      var m := Member(nfc(members[0].key), NormalizeConstructed(nfc, members[0].value, depth + 1).value);
      InsertKeeps(done, m);
      OrderedDistinct(InsertMember(done, m));
      NormalizeMembersSound(nfc, members[1..], depth, InsertMember(done, m));
    }
  }

  lemma {:induction false} NormalizeIdentity(nfc: Normalizer, v: Json, depth: nat)
    requires InProfile(nfc, v) && DepthOk(v, depth)
    ensures NormalizeConstructed(nfc, v, depth) == Ok(v)
    decreases v, 1
  {
    match v {
      case Array(items) =>
        NormalizeItemsIdentity(nfc, items, depth, []);
        assert [] + items == items;
      case Object(members) =>
        NormalizeMembersIdentity(nfc, members, depth, []);
        assert [] + members == members;
      case _ =>
    }
  }

  lemma {:induction false} NormalizeItemsIdentity(nfc: Normalizer, items: seq<Json>, depth: nat, done: seq<Json>)
    requires forall x | x in items :: InProfile(nfc, x) && DepthOk(x, depth + 1)
    ensures NormalizeItems(nfc, items, depth, done) == Ok(Array(done + items))
    decreases items, 0
  {
    if items == [] {
      assert done + items == done;
    } else {
      NormalizeIdentity(nfc, items[0], depth + 1);
      NormalizeItemsIdentity(nfc, items[1..], depth, done + [items[0]]);
      assert done + [items[0]] + items[1..] == done + items;
    }
  }

  lemma {:induction false} NormalizeMembersIdentity(nfc: Normalizer, members: seq<Member>, depth: nat,
                                                    done: seq<Member>)
    requires Ordered(done + members)
    requires forall m | m in members :: GoodString(nfc, m.key) && InProfile(nfc, m.value) && DepthOk(m.value, depth + 1)
    ensures NormalizeMembers(nfc, members, depth, done) == Ok(Object(done + members))
    decreases members, 0
  {
    if members == [] {
      assert done + members == done;
    } else {
      var m, rest := members[0], members[1..];
      assert members == [m] + rest;
      AppendedKey(done, m, rest);
      NormalizeIdentity(nfc, m.value, depth + 1);
      NormalizeMembersIdentity(nfc, rest, depth, done + [m]);
    }
  }

  // ---------------------------------------------------------------- canonicalize

  /** `serialize_canonical`. */
  function SerializeCanonical(nfc: Normalizer, v: Json): Result<string, Fault> {
    var n := NormalizeConstructed(nfc, v, 1);
    if n.Err? then Err(n.error)
    else if !Printable(n.value) then Err(NonIntegerNumber)
    else if |Utf8.Encode(Print(n.value))| > MAX_INPUT_BYTES then Err(OutputTooLarge)
    else Ok(Print(n.value))
  }

  function Canonicalize(nfc: Normalizer, raw: seq<Utf8.byte>): Result<seq<Utf8.byte>, Fault> {
    var v := ParseCanonicalValue(nfc, raw);
    if v.Err? then Err(v.error)
    else
      var text := SerializeCanonical(nfc, v.value);
      if text.Err? then Err(text.error) else Ok(Utf8.Encode(text.value))
  }

  /** The bytes a value of the profile prints to. */
  ghost function Bytes(nfc: Normalizer, v: Json): seq<Utf8.byte>
    requires Bounded(nfc, v)
  {
    BoundedPrintable(nfc, v);
    Utf8.Encode(Print(v))
  }

  /** A value of the profile, within the depth limit, whose printed form fits. */
  ghost predicate Representable(nfc: Normalizer, v: Json) {
    InProfile(nfc, v) && DepthOk(v, 1) && |Bytes(nfc, v)| <= MAX_INPUT_BYTES
  }

  lemma NoBom(nfc: Normalizer, v: Json)
    requires Bounded(nfc, v)
    ensures !StartsWithBom(Bytes(nfc, v))
  {
    BoundedPrintable(nfc, v);
    PrintHead(v);
    assert Bytes(nfc, v)[0] == Utf8.EncodeChar(Print(v)[0])[0];
  }

  /** Parsing the printed form of a value returns the value. */
  lemma ParsePrinted(nfc: Normalizer, v: Json)
    requires Representable(nfc, v)
    ensures ParseCanonicalValue(nfc, Bytes(nfc, v)) == Ok(v)
    ensures Printable(v) && SerializeCanonical(nfc, v) == Ok(Print(v))
    ensures Canonicalize(nfc, Bytes(nfc, v)) == Ok(Bytes(nfc, v))
  {
    BoundedPrintable(nfc, v);
    NoBom(nfc, v);
    Utf8.DecodeEncode(Print(v));
    PrintThenParse(v);
    VisitIdentity(nfc, v);
    NormalizeIdentity(nfc, v, 1);
  }

  /** After a successful parse, printing fails only when the output is too large. */
  lemma ParsedPrints(nfc: Normalizer, raw: seq<Utf8.byte>)
    requires Idempotent(nfc) && ParseCanonicalValue(nfc, raw).Ok?
    ensures var v := ParseCanonicalValue(nfc, raw).value;
            && InProfile(nfc, v) && DepthOk(v, 1)
            && Canonicalize(nfc, raw) ==
               if |Bytes(nfc, v)| <= MAX_INPUT_BYTES then Ok(Bytes(nfc, v)) else Err(OutputTooLarge)
  {
    VisitSound(nfc, ParseDocument(Utf8.Decode(raw).value).value);
    var v := ParseCanonicalValue(nfc, raw).value;
    BoundedPrintable(nfc, v);
    NormalizeIdentity(nfc, v, 1);
  }

  /** Canonicalizing canonical bytes changes nothing. */
  lemma CanonicalizeIdempotent(nfc: Normalizer, raw: seq<Utf8.byte>)
    requires Idempotent(nfc) && Canonicalize(nfc, raw).Ok?
    ensures Canonicalize(nfc, Canonicalize(nfc, raw).value) == Canonicalize(nfc, raw)
  {
    ParsedPrints(nfc, raw);
    ParsePrinted(nfc, ParseCanonicalValue(nfc, raw).value);
  }

  /** Two documents have the same canonical bytes exactly when they denote the same value. */
  lemma SameBytesSameValue(nfc: Normalizer, a: seq<Utf8.byte>, b: seq<Utf8.byte>)
    requires Idempotent(nfc) && Canonicalize(nfc, a).Ok? && Canonicalize(nfc, b).Ok?
    ensures Canonicalize(nfc, a) == Canonicalize(nfc, b)
            <==> ParseCanonicalValue(nfc, a) == ParseCanonicalValue(nfc, b)
  {
    ParsedPrints(nfc, a);
    ParsedPrints(nfc, b);
    ParsePrinted(nfc, ParseCanonicalValue(nfc, a).value);
    ParsePrinted(nfc, ParseCanonicalValue(nfc, b).value);
  }

  /** The bytes that pass the exact-canonical check are the printed forms and nothing else. */
  lemma ExactlyCanonical(nfc: Normalizer, raw: seq<Utf8.byte>)
    requires Idempotent(nfc)
    ensures Canonicalize(nfc, raw) == Ok(raw) <==> exists v :: Representable(nfc, v) && Bytes(nfc, v) == raw
  {
    if Canonicalize(nfc, raw) == Ok(raw) {
      ParsedPrints(nfc, raw);
      assert Representable(nfc, ParseCanonicalValue(nfc, raw).value);
    }
    if v :| Representable(nfc, v) && Bytes(nfc, v) == raw {
      ParsePrinted(nfc, v);
    }
  }

  /** Serializing any constructed value yields the printed form of a value of the profile, or an error. */
  lemma SerializedIsCanonical(nfc: Normalizer, v: Json)
    requires Idempotent(nfc) && SerializeCanonical(nfc, v).Ok?
    ensures Canonicalize(nfc, Utf8.Encode(SerializeCanonical(nfc, v).value))
            == Ok(Utf8.Encode(SerializeCanonical(nfc, v).value))
  {
    NormalizeSound(nfc, v, 1);
    ParsePrinted(nfc, NormalizeConstructed(nfc, v, 1).value);
  }

  // ---------------------------------------------------------------- message identifiers

  /** A map without one key. */
  function Without(members: seq<Member>, key: string): seq<Member> {
    if members == [] then []
    else if members[0].key == key then Without(members[1..], key)
    else [members[0]] + Without(members[1..], key)
  }

  /** The fields a message id covers: all but the id itself and the signature. */
  function Projection(members: seq<Member>): seq<Member> {
    Without(Without(members, "message_id"), "signature")
  }

  /** What `derive_message_id` hashes, after its fixed domain prefix. */
  function MessagePreimage(nfc: Normalizer, raw: seq<Utf8.byte>): Result<seq<Utf8.byte>, Fault> {
    var v := ParseCanonicalValue(nfc, raw);
    if v.Err? then Err(v.error)
    else if !v.value.Object? then Err(EnvelopeMustBeObject)
    else if "message_id" !in Keys(v.value.members) || "signature" !in Keys(v.value.members)
    then Err(ProjectionFieldsMissing)
    else
      var text := SerializeCanonical(nfc, Object(Projection(v.value.members)));
      if text.Err? then Err(text.error) else Ok(Utf8.Encode(text.value))
  }

  lemma {:induction false} WithoutKeeps(members: seq<Member>, key: string)
    requires Ordered(members)
    ensures Ordered(Without(members, key)) && |Without(members, key)| <= |members|
    ensures forall m :: m in Without(members, key) <==> m in members && m.key != key
  {
    if members != [] {
      var first, rest := members[0], members[1..];
      assert forall m :: m in members <==> m == first || m in rest;
      WithoutKeeps(rest, key);
      var q := Without(rest, key);
      forall j | 0 <= j < |q|
        ensures KeyBefore(first.key, q[j].key)
      {
        assert q[j] in rest;
        var i :| 0 <= i < |rest| && rest[i] == q[j];
        assert members[i + 1] == q[j];
      }
    }
  }

  lemma ProjectionInProfile(nfc: Normalizer, members: seq<Member>)
    requires InProfile(nfc, Object(members)) && DepthOk(Object(members), 1)
    ensures InProfile(nfc, Object(Projection(members))) && DepthOk(Object(Projection(members)), 1)
  {
    WithoutKeeps(members, "message_id");
    WithoutKeeps(Without(members, "message_id"), "signature");
    OrderedDistinct(Projection(members));
  }

  /** Two envelopes have the same message preimage exactly when all their other fields agree. */
  lemma SamePreimageSameFields(nfc: Normalizer, a: seq<Utf8.byte>, b: seq<Utf8.byte>)
    requires Idempotent(nfc) && MessagePreimage(nfc, a).Ok? && MessagePreimage(nfc, b).Ok?
    ensures MessagePreimage(nfc, a) == MessagePreimage(nfc, b)
            <==> Projection(ParseCanonicalValue(nfc, a).value.members)
                 == Projection(ParseCanonicalValue(nfc, b).value.members)
  {
    ParsedPrints(nfc, a);
    ParsedPrints(nfc, b);
    var p := Projection(ParseCanonicalValue(nfc, a).value.members);
    var q := Projection(ParseCanonicalValue(nfc, b).value.members);
    ProjectionInProfile(nfc, ParseCanonicalValue(nfc, a).value.members);
    ProjectionInProfile(nfc, ParseCanonicalValue(nfc, b).value.members);
    NormalizeIdentity(nfc, Object(p), 1);
    NormalizeIdentity(nfc, Object(q), 1);
    ParsePrinted(nfc, Object(p));
    ParsePrinted(nfc, Object(q));
  }
}
