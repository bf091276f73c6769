/** What the canonical form of a document means (src/canonical.rs): which documents it accepts, and which value each of
    them stands for, stated without the visitor. */
module CanonicalMeaning {
  import opened Wrappers
  import opened Json
  import opened JsonGrammar
  import opened Canonical
  import Lex
  import Ordering
  import Utf8
  import Wire

  /** A document within the limits of the profile: no fractions, integers in the safe range, strings that are not too
      long once normalized, bounded arrays and objects, and no two keys of an object equal once normalized. */
  ghost predicate Acceptable(nfc: Normalizer, j: Json)
    decreases j
  {
    match j
    case Null => true
    case Bool(_) => true
    case Integer(n) => -9_007_199_254_740_991 <= n <= 9_007_199_254_740_991
    case Decimal => false
    case Str(s) => |Utf8.Encode(nfc(s))| <= 8_192
    case Array(items) => |items| <= 1_024 && forall x | x in items :: Acceptable(nfc, x)
    case Object(members) =>
      && |members| <= 1_024 && NormalizedKeysDiffer(nfc, members)
      && forall m | m in members :: |Utf8.Encode(nfc(m.key))| <= 8_192 && Acceptable(nfc, m.value)
  }

  ghost predicate NormalizedKeysDiffer(nfc: Normalizer, members: seq<Member>) {
    forall i, j | 0 <= i < j < |members| :: nfc(members[i].key) != nfc(members[j].key)
  }

  /** The value stands for the document: the same shape and scalars, with every string and key normalized and the
      members of an object in any order. */
  ghost predicate Denotes(nfc: Normalizer, j: Json, v: Json)
    decreases j
  {
    match j
    case Null => v == Null
    case Bool(b) => v == Bool(b)
    case Integer(n) => v == Integer(n)
    case Decimal => false
    case Str(s) => v == Str(nfc(s))
    case Array(items) =>
      v.Array? && |v.items| == |items| && forall i | 0 <= i < |items| :: Denotes(nfc, items[i], v.items[i])
    case Object(members) =>
      && v.Object? && |v.members| == |members|
      && (forall m {:trigger StoodFor(nfc, m, v.members)} | m in members :: StoodFor(nfc, m, v.members))
      && (forall x {:trigger StandsFor(nfc, members, x)} | x in v.members :: StandsFor(nfc, members, x))
  }

  /** One of the members stands for m. */
  ghost predicate StoodFor(nfc: Normalizer, m: Member, all: seq<Member>)
    decreases m
  {
    exists value :: Member(nfc(m.key), value) in all && Denotes(nfc, m.value, value)
  }

  /** x stands for one of the members. */
  ghost predicate StandsFor(nfc: Normalizer, members: seq<Member>, x: Member)
    decreases members
  {
    exists m :: m in members && x.key == nfc(m.key) && Denotes(nfc, m.value, x.value)
  }

  // ---------------------------------------------------------------- ordered maps are determined by their members

  predicate MemberBefore(a: Member, b: Member) {
    KeyBefore(a.key, b.key)
  }

  lemma MemberOrder()
    ensures Ordering.Strict(MemberBefore)
  {
    forall a: Member, b: Member, c: Member
      ensures !MemberBefore(a, a) && (MemberBefore(a, b) && MemberBefore(b, c) ==> MemberBefore(a, c))
    {
      KeyOrder(a.key, a.key);
      if MemberBefore(a, b) && MemberBefore(b, c) {
        Lex.LessTransitive(Utf8.Encode(a.key), Utf8.Encode(b.key), Utf8.Encode(c.key));
      }
    }
  }

  lemma OrderedUnique(a: seq<Member>, b: seq<Member>)
    requires Ordered(a) && Ordered(b) && forall m :: m in a <==> m in b
    ensures a == b
  {
    MemberOrder();
    Ordering.AscendingUnique(MemberBefore, a, b);
  }

  // ---------------------------------------------------------------- the visitor

  /** The visitor accepts exactly the acceptable documents, and returns what they stand for. */
  lemma {:induction false} VisitMeans(nfc: Normalizer, j: Json)
    ensures Visit(nfc, j).Ok? <==> Acceptable(nfc, j)
    ensures Visit(nfc, j).Ok? ==> Denotes(nfc, j, Visit(nfc, j).value)
    decreases j, 1
  {
    match j {
      case Array(items) =>
        VisitItemsMean(nfc, items, []);
      case Object(members) =>
        VisitMembersMean(nfc, members, {}, []);
      case _ =>
    }
  }

  lemma {:induction false} VisitItemsMean(nfc: Normalizer, items: seq<Json>, done: seq<Json>)
    requires |done| <= MAX_ARRAY_ITEMS
    ensures VisitItems(nfc, items, done).Ok? <==>
            |done| + |items| <= MAX_ARRAY_ITEMS && forall x | x in items :: Acceptable(nfc, x)
    ensures VisitItems(nfc, items, done).Ok? ==>
              var v := VisitItems(nfc, items, done).value;
              && v.Array? && |v.items| == |done| + |items| && v.items[..|done|] == done
              && forall i | 0 <= i < |items| :: Denotes(nfc, items[i], v.items[|done| + i])
    decreases items, 0
  {
    if items != [] {
      VisitMeans(nfc, items[0]);
      if Visit(nfc, items[0]).Ok? && |done| < MAX_ARRAY_ITEMS {
        var rest := items[1..];
        VisitItemsMean(nfc, rest, done + [Visit(nfc, items[0]).value]);
        assert forall x :: x in items <==> x == items[0] || x in rest;
        if VisitItems(nfc, items, done).Ok? {
          var v := VisitItems(nfc, items, done).value;
          assert v.items[|done|] == v.items[..|done| + 1][|done|];
          forall i | 0 <= i < |items|
            ensures Denotes(nfc, items[i], v.items[|done| + i])
          {
            if i > 0 {
              assert items[i] == rest[i - 1];
            }
          }
        }
      } else {
        assert items[0] in items;
      }
    }
  }

  /** The members still to come can all be added to those done. */
  ghost predicate MembersFit(nfc: Normalizer, members: seq<Member>, done: seq<Member>) {
    && |done| + |members| <= MAX_OBJECT_MEMBERS && NormalizedKeysDiffer(nfc, members)
    && forall m | m in members ::
         && |Utf8.Encode(nfc(m.key))| <= Wire.MAX_STRING_UTF8 && Acceptable(nfc, m.value) && nfc(m.key) !in Keys(done)
  }

  /** `all` is `done` with what the members stand for added. */
  ghost predicate MembersAdded(nfc: Normalizer, members: seq<Member>, done: seq<Member>, all: seq<Member>) {
    && |all| == |done| + |members| && (forall m | m in done :: m in all)
    && (forall m {:trigger StoodFor(nfc, m, all)} | m in members :: StoodFor(nfc, m, all))
    && (forall x {:trigger StandsFor(nfc, members, x)} | x in all :: x in done || StandsFor(nfc, members, x))
  }

  lemma FitsNext(nfc: Normalizer, members: seq<Member>, done: seq<Member>, value: Json)
    requires members != [] && Ordered(done) && nfc(members[0].key) !in Keys(done)
    requires |Utf8.Encode(nfc(members[0].key))| <= Wire.MAX_STRING_UTF8 && Acceptable(nfc, members[0].value)
    ensures var more := InsertMember(done, Member(nfc(members[0].key), value));
            && Ordered(more) && |more| == |done| + 1 && Keys(more) == Keys(done) + {nfc(members[0].key)}
            && (MembersFit(nfc, members, done) <==> MembersFit(nfc, members[1..], more))
  {
    var first, rest := members[0], members[1..];
    var n := Member(nfc(first.key), value);
    var more := InsertMember(done, n);
    InsertKeeps(done, n);
    assert Keys(more) == Keys(done) + {n.key};
    assert forall m :: m in members <==> m == first || m in rest;
    assert forall i | 0 <= i < |rest| :: rest[i] == members[i + 1];
    if MembersFit(nfc, members, done) {
      forall m | m in rest
        ensures nfc(m.key) !in Keys(more)
      {
        var i :| 0 <= i < |rest| && rest[i] == m;
        assert nfc(members[0].key) != nfc(members[i + 1].key);
      }
    }
    if MembersFit(nfc, rest, more) {
      forall i, j | 0 <= i < j < |members|
        ensures nfc(members[i].key) != nfc(members[j].key)
      {
        assert members[j] == rest[j - 1] && rest[j - 1] in rest;
        if i > 0 {
          assert members[i] == rest[i - 1];
        }
      }
    }
  }

  lemma AddedNext(nfc: Normalizer, members: seq<Member>, done: seq<Member>, value: Json, all: seq<Member>)
    requires members != [] && Ordered(done) && nfc(members[0].key) !in Keys(done)
    requires Denotes(nfc, members[0].value, value)
    requires MembersAdded(nfc, members[1..], InsertMember(done, Member(nfc(members[0].key), value)), all)
    ensures MembersAdded(nfc, members, done, all)
  {
    var first, rest := members[0], members[1..];
    var n := Member(nfc(first.key), value);
    InsertKeeps(done, n);
    assert forall m :: m in members <==> m == first || m in rest;
    forall m | m in members
      ensures StoodFor(nfc, m, all)
    {
      if m in rest {
        assert StoodFor(nfc, m, all);
      } else {
        assert n in all;
      }
    }
    forall x | x in all
      ensures x in done || StandsFor(nfc, members, x)
    {
      assert x in InsertMember(done, n) || StandsFor(nfc, rest, x);
      if x !in InsertMember(done, n) {
        var m :| m in rest && x.key == nfc(m.key) && Denotes(nfc, m.value, x.value);
        assert m in members;
      }
    }
  }

  lemma {:induction false} VisitMembersMean(nfc: Normalizer, members: seq<Member>, rawSeen: set<string>,
                                            done: seq<Member>)
    requires Ordered(done) && |done| <= MAX_OBJECT_MEMBERS && forall r | r in rawSeen :: nfc(r) in Keys(done)
    ensures VisitMembers(nfc, members, rawSeen, done).Ok? <==> MembersFit(nfc, members, done)
    ensures VisitMembers(nfc, members, rawSeen, done).Ok? ==>
              var v := VisitMembers(nfc, members, rawSeen, done).value;
              v.Object? && MembersAdded(nfc, members, done, v.members)
    decreases members, 0
  {
    if members != [] {
      var m := members[0];
      assert m in members;
      VisitMeans(nfc, m.value);
      if && |done| < MAX_OBJECT_MEMBERS && nfc(m.key) !in Keys(done)
         && |Utf8.Encode(nfc(m.key))| <= Wire.MAX_STRING_UTF8 && Visit(nfc, m.value).Ok? {
        var value := Visit(nfc, m.value).value;
        var more := InsertMember(done, Member(nfc(m.key), value));
        FitsNext(nfc, members, done, value);
        VisitMembersMean(nfc, members[1..], rawSeen + {m.key}, more);
        if VisitMembers(nfc, members[1..], rawSeen + {m.key}, more).Ok? {
          var v := VisitMembers(nfc, members[1..], rawSeen + {m.key}, more).value;
          AddedNext(nfc, members, done, value, v.members);
        }
      }
    }
  }

  // ---------------------------------------------------------------- constructed values

  /** Normalizing a constructed value accepts exactly the acceptable ones within the depth limit, and returns what they
      stand for. */
  lemma {:induction false} NormalizeMeans(nfc: Normalizer, j: Json, depth: nat)
    ensures NormalizeConstructed(nfc, j, depth).Ok? <==> Acceptable(nfc, j) && DepthOk(j, depth)
    ensures NormalizeConstructed(nfc, j, depth).Ok? ==> Denotes(nfc, j, NormalizeConstructed(nfc, j, depth).value)
    decreases j, 1
  {
    match j {
      case Array(items) => NormalizeItemsMean(nfc, items, depth, []);
      case Object(members) =>
        if |members| <= MAX_OBJECT_MEMBERS {
          NormalizeMembersMean(nfc, members, depth, []);
        }
      case _ =>
    }
  }

  lemma {:induction false} NormalizeItemsMean(nfc: Normalizer, items: seq<Json>, depth: nat, done: seq<Json>)
    ensures NormalizeItems(nfc, items, depth, done).Ok? <==>
            forall x | x in items :: Acceptable(nfc, x) && DepthOk(x, depth + 1)
    ensures NormalizeItems(nfc, items, depth, done).Ok? ==>
              var v := NormalizeItems(nfc, items, depth, done).value;
              && v.Array? && |v.items| == |done| + |items| && v.items[..|done|] == done
              && forall i | 0 <= i < |items| :: Denotes(nfc, items[i], v.items[|done| + i])
    decreases items, 0
  {
    if items != [] {
      NormalizeMeans(nfc, items[0], depth + 1);
      if NormalizeConstructed(nfc, items[0], depth + 1).Ok? {
        var rest := items[1..];
        NormalizeItemsMean(nfc, rest, depth, done + [NormalizeConstructed(nfc, items[0], depth + 1).value]);
        assert forall x :: x in items <==> x == items[0] || x in rest;
        if NormalizeItems(nfc, items, depth, done).Ok? {
          var v := NormalizeItems(nfc, items, depth, done).value;
          assert v.items[|done|] == v.items[..|done| + 1][|done|];
          forall i | 0 <= i < |items|
            ensures Denotes(nfc, items[i], v.items[|done| + i])
          {
            if i > 0 {
              assert items[i] == rest[i - 1];
            }
          }
        }
      } else {
        assert items[0] in items;
      }
    }
  }

  ghost predicate AllDepthOk(members: seq<Member>, depth: nat) {
    forall m | m in members :: DepthOk(m.value, depth)
  }

  lemma {:induction false} NormalizeMembersMean(nfc: Normalizer, members: seq<Member>, depth: nat, done: seq<Member>)
    requires Ordered(done) && |done| + |members| <= MAX_OBJECT_MEMBERS
    ensures NormalizeMembers(nfc, members, depth, done).Ok? <==>
            MembersFit(nfc, members, done) && AllDepthOk(members, depth + 1)
    ensures NormalizeMembers(nfc, members, depth, done).Ok? ==>
              var v := NormalizeMembers(nfc, members, depth, done).value;
              v.Object? && MembersAdded(nfc, members, done, v.members)
    decreases members, 0
  {
    if members != [] {
      var m, rest := members[0], members[1..];
      assert forall x :: x in members <==> x == m || x in rest;
      NormalizeMeans(nfc, m.value, depth + 1);
      if && nfc(m.key) !in Keys(done) && |Utf8.Encode(nfc(m.key))| <= Wire.MAX_STRING_UTF8
         && NormalizeConstructed(nfc, m.value, depth + 1).Ok? {
        var value := NormalizeConstructed(nfc, m.value, depth + 1).value;
        var more := InsertMember(done, Member(nfc(m.key), value));
        FitsNext(nfc, members, done, value);
        NormalizeMembersMean(nfc, rest, depth, more);
        if NormalizeMembers(nfc, rest, depth, more).Ok? {
          var v := NormalizeMembers(nfc, rest, depth, more).value;
          AddedNext(nfc, members, done, value, v.members);
        }
      }
    }
  }

  // ---------------------------------------------------------------- one document, one value

  /** A document stands for one value only, once objects are ordered maps. */
  lemma {:induction false} DenotesOne(nfc: Normalizer, j: Json, v: Json, w: Json)
    requires Denotes(nfc, j, v) && Denotes(nfc, j, w) && Arranged(v) && Arranged(w)
    ensures v == w
    decreases j, 1
  {
    match j {
      case Array(items) =>
        forall i | 0 <= i < |items|
          ensures v.items[i] == w.items[i]
        {
          DenotesOne(nfc, items[i], v.items[i], w.items[i]);
        }
      case Object(members) =>
        MembersOfOne(nfc, members, v, w);
        MembersOfOne(nfc, members, w, v);
        OrderedUnique(v.members, w.members);
      case _ =>
    }
  }

  /** The member that x stands for is stood for by some y as well. */
  lemma CounterMember(nfc: Normalizer, members: seq<Member>, v: Json, w: Json, x: Member)
    returns (m: Member, value: Json)
    requires Denotes(nfc, Object(members), v) && Denotes(nfc, Object(members), w) && x in v.members
    ensures m in members && x.key == nfc(m.key) && Denotes(nfc, m.value, x.value)
    ensures Member(x.key, value) in w.members && Denotes(nfc, m.value, value)
  {
    assert StandsFor(nfc, members, x);
    m :| m in members && x.key == nfc(m.key) && Denotes(nfc, m.value, x.value);
    assert StoodFor(nfc, m, w.members);
    value :| Member(nfc(m.key), value) in w.members && Denotes(nfc, m.value, value);
  }

  lemma ArrangedMember(v: Json, x: Member)
    requires v.Object? && Arranged(v) && x in v.members
    ensures Arranged(x.value)
  {
  }

  lemma {:induction false} MembersOfOne(nfc: Normalizer, members: seq<Member>, v: Json, w: Json)
    requires Denotes(nfc, Object(members), v) && Denotes(nfc, Object(members), w) && Arranged(v) && Arranged(w)
    ensures forall x | x in v.members :: x in w.members
    decreases members, 0
  {
    forall x | x in v.members
      ensures x in w.members
    {
      var m, value := CounterMember(nfc, members, v, w, x);
      ArrangedMember(v, x);
      ArrangedMember(w, Member(x.key, value));
      DenotesOne(nfc, m.value, x.value, value);
      assert x == Member(x.key, value);
    }
  }

  lemma {:induction false} DenotesDepth(nfc: Normalizer, j: Json, v: Json, depth: nat)
    requires Denotes(nfc, j, v)
    ensures DepthOk(v, depth) <==> DepthOk(j, depth)
    decreases j, 1
  {
    match j {
      case Array(items) =>
        forall i | 0 <= i < |items|
          ensures DepthOk(v.items[i], depth + 1) <==> DepthOk(items[i], depth + 1)
        {
          DenotesDepth(nfc, items[i], v.items[i], depth + 1);
        }
        ItemsDepth(items, v.items, depth + 1);
      case Object(members) => MembersDepth(nfc, members, v, depth);
      case _ =>
    }
  }

  lemma ItemsDepth(a: seq<Json>, b: seq<Json>, depth: nat)
    requires |a| == |b| && forall i | 0 <= i < |a| :: DepthOk(a[i], depth) <==> DepthOk(b[i], depth)
    ensures (forall x | x in a :: DepthOk(x, depth)) <==> (forall x | x in b :: DepthOk(x, depth))
  {
    assert forall i | 0 <= i < |a| :: a[i] in a && b[i] in b;
  }

  lemma StandIn(nfc: Normalizer, members: seq<Member>, v: Json, m: Member) returns (x: Member)
    requires Denotes(nfc, Object(members), v) && m in members
    ensures x in v.members && Denotes(nfc, m.value, x.value)
  {
    assert StoodFor(nfc, m, v.members);
    var value :| Member(nfc(m.key), value) in v.members && Denotes(nfc, m.value, value);
    x := Member(nfc(m.key), value);
  }

  lemma {:induction false} MembersDepth(nfc: Normalizer, members: seq<Member>, v: Json, depth: nat)
    requires Denotes(nfc, Object(members), v)
    ensures DepthOk(v, depth) <==> DepthOk(Object(members), depth)
    decreases members, 0
  {
    if DepthOk(v, depth) {
      forall m | m in members
        ensures DepthOk(m.value, depth + 1)
      {
        var x := StandIn(nfc, members, v, m);
        DenotesDepth(nfc, m.value, x.value, depth + 1);
      }
    }
    if DepthOk(Object(members), depth) {
      forall x | x in v.members
        ensures DepthOk(x.value, depth + 1)
      {
        var m, value := CounterMember(nfc, members, v, v, x);
        DenotesDepth(nfc, m.value, x.value, depth + 1);
      }
    }
  }

  // ---------------------------------------------------------------- nesting

  function Max(a: nat, b: nat): nat {
    if a < b then b else a
  }

  /** How many values deep the document is: one for a scalar or an empty container. */
  function Height(j: Json): nat
    decreases j, 1
  {
    match j
    case Array(items) => 1 + ItemsHeight(items)
    case Object(members) => 1 + MembersHeight(members)
    case _ => 1
  }

  function ItemsHeight(items: seq<Json>): nat
    decreases items, 0
  {
    if items == [] then 0 else Max(Height(items[0]), ItemsHeight(items[1..]))
  }

  function MembersHeight(members: seq<Member>): nat
    decreases members, 0
  {
    if members == [] then 0 else Max(Height(members[0].value), MembersHeight(members[1..]))
  }

  /** The depth check admits exactly the values whose height brings the depth to 32 at most. */
  lemma {:induction false} DepthIsHeight(j: Json, depth: nat)
    requires depth > 0
    ensures DepthOk(j, depth) <==> depth + Height(j) <= 33
    decreases j, 1
  {
    match j {
      case Array(items) => ItemsDepthIsHeight(items, depth + 1);
      case Object(members) => MembersDepthIsHeight(members, depth + 1);
      case _ =>
    }
  }

  lemma {:induction false} ItemsDepthIsHeight(items: seq<Json>, depth: nat)
    requires depth > 0
    ensures (forall x | x in items :: DepthOk(x, depth)) <==> items == [] || depth + ItemsHeight(items) <= 33
    decreases items, 0
  {
    if items != [] {
      DepthIsHeight(items[0], depth);
      ItemsDepthIsHeight(items[1..], depth);
      assert forall x :: x in items <==> x == items[0] || x in items[1..];
    }
  }

  lemma {:induction false} MembersDepthIsHeight(members: seq<Member>, depth: nat)
    requires depth > 0
    ensures (forall m | m in members :: DepthOk(m.value, depth)) <==>
            members == [] || depth + MembersHeight(members) <= 33
    decreases members, 0
  {
    if members != [] {
      DepthIsHeight(members[0].value, depth);
      MembersDepthIsHeight(members[1..], depth);
      assert forall m :: m in members <==> m == members[0] || m in members[1..];
    }
  }

  // ---------------------------------------------------------------- documents

  /** The bytes are a JSON text, by the grammar, of a document that the profile accepts. */
  ghost predicate Reads(nfc: Normalizer, raw: seq<Utf8.byte>, j: Json) {
    && |raw| <= 65_536 && !([0xEF, 0xBB, 0xBF] <= raw)
    && Utf8.Decode(raw).Some? && PaddedText(Utf8.Decode(raw).value, j)
    && Acceptable(nfc, j) && Height(j) <= 32
  }

  /** The bytes are an acceptable document that stands for this value. */
  ghost predicate Means(nfc: Normalizer, raw: seq<Utf8.byte>, v: Json) {
    exists j :: Reads(nfc, raw, j) && Denotes(nfc, j, v) && Arranged(v)
  }

  lemma DocumentMeans(nfc: Normalizer, raw: seq<Utf8.byte>, j: Json)
    requires Idempotent(nfc) && Reads(nfc, raw, j)
    ensures ParseCanonicalValue(nfc, raw).Ok? && Means(nfc, raw, ParseCanonicalValue(nfc, raw).value)
    ensures Denotes(nfc, j, ParseCanonicalValue(nfc, raw).value) && Arranged(ParseCanonicalValue(nfc, raw).value)
  {
    DepthIsHeight(j, 1);
    ParsesExactlyTheGrammar(Utf8.Decode(raw).value, j);
    VisitMeans(nfc, j);
    VisitSound(nfc, j);
    DenotesDepth(nfc, j, Visit(nfc, j).value, 1);
  }

  lemma ParsedReads(nfc: Normalizer, raw: seq<Utf8.byte>)
    requires Idempotent(nfc) && ParseCanonicalValue(nfc, raw).Ok?
    ensures Reads(nfc, raw, ParseDocument(Utf8.Decode(raw).value).value)
  {
    var j := ParseDocument(Utf8.Decode(raw).value).value;
    DepthIsHeight(j, 1);
    ParsesExactlyTheGrammar(Utf8.Decode(raw).value, j);
    VisitMeans(nfc, j);
    DenotesDepth(nfc, j, Visit(nfc, j).value, 1);
  }

  /** Parsing yields a value exactly when the bytes are an acceptable document that stands for it. */
  lemma ParseMeans(nfc: Normalizer, raw: seq<Utf8.byte>, v: Json)
    requires Idempotent(nfc)
    ensures ParseCanonicalValue(nfc, raw) == Ok(v) <==> Means(nfc, raw, v)
  {
    if ParseCanonicalValue(nfc, raw).Ok? {
      ParsedReads(nfc, raw);
      DocumentMeans(nfc, raw, ParseDocument(Utf8.Decode(raw).value).value);
    }
    if Means(nfc, raw, v) {
      var j :| Reads(nfc, raw, j) && Denotes(nfc, j, v) && Arranged(v);
      DocumentMeans(nfc, raw, j);
      DenotesOne(nfc, j, v, ParseCanonicalValue(nfc, raw).value);
    }
  }

  /** The text of a value, if there is any. */
  ghost predicate PrintsAs(v: Json, text: string) {
    Printable(v) && text == Print(v) && |Utf8.Encode(text)| <= 65_536
  }

  /** Canonicalization yields bytes exactly when its input is an acceptable document, the bytes are the printed form of
      the one value it stands for, and they are not too many. */
  lemma CanonicalizeMeans(nfc: Normalizer, raw: seq<Utf8.byte>, text: string)
    requires Idempotent(nfc)
    ensures Canonicalize(nfc, raw) == Ok(Utf8.Encode(text)) <==> exists v :: Means(nfc, raw, v) && PrintsAs(v, text)
    ensures Canonicalize(nfc, raw).Ok? ==> exists t :: Canonicalize(nfc, raw).value == Utf8.Encode(t)
  {
    if ParseCanonicalValue(nfc, raw).Ok? {
      var w := ParseCanonicalValue(nfc, raw).value;
      ParseMeans(nfc, raw, w);
      ParsedPrints(nfc, raw);
      BoundedPrintable(nfc, w);
      Utf8.DecodeEncode(text);
      Utf8.DecodeEncode(Print(w));
      assert PrintsAs(w, Print(w)) <==> |Bytes(nfc, w)| <= MAX_INPUT_BYTES;
    }
    if v :| Means(nfc, raw, v) && PrintsAs(v, text) {
      ParseMeans(nfc, raw, v);
    }
  }

  /** Serializing a constructed value yields text exactly when the value is acceptable and within the depth limit, the
      text is the printed form of what it stands for, and it is not too long. */
  lemma SerializeMeans(nfc: Normalizer, j: Json, text: string)
    requires Idempotent(nfc)
    ensures SerializeCanonical(nfc, j) == Ok(text) <==>
            && Acceptable(nfc, j) && Height(j) <= 32
            && exists v :: Denotes(nfc, j, v) && Arranged(v) && PrintsAs(v, text)
  {
    DepthIsHeight(j, 1);
    NormalizeMeans(nfc, j, 1);
    if NormalizeConstructed(nfc, j, 1).Ok? {
      var w := NormalizeConstructed(nfc, j, 1).value;
      NormalizeSound(nfc, j, 1);
      BoundedPrintable(nfc, w);
      assert Denotes(nfc, j, w) && Arranged(w);
      if v :| Denotes(nfc, j, v) && Arranged(v) && PrintsAs(v, text) {
        DenotesOne(nfc, j, v, w);
      }
    }
  }

  // ---------------------------------------------------------------- message identifiers

  /** Two envelopes have the same message preimage exactly when they have the same fields besides their message ids and
      their signatures. */
  lemma PreimageMeans(nfc: Normalizer, a: seq<Utf8.byte>, b: seq<Utf8.byte>)
    requires Idempotent(nfc) && MessagePreimage(nfc, a).Ok? && MessagePreimage(nfc, b).Ok?
    ensures var (x, y) := (ParseCanonicalValue(nfc, a), ParseCanonicalValue(nfc, b));
            && x.Ok? && x.value.Object? && y.Ok? && y.value.Object?
            && (MessagePreimage(nfc, a) == MessagePreimage(nfc, b) <==>
                  forall m: Member | m.key != "message_id" && m.key != "signature" ::
                    m in x.value.members <==> m in y.value.members)
  {
    SamePreimageSameFields(nfc, a, b);
    ParsedPrints(nfc, a);
    ParsedPrints(nfc, b);
    var p, q := ParseCanonicalValue(nfc, a).value.members, ParseCanonicalValue(nfc, b).value.members;
    ProjectionMembers(p);
    ProjectionMembers(q);
    if forall m: Member | m.key != "message_id" && m.key != "signature" :: m in p <==> m in q {
      OrderedUnique(Projection(p), Projection(q));
    }
  }

  lemma ProjectionMembers(members: seq<Member>)
    requires Ordered(members)
    ensures Ordered(Projection(members))
    ensures forall m :: m in Projection(members) <==> m in members && m.key != "message_id" && m.key != "signature"
  {
    WithoutKeeps(members, "message_id");
    WithoutKeeps(Without(members, "message_id"), "signature");
  }
}
