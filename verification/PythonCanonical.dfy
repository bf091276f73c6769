/** The second printer of the profile (`serialize` in tools/qsol_canonical.py): it sorts keys by code point where
    the first keeps them in UTF-8 byte order. */
module PythonCanonical {
  import opened Wrappers
  import opened Json
  import opened Canonical
  import Lex
  import Utf8

  /** A key with the text printed for its member. */
  datatype Entry = Entry(key: string, text: string)

  function InsertEntry(entries: seq<Entry>, e: Entry): seq<Entry> {
    if entries == [] || Lex.Before(e.key, entries[0].key) then [e] + entries
    else [entries[0]] + InsertEntry(entries[1..], e)
  }

  /** The entries of `more` sorted into `done`. */
  function SortInto(more: seq<Entry>, done: seq<Entry>): seq<Entry> {
    if more == [] then done else SortInto(more[1..], InsertEntry(done, more[0]))
  }

  function Join(entries: seq<Entry>): string {
    if entries == [] then ""
    else if |entries| == 1 then entries[0].text
    else entries[0].text + "," + Join(entries[1..])
  }

  function Serialize(nfc: Normalizer, v: Json): string
    requires Printable(v)
    decreases v, 1
  {
    match v
    case Null => "null"
    case Bool(b) => if b then "true" else "false"
    case Integer(n) => PrintInteger(n)
    case Str(s) => PrintString(nfc(s))
    case Array(items) => "[" + SerializeItems(nfc, items) + "]"
    case Object(members) => "{" + Join(SortInto(Entries(nfc, members), [])) + "}"
  }

  function SerializeItems(nfc: Normalizer, items: seq<Json>): string
    requires forall x | x in items :: Printable(x)
    decreases items, 0
  {
    if items == [] then ""
    else if |items| == 1 then Serialize(nfc, items[0])
    else Serialize(nfc, items[0]) + "," + SerializeItems(nfc, items[1..])
  }

  function Entries(nfc: Normalizer, members: seq<Member>): seq<Entry>
    requires forall m | m in members :: Printable(m.value)
    decreases members, 0
  {
    if members == [] then []
    else [Entry(members[0].key, PrintString(nfc(members[0].key)) + ":" + Serialize(nfc, members[0].value))]
         + Entries(nfc, members[1..])
  }

  // ---------------------------------------------------------------- agreement of the printers

  /** The entries of a map as the first printer prints them. */
  function Printed(members: seq<Member>): seq<Entry>
    requires forall m | m in members :: Printable(m.value)
  {
    if members == [] then []
    else [Entry(members[0].key, PrintMember(members[0]))] + Printed(members[1..])
  }

  lemma {:induction false} JoinPrinted(members: seq<Member>)
    requires forall m | m in members :: Printable(m.value)
    ensures Join(Printed(members)) == PrintMembers(members)
    ensures |Printed(members)| == |members|
  {
    if members != [] {
      JoinPrinted(members[1..]);
      assert Printed(members)[1..] == Printed(members[1..]);
    }
  }

  lemma InsertedPrintable(members: seq<Member>, m: Member)
    requires Ordered(members) && m.key !in Keys(members)
    requires Printable(m.value) && forall x | x in members :: Printable(x.value)
    ensures forall x | x in InsertMember(members, m) :: Printable(x.value)
  {
  }

  /** Both orders put a new key in the same place. */
  lemma {:induction false} InsertPrinted(members: seq<Member>, m: Member)
    requires Ordered(members) && m.key !in Keys(members)
    requires Printable(m.value) && forall x | x in members :: Printable(x.value)
    ensures (forall x | x in InsertMember(members, m) :: Printable(x.value))
            && Printed(InsertMember(members, m)) == InsertEntry(Printed(members), Entry(m.key, PrintMember(m)))
  {
    InsertedPrintable(members, m);
    if members != [] {
      var first, rest := members[0], members[1..];
      KeyOrder(m.key, first.key);
      assert first in members;
      assert Printed(members)[1..] == Printed(rest);
      if KeyBefore(m.key, first.key) {
        assert ([m] + members)[1..] == members;
      } else {
        assert m.key !in Keys(rest);
        InsertPrinted(rest, m);
        var q := InsertMember(rest, m);
        assert ([first] + q)[1..] == q;
      }
    }
  }

  /** The Rust normalization of v in any member order prints as the Python printer prints v. */
  lemma {:induction false} Agreement(nfc: Normalizer, v: Json, depth: nat)
    requires Bounded(nfc, v) && DepthOk(v, depth)
    ensures Printable(v) && NormalizeConstructed(nfc, v, depth).Ok?
    ensures Printable(NormalizeConstructed(nfc, v, depth).value)
    ensures Print(NormalizeConstructed(nfc, v, depth).value) == Serialize(nfc, v)
    decreases v, 1
  {
    BoundedPrintable(nfc, v);
    match v {
      case Array(items) =>
        var values := ItemsAgreement(nfc, items, depth, []);
        assert [] + values == values;
      case Object(members) =>
        var final := MembersAgreement(nfc, members, depth, []);
        JoinPrinted(final);
      case _ =>
    }
  }

  lemma {:induction false} ItemsAgreement(nfc: Normalizer, items: seq<Json>, depth: nat, done: seq<Json>)
    returns (values: seq<Json>)
    requires forall x | x in items :: Bounded(nfc, x) && DepthOk(x, depth + 1) && Printable(x)
    ensures NormalizeItems(nfc, items, depth, done) == Ok(Array(done + values))
    ensures |values| == |items| && forall x | x in values :: Printable(x)
    ensures PrintItems(values) == SerializeItems(nfc, items)
    decreases items, 0
  {
    if items == [] {
      values := [];
      assert done + values == done;
    } else {
      Agreement(nfc, items[0], depth + 1);
      var v := NormalizeConstructed(nfc, items[0], depth + 1).value;
      var rest := ItemsAgreement(nfc, items[1..], depth, done + [v]);
      values := [v] + rest;
      assert done + [v] + rest == done + values;
      assert values[1..] == rest;
    }
  }

  /** The printers take one member in the same way, if they print its value alike. */
  lemma MemberAgreement(nfc: Normalizer, members: seq<Member>, depth: nat, done: seq<Member>, value: Json)
    requires members != [] && DistinctKeys(members) && Ordered(done) && members[0].key !in Keys(done)
    requires GoodString(nfc, members[0].key) && forall m | m in members :: Printable(m.value)
    requires NormalizeConstructed(nfc, members[0].value, depth + 1) == Ok(value)
    requires Printable(value) && Print(value) == Serialize(nfc, members[0].value)
    requires forall m | m in done :: Printable(m.value)
    ensures var more := InsertMember(done, Member(members[0].key, value));
            && Ordered(more) && Keys(more) == Keys(done) + {members[0].key}
            && (forall m | m in more :: Printable(m.value))
            && NormalizeMembers(nfc, members, depth, done) == NormalizeMembers(nfc, members[1..], depth, more)
            && SortInto(Entries(nfc, members), Printed(done)) == SortInto(Entries(nfc, members[1..]), Printed(more))
  {
    var n := Member(members[0].key, value);
    InsertKeeps(done, n);
    InsertPrinted(done, n);
    assert Entries(nfc, members)[1..] == Entries(nfc, members[1..]);
  }

  lemma LaterKeysDiffer(members: seq<Member>)
    requires members != [] && DistinctKeys(members)
    ensures DistinctKeys(members[1..]) && forall x | x in members[1..] :: x.key != members[0].key && x in members
  {
    forall x | x in members[1..]
      ensures x.key != members[0].key
    {
      var i :| 0 <= i < |members[1..]| && members[1..][i] == x;
      assert members[i + 1] == x;
    }
  }

  lemma {:induction false} MembersAgreement(nfc: Normalizer, members: seq<Member>, depth: nat, done: seq<Member>)
    returns (final: seq<Member>)
    requires DistinctKeys(members) && Ordered(done) && forall m | m in members :: m.key !in Keys(done)
    requires forall m | m in members ::
               GoodString(nfc, m.key) && Bounded(nfc, m.value) && DepthOk(m.value, depth + 1) && Printable(m.value)
    requires forall m | m in done :: Printable(m.value)
    ensures NormalizeMembers(nfc, members, depth, done) == Ok(Object(final))
    ensures forall m | m in final :: Printable(m.value)
    ensures Printed(final) == SortInto(Entries(nfc, members), Printed(done))
    decreases members, 0
  {
    if members == [] {
      final := done;
    } else {
      var m := members[0];
      assert m in members;
      Agreement(nfc, m.value, depth + 1);
      var value := NormalizeConstructed(nfc, m.value, depth + 1).value;
      MemberAgreement(nfc, members, depth, done, value);
      LaterKeysDiffer(members);
      final := MembersAgreement(nfc, members[1..], depth, InsertMember(done, Member(m.key, value)));
    }
  }

  /** The two printers emit the same text for every value within the profile's bounds, whatever order its objects
      list their members in; the Rust printer alone refuses a text that is too large. */
  lemma PrintersAgree(nfc: Normalizer, v: Json)
    requires Bounded(nfc, v) && DepthOk(v, 1)
    ensures Printable(v)
    ensures SerializeCanonical(nfc, v) ==
            if |Utf8.Encode(Serialize(nfc, v))| <= MAX_INPUT_BYTES then Ok(Serialize(nfc, v)) else Err(OutputTooLarge)
  {
    Agreement(nfc, v, 1);
  }
}
