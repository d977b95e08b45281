/** A JSON value as a tree, the events a producer sends the Writer for it, and
    an independent definition of the compact text the Writer should produce.
    The main theorem: sending a tree's events to a fresh Writer is accepted,
    leaves no open container, and writes exactly the compact text. */
module JsonTree {
  import opened Maybe
  import Itoa
  import Escape
  import DoubleText
  import opened JsonWriter
  import opened Handler

  datatype Json =
    | JNull
    | JBool(b: bool)
    | JInt32(i32: Itoa.Int32)
    | JInt64(i64: Itoa.Int64)
    | JDouble(d: DoubleText.RenderableDouble)
    | JString(s: string)
    | JArray(items: seq<Json>)
    | JObject(members: seq<Member>)

  datatype Member = Member(key: string, value: Json)

  predicate IsContainer(j: Json)
  {
    j.JArray? || j.JObject?
  }

  /** The type tag of the value's first event. */
  function Tag(j: Json): ValueType
  {
    match j
    case JNull => TypeNull
    case JBool(_) => TypeBool
    case JInt32(_) => TypeInt32
    case JInt64(_) => TypeInt64
    case JDouble(_) => TypeDouble
    case JString(_) => TypeString
    case JArray(_) => TypeArray
    case JObject(_) => TypeObject
  }

  /** The events a producer sends for a value, in document order. */
  function Events(j: Json): seq<Event>
    decreases j, 1
  {
    match j
    case JNull => [NullEvent]
    case JBool(b) => [BoolEvent(b)]
    case JInt32(i) => [Int32Event(i)]
    case JInt64(i) => [Int64Event(i)]
    case JDouble(d) => [DoubleEvent(d)]
    case JString(s) => [StringEvent(s)]
    case JArray(items) => [StartArrayEvent] + ItemEvents(items) + [EndArrayEvent]
    case JObject(ms) => [StartObjectEvent] + MemberEvents(ms) + [EndObjectEvent]
  }

  function ItemEvents(items: seq<Json>): seq<Event>
    decreases items, 0
  {
    if |items| == 0 then [] else Events(items[0]) + ItemEvents(items[1..])
  }

  function MemberEvents(ms: seq<Member>): seq<Event>
    decreases ms, 0
  {
    if |ms| == 0 then [] else [KeyEvent(ms[0].key)] + Events(ms[0].value) + MemberEvents(ms[1..])
  }

  /** Compact JSON text: no whitespace, ',' between elements and members, ':'
      after each key, strings escaped, keys copied as given, integers in
      decimal, doubles as the Writer writes them. */
  function Compact(j: Json): string
    decreases j, 1
  {
    match j
    case JNull => "null"
    case JBool(b) => if b then "true" else "false"
    case JInt32(i) => Itoa.SignedDecimal(i)
    case JInt64(i) => Itoa.SignedDecimal(i)
    case JDouble(d) => DoubleText.Text(d)
    case JString(s) => Escape.Quote(s)
    case JArray(items) => "[" + CompactItems(items, false) + "]"
    case JObject(ms) => "{" + CompactMembers(ms, false) + "}"
  }

  /** The elements of an array, comma-separated; `started` says whether an
      element came before them. */
  function CompactItems(items: seq<Json>, started: bool): string
    decreases items, 0
  {
    if |items| == 0 then ""
    else (if started then "," else "") + Compact(items[0]) + CompactItems(items[1..], true)
  }

  function CompactMembers(ms: seq<Member>, started: bool): string
    decreases ms, 0
  {
    if |ms| == 0 then ""
    else (if started then "," else "") + CompactMember(ms[0]) + CompactMembers(ms[1..], true)
  }

  /** One member: the key between quotes, unescaped, a colon and the value. */
  function CompactMember(m: Member): string
    decreases m, 0
  {
    "\"" + m.key + "\":" + Compact(m.value)
  }

  /** The state after the Writer has handled a whole value: its separator and
      count via `prefix`, then its compact text. */
  function After(w: Writer, j: Json): Writer
    requires PrefixAllowed(w, Tag(j))
  {
    var p := Prefix(w, Tag(j));
    p.(out := p.out + Compact(j))
  }

  /** The top level after n more values and the given extra text. */
  function Advance(w: Writer, n: nat, text: string): Writer
    requires |w.stack| > 0
  {
    w.(stack := w.stack[..|w.stack| - 1] + [Top(w).(valueCount := Top(w).valueCount + n)], out := w.out + text)
  }

  lemma Parity(x: nat)
    ensures (x + 1) % 2 == 1 - x % 2
    ensures (x + 2) % 2 == x % 2
  {
  }

  lemma AdvanceNothing(w: Writer)
    requires |w.stack| > 0
    ensures Advance(w, 0, "") == w
  {
    assert w.stack[..|w.stack| - 1] + [Top(w)] == w.stack;
  }

  /** Handling one value in an open container: the top count goes up by one
      and the separator and the value's text are written, so n further values
      with their text amount to n + 1 values from the earlier state. */
  lemma AdvancePrefixed(w: Writer, t: ValueType, s: string, n: nat, text: string)
    requires w.seeValue && |w.stack| > 0 && PrefixAllowed(w, t)
    ensures var p := Prefix(w, t); var q := p.(out := p.out + s);
      |q.stack| > 0 && q.seeValue && Top(q) == Top(w).(valueCount := Top(w).valueCount + 1) &&
      Advance(q, n, text) == Advance(w, n + 1, Separator(w) + s + text)
  {
    var p := Prefix(w, t);
    var q := p.(out := p.out + s);
    var k := |w.stack| - 1;
    assert q.stack[..k] == w.stack[..k];
    assert Top(q).(valueCount := Top(q).valueCount + n) == Top(w).(valueCount := Top(w).valueCount + (n + 1));
    assert Advance(q, n, text).stack == Advance(w, n + 1, Separator(w) + s + text).stack;
    assert q.out + text == w.out + (Separator(w) + s + text);
  }

  /** A scalar value is one event, which leaves the state After describes. */
  lemma ScalarRun(w: Writer, j: Json)
    requires !IsContainer(j) && PrefixAllowed(w, Tag(j))
    ensures Run(w, Events(j)) == Some(After(w, j))
  {
    var es := Events(j);
    assert es == [es[0]];
    RunSingle(w, es[0]);
    assert Handle(w, es[0]).0 == After(w, j);
  }

  /** Any value: its events are accepted and leave the state After describes. */
  lemma {:induction false} ValueRun(w: Writer, j: Json)
    requires PrefixAllowed(w, Tag(j))
    ensures Run(w, Events(j)) == Some(After(w, j))
    decreases j, 3
  {
    match j
    case JArray(items) => ArrayRun(w, items);
    case JObject(ms) => ObjectRun(w, ms);
    case _ => ScalarRun(w, j);
  }

  /** Closing an array whose elements were all handled leaves the state After
      describes for the array as a whole. */
  lemma CloseArray(w: Writer, items: seq<Json>, n: nat)
    requires PrefixAllowed(w, TypeArray)
    ensures var w2 := Advance(StartArray(w), n, CompactItems(items, false));
      Top(w2).inArray && EndArray(w2) == After(w, JArray(items))
  {
    var p := Prefix(w, TypeArray);
    var w2 := Advance(StartArray(w), n, CompactItems(items, false));
    assert w2.stack[..|w2.stack| - 1] == p.stack;
    assert w2.out + "]" == p.out + Compact(JArray(items));
    assert EndArray(w2).stack == After(w, JArray(items)).stack;
  }

  /** Closing an object whose members were all handled leaves the state After
      describes for the object as a whole. */
  lemma CloseObject(w: Writer, ms: seq<Member>, n: nat)
    requires PrefixAllowed(w, TypeObject)
    ensures var w2 := Advance(StartObject(w), n, CompactMembers(ms, false));
      !Top(w2).inArray && EndObject(w2) == After(w, JObject(ms))
  {
    var p := Prefix(w, TypeObject);
    var w2 := Advance(StartObject(w), n, CompactMembers(ms, false));
    assert w2.stack[..|w2.stack| - 1] == p.stack;
    assert w2.out + "}" == p.out + Compact(JObject(ms));
    assert EndObject(w2).stack == After(w, JObject(ms)).stack;
  }

  /** An array: the opening event, the elements, the closing event. */
  lemma {:induction false} ArrayRun(w: Writer, items: seq<Json>)
    requires PrefixAllowed(w, TypeArray)
    ensures Run(w, Events(JArray(items))) == Some(After(w, JArray(items)))
    decreases items, 2
  {
    var w1 := StartArray(w);
    RunSingle(w, StartArrayEvent);
    assert Top(w1) == Level(true, 0);
    ItemsRun(w1, items);
    var inner := CompactItems(items, false);
    var w2 := Advance(w1, |items|, inner);
    CloseArray(w, items, |items|);
    RunSingle(w2, EndArrayEvent);
    RunAppend(w, [StartArrayEvent], ItemEvents(items));
    RunAppend(w, [StartArrayEvent] + ItemEvents(items), [EndArrayEvent]);
  }

  /** An object: the opening event, the members, the closing event. */
  lemma {:induction false} ObjectRun(w: Writer, ms: seq<Member>)
    requires PrefixAllowed(w, TypeObject)
    ensures Run(w, Events(JObject(ms))) == Some(After(w, JObject(ms)))
    decreases ms, 2
  {
    var w1 := StartObject(w);
    RunSingle(w, StartObjectEvent);
    assert Top(w1) == Level(false, 0);
    MembersRun(w1, ms);
    var inner := CompactMembers(ms, false);
    var w2 := Advance(w1, 2 * |ms|, inner);
    CloseObject(w, ms, 2 * |ms|);
    RunSingle(w2, EndObjectEvent);
    RunAppend(w, [StartObjectEvent], MemberEvents(ms));
    RunAppend(w, [StartObjectEvent] + MemberEvents(ms), [EndObjectEvent]);
  }

  /** The elements of an open array: each is accepted, the array's count grows
      by their number and their comma-separated text is written. */
  lemma {:induction false} ItemsRun(w: Writer, items: seq<Json>)
    requires w.seeValue && |w.stack| > 0 && Top(w).inArray
    ensures Run(w, ItemEvents(items)) == Some(Advance(w, |items|, CompactItems(items, Top(w).valueCount > 0)))
    decreases items, 1
  {
    if |items| == 0 {
      AdvanceNothing(w);
    } else {
      var j, rest := items[0], items[1..];
      ValueRun(w, j);
      var w1 := After(w, j);
      var text := CompactItems(rest, true);
      AdvancePrefixed(w, Tag(j), Compact(j), |rest|, text);
      ItemsRun(w1, rest);
      RunAppend(w, Events(j), ItemEvents(rest));
    }
  }

  /** One member of an open object, from a key slot: the key and the value
      are accepted, the count grows by two and `"key":value` is written after
      the separator. */
  lemma MemberRun(w: Writer, m: Member, n: nat, text: string, whole: string) returns (q: Writer)
    requires w.seeValue && |w.stack| > 0 && !Top(w).inArray && Top(w).valueCount % 2 == 0
    requires whole == Separator(w) + CompactMember(m) + text
    ensures Run(w, [KeyEvent(m.key)] + Events(m.value)) == Some(q)
    ensures q.seeValue && |q.stack| > 0 && Top(q) == Top(w).(valueCount := Top(w).valueCount + 2)
    ensures Advance(q, n, text) == Advance(w, n + 2, whole)
    decreases m
  {
    var keyText := "\"" + m.key + "\"";
    var w1 := Key(w, m.key);
    Parity(Top(w).valueCount);
    RunSingle(w, KeyEvent(m.key));
    ValueRun(w1, m.value);
    RunAppend(w, [KeyEvent(m.key)], Events(m.value));
    AdvancePrefixed(w, TypeString, keyText, n + 1, ":" + Compact(m.value) + text);
    AdvancePrefixed(w1, Tag(m.value), Compact(m.value), n, text);
    assert Separator(w1) == ":";
    q := After(w1, m.value);
    MemberTextSplit(Separator(w), m, text);
  }

  /** The member text read as the key event's text followed by the value's. */
  lemma MemberTextSplit(sep: string, m: Member, text: string)
    ensures sep + ("\"" + m.key + "\"") + (":" + Compact(m.value) + text) == sep + CompactMember(m) + text
  {
  }

  /** The first member of a non-empty member list: after it, the rest runs
      from an object level that is again at a key slot, and finishing the rest
      amounts to finishing the whole list. */
  lemma MembersHead(w: Writer, ms: seq<Member>) returns (q: Writer)
    requires w.seeValue && |w.stack| > 0 && !Top(w).inArray && Top(w).valueCount % 2 == 0
    requires |ms| > 0
    ensures Run(w, [KeyEvent(ms[0].key)] + Events(ms[0].value)) == Some(q)
    ensures q.seeValue && |q.stack| > 0 && !Top(q).inArray && Top(q).valueCount % 2 == 0 && Top(q).valueCount > 0
    ensures Advance(q, 2 * |ms[1..]|, CompactMembers(ms[1..], true))
      == Advance(w, 2 * |ms|, CompactMembers(ms, Top(w).valueCount > 0))
    decreases ms, 0
  {
    var m, rest := ms[0], ms[1..];
    var text := CompactMembers(rest, true);
    var whole := CompactMembers(ms, Top(w).valueCount > 0);
    assert whole == Separator(w) + CompactMember(m) + text;
    q := MemberRun(w, m, 2 * |rest|, text, whole);
    Parity(Top(w).valueCount);
  }

  /** The events of a member list are those of its first member followed by
      those of the rest. */
  lemma MemberEventsCons(w: Writer, ms: seq<Member>, q: Writer)
    requires |ms| > 0
    requires Run(w, [KeyEvent(ms[0].key)] + Events(ms[0].value)) == Some(q)
    ensures Run(w, MemberEvents(ms)) == Run(q, MemberEvents(ms[1..]))
  {
    var events := [KeyEvent(ms[0].key)] + Events(ms[0].value);
    RunAppend(w, events, MemberEvents(ms[1..]));
    assert events + MemberEvents(ms[1..]) == MemberEvents(ms);
  }

  /** The members of an open object, from a key slot: each key and value is
      accepted, the count grows by two per member and the text is written. */
  lemma {:induction false} MembersRun(w: Writer, ms: seq<Member>)
    requires w.seeValue && |w.stack| > 0 && !Top(w).inArray && Top(w).valueCount % 2 == 0
    ensures Run(w, MemberEvents(ms)) == Some(Advance(w, 2 * |ms|, CompactMembers(ms, Top(w).valueCount > 0)))
    decreases ms, 1
  {
    if |ms| == 0 {
      AdvanceNothing(w);
    } else {
      var q := MembersHead(w, ms);
      MemberEventsCons(w, ms, q);
      MembersRun(q, ms[1..]);
    }
  }

  /** A fresh Writer accepts the events of any tree, every container is closed
      at the end, and the stream holds exactly the compact text. */
  lemma WritesCompact(j: Json)
    ensures Run(Initial, Events(j)) == Some(Writer([], true, Compact(j)))
  {
    ValueRun(Initial, j);
    var p := Prefix(Initial, Tag(j));
    assert p.stack == [] && p.out == "";
    assert After(Initial, j) == Writer([], true, Compact(j));
  }

  /** Exactly one root: whatever follows a complete root value is refused. */
  lemma RootNotSingular(a: Json, b: Json)
    ensures Run(Initial, Events(a) + Events(b)) == None
  {
    WritesCompact(a);
    RunAppend(Initial, Events(a), Events(b));
    var w := Writer([], true, Compact(a));
    assert |Events(b)| > 0;
    SecondRootRejected(w, Events(b)[0]);
  }
}
