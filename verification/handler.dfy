/** The Writer driven as a SAX handler: a stream of events, each accepted only
    when the asserts of hjson/Writer.h hold, and each answering `true`. */
module Handler {
  import opened Maybe
  import Itoa
  import DoubleText
  import opened JsonWriter

  datatype Event =
    | NullEvent
    | BoolEvent(b: bool)
    | Int32Event(i32: Itoa.Int32)
    | Int64Event(i64: Itoa.Int64)
    | DoubleEvent(d: DoubleText.DoubleValue)
    | StringEvent(s: string)
    | KeyEvent(k: string)
    | StartObjectEvent
    | EndObjectEvent
    | StartArrayEvent
    | EndArrayEvent

  /** The type tag an event passes to `prefix`; `Key` passes the string tag. */
  function TypeOf(e: Event): ValueType
  {
    match e
    case NullEvent => TypeNull
    case BoolEvent(_) => TypeBool
    case Int32Event(_) => TypeInt32
    case Int64Event(_) => TypeInt64
    case DoubleEvent(_) => TypeDouble
    case StringEvent(_) => TypeString
    case KeyEvent(_) => TypeString
    case StartObjectEvent => TypeObject
    case StartArrayEvent => TypeArray
    case EndObjectEvent => TypeObject
    case EndArrayEvent => TypeArray
  }

  /** Whether the source's asserts hold for this event in this state. */
  predicate Accepts(w: Writer, e: Event)
  {
    match e
    case EndObjectEvent => |w.stack| > 0 && !Top(w).inArray
    case EndArrayEvent => |w.stack| > 0 && Top(w).inArray
    case DoubleEvent(d) => PrefixAllowed(w, TypeDouble) && DoubleText.Renderable(d)
    case _ => PrefixAllowed(w, TypeOf(e))
  }

  /** A reachable state: a container is open only after a value was seen. */
  predicate Consistent(w: Writer)
  {
    |w.stack| > 0 ==> w.seeValue
  }

  /** Dispatches one event; the boolean is the handler's answer. */
  function Handle(w: Writer, e: Event): (r: (Writer, bool))
    requires Accepts(w, e)
    ensures r.1
    ensures Grows(w, r.0)
    ensures Consistent(w) ==> Consistent(r.0)
    ensures !e.EndObjectEvent? && !e.EndArrayEvent? ==> r.0.seeValue
  {
    var next :=
      match e
      case NullEvent => Null(w)
      case BoolEvent(b) => Bool(w, b)
      case Int32Event(i) => Int32(w, i)
      case Int64Event(i) => Int64(w, i)
      case DoubleEvent(d) => Double(w, d)
      case StringEvent(s) => String(w, s)
      case KeyEvent(k) => Key(w, k)
      case StartObjectEvent => StartObject(w)
      case EndObjectEvent => EndObject(w)
      case StartArrayEvent => StartArray(w)
      case EndArrayEvent => EndArray(w);
    (next, true)
  }

  /** Feeds events to the Writer in order; None when some assert would fail. */
  function Run(w: Writer, es: seq<Event>): Option<Writer>
    decreases |es|
  {
    if |es| == 0 then Some(w)
    else if Accepts(w, es[0]) then Run(Handle(w, es[0]).0, es[1..])
    else None
  }

  /** Running two event sequences one after the other. */
  lemma {:induction false} RunAppend(w: Writer, a: seq<Event>, b: seq<Event>)
    ensures Run(w, a + b) == if Run(w, a).Some? then Run(Run(w, a).value, b) else None
    decreases |a|
  {
    if |a| == 0 {
      assert a + b == b;
    } else {
      assert (a + b)[0] == a[0];
      assert (a + b)[1..] == a[1..] + b;
      if Accepts(w, a[0]) {
        RunAppend(Handle(w, a[0]).0, a[1..], b);
      }
    }
  }

  /** A single accepted event. */
  lemma RunSingle(w: Writer, e: Event)
    requires Accepts(w, e)
    ensures Run(w, [e]) == Some(Handle(w, e).0)
  {
    assert [e][1..] == [];
  }

  /** Once the root value is complete, nothing more is accepted. */
  lemma SecondRootRejected(w: Writer, e: Event)
    requires |w.stack| == 0 && w.seeValue
    ensures !Accepts(w, e)
  {
  }

  /** In the key slot of an object only a key, a string or the closing brace
      is accepted; in the value slot everything but a closing bracket. */
  lemma KeySlot(w: Writer, e: Event)
    requires Consistent(w) && |w.stack| > 0 && !Top(w).inArray
    requires !e.DoubleEvent? || DoubleText.Renderable(e.d)
    ensures Top(w).valueCount % 2 == 0 ==>
      (Accepts(w, e) <==> e.KeyEvent? || e.StringEvent? || e.EndObjectEvent?)
    ensures Top(w).valueCount % 2 == 1 ==> (Accepts(w, e) <==> !e.EndArrayEvent?)
  {
  }

  /** An object whose last key has no value is closed all the same. */
  lemma EndObjectAfterKey()
    ensures Run(Initial, [StartObjectEvent, KeyEvent("a"), EndObjectEvent]) == Some(Writer([], true, "{\"a\"}"))
  {
    var w1 := Writer([Level(false, 0)], true, "{");
    var w2 := Writer([Level(false, 1)], true, "{\"a\"");
    var w3 := Writer([], true, "{\"a\"}");
    var tail := [KeyEvent("a"), EndObjectEvent];
    OpenStep();
    KeyStep(w1);
    CloseStep(w2);
    assert Run(w1, tail) == Some(w3) by {
      RunSingle(w1, KeyEvent("a"));
      RunSingle(w2, EndObjectEvent);
      RunAppend(w1, [KeyEvent("a")], [EndObjectEvent]);
      assert [KeyEvent("a")] + [EndObjectEvent] == tail;
    }
    RunSingle(Initial, StartObjectEvent);
    RunAppend(Initial, [StartObjectEvent], tail);
    assert [StartObjectEvent] + tail == [StartObjectEvent, KeyEvent("a"), EndObjectEvent];
  }

  /** The three states of EndObjectAfterKey, one event at a time. */
  lemma OpenStep()
    ensures Accepts(Initial, StartObjectEvent)
    ensures Handle(Initial, StartObjectEvent).0 == Writer([Level(false, 0)], true, "{")
  {
  }

  lemma KeyStep(w: Writer)
    requires w == Writer([Level(false, 0)], true, "{")
    ensures Accepts(w, KeyEvent("a"))
    ensures Handle(w, KeyEvent("a")).0 == Writer([Level(false, 1)], true, "{\"a\"")
  {
    assert Prefix(w, TypeString).out == "{";
  }

  lemma CloseStep(w: Writer)
    requires w == Writer([Level(false, 1)], true, "{\"a\"")
    ensures Accepts(w, EndObjectEvent)
    ensures Handle(w, EndObjectEvent).0 == Writer([], true, "{\"a\"}")
  {
  }
}
