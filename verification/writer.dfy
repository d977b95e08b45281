/** The compact `Writer` of hjson/Writer.h as a state machine. The state is the
    stack of open containers, the `seeValue_` flag and the text written to the
    output stream so far; each event is a pure function from state to state,
    and the asserts of the source are its preconditions. */
module JsonWriter {
  import opened Maybe
  import Itoa
  import Escape
  import DoubleText

  /** An open container: an array or an object, and how many values (for an
      object: keys and values) it has received. */
  datatype Level = Level(inArray: bool, valueCount: nat)

  /** The type tag an event hands to `prefix`; only whether it is the string
      tag matters to the Writer. */
  datatype ValueType = TypeNull | TypeBool | TypeInt32 | TypeInt64 | TypeDouble | TypeString | TypeObject | TypeArray

  datatype Writer = Writer(stack: seq<Level>, seeValue: bool, out: string)

  /** A freshly constructed Writer over an empty stream. */
  const Initial := Writer([], false, "")

  function Top(w: Writer): Level
    requires |w.stack| > 0
  {
    w.stack[|w.stack| - 1]
  }

  /** The two asserts of `prefix`: a value after the root has started must be
      inside a container ("root not singular"), and the key slot of an object
      (an even count) takes only a string ("miss quotation mark"). */
  predicate PrefixAllowed(w: Writer, t: ValueType)
  {
    (w.seeValue ==> |w.stack| > 0) &&
    (|w.stack| > 0 && !Top(w).inArray && Top(w).valueCount % 2 == 0 ==> t == TypeString)
  }

  /** The separator `prefix` writes inside an open container: in an array a
      comma before every element but the first; in an object a colon after a
      key (odd count) and a comma before every key but the first. */
  function Separator(w: Writer): (s: string)
    requires |w.stack| > 0
    ensures Top(w).inArray ==>
      (s == "," <==> Top(w).valueCount > 0) && (s == "" <==> Top(w).valueCount == 0)
    ensures !Top(w).inArray ==>
      (s == ":" <==> Top(w).valueCount % 2 == 1) &&
      (s == "," <==> Top(w).valueCount % 2 == 0 && Top(w).valueCount > 0) &&
      (s == "" <==> Top(w).valueCount == 0)
  {
    var top := Top(w);
    if top.inArray then (if top.valueCount > 0 then "," else "")
    else if top.valueCount % 2 == 1 then ":"
    else if top.valueCount > 0 then ","
    else ""
  }

  /** `prefix`: marks that a value has been seen, writes the separator the
      enclosing container needs and counts the value in the top level only. */
  function Prefix(w: Writer, t: ValueType): (r: Writer)
    requires PrefixAllowed(w, t)
    ensures r.seeValue
    ensures |r.stack| == |w.stack|
    ensures |w.stack| == 0 ==> r.out == w.out
    ensures |w.stack| > 0 ==> r.out == w.out + Separator(w)
    ensures |w.stack| > 0 ==> r.stack[..|w.stack| - 1] == w.stack[..|w.stack| - 1]
    ensures |w.stack| > 0 ==> Top(r) == Top(w).(valueCount := Top(w).valueCount + 1)
  {
    var seen := w.(seeValue := true);
    if |w.stack| == 0 then seen
    else
      var top := Top(w);
      seen.(stack := w.stack[..|w.stack| - 1] + [top.(valueCount := top.valueCount + 1)], out := w.out + Separator(w))
  }

  /** What an event wrote after its separator. */
  function Written(p: Writer, r: Writer): string
    requires |p.out| <= |r.out|
  {
    r.out[|p.out|..]
  }

  /** r's output extends w's by at least one character: the stream is append-only. */
  predicate Grows(w: Writer, r: Writer)
  {
    |w.out| < |r.out| && r.out[..|w.out|] == w.out
  }

  /** A scalar event: the separator, then the value's text. */
  function Scalar(w: Writer, t: ValueType, text: string): (r: Writer)
    requires PrefixAllowed(w, t) && |text| > 0
    ensures Grows(w, r)
    ensures r.stack == Prefix(w, t).stack && r.seeValue
    ensures |Prefix(w, t).out| <= |r.out| && r.out[..|Prefix(w, t).out|] == Prefix(w, t).out
    ensures Written(Prefix(w, t), r) == text
  {
    var p := Prefix(w, t);
    p.(out := p.out + text)
  }

  function Null(w: Writer): (r: Writer)
    requires PrefixAllowed(w, TypeNull)
    ensures Grows(w, r)
    ensures r.stack == Prefix(w, TypeNull).stack
    ensures r.out == Prefix(w, TypeNull).out + "null"
  {
    Scalar(w, TypeNull, "null")
  }

  function Bool(w: Writer, b: bool): (r: Writer)
    requires PrefixAllowed(w, TypeBool)
    ensures Grows(w, r)
    ensures r.stack == Prefix(w, TypeBool).stack
    ensures r.out == Prefix(w, TypeBool).out + (if b then "true" else "false")
  {
    Scalar(w, TypeBool, if b then "true" else "false")
  }

  /** `Int32`: the text `detail::itoa` puts in `buf[11]`, which reads back as i. */
  function Int32(w: Writer, i: Itoa.Int32): (r: Writer)
    requires PrefixAllowed(w, TypeInt32)
    ensures Grows(w, r)
    ensures r.stack == Prefix(w, TypeInt32).stack
    ensures |Prefix(w, TypeInt32).out| <= |r.out| <= |Prefix(w, TypeInt32).out| + 11
    ensures Itoa.ParseSigned(Written(Prefix(w, TypeInt32), r)) == Some(i as int)
  {
    Itoa.SignedDecimalRoundTrip(i);
    Itoa.SignedDecimalWidth(i, Itoa.W32);
    Scalar(w, TypeInt32, Itoa.SignedDecimal(i))
  }

  /** `Int64`: the text `detail::itoa` puts in `buf[20]`, which reads back as i. */
  function Int64(w: Writer, i: Itoa.Int64): (r: Writer)
    requires PrefixAllowed(w, TypeInt64)
    ensures Grows(w, r)
    ensures r.stack == Prefix(w, TypeInt64).stack
    ensures |Prefix(w, TypeInt64).out| <= |r.out| <= |Prefix(w, TypeInt64).out| + 20
    ensures Itoa.ParseSigned(Written(Prefix(w, TypeInt64), r)) == Some(i as int)
  {
    Itoa.SignedDecimalRoundTrip(i);
    Itoa.SignedDecimalWidth(i, Itoa.W64);
    Scalar(w, TypeInt64, Itoa.SignedDecimal(i))
  }

  function Double(w: Writer, d: DoubleText.DoubleValue): (r: Writer)
    requires PrefixAllowed(w, TypeDouble) && DoubleText.Renderable(d)
    ensures Grows(w, r)
    ensures r.stack == Prefix(w, TypeDouble).stack
    ensures r.out == Prefix(w, TypeDouble).out + DoubleText.Text(d)
  {
    Scalar(w, TypeDouble, DoubleText.Text(d))
  }

  /** `String`: a quoted, escaped string whose body decodes back to s and
      holds no raw control character. */
  function String(w: Writer, s: string): (r: Writer)
    requires PrefixAllowed(w, TypeString)
    ensures Grows(w, r)
    ensures r.stack == Prefix(w, TypeString).stack
    ensures var p := Prefix(w, TypeString).out;
      |p| + 2 <= |r.out| && r.out[..|p|] == p && r.out[|p|] == '"' && r.out[|r.out| - 1] == '"' &&
      Escape.Unescape(r.out[|p| + 1..|r.out| - 1]) == Some(s) &&
      Escape.NoControl(r.out[|p|..])
  {
    var p := Prefix(w, TypeString);
    QuotedText(p.out, s);
    Scalar(w, TypeString, Escape.Quote(s))
  }

  /** The quoted text after any prefix: the quotes surround a body that
      decodes back to s, and nothing after the prefix is a control character. */
  lemma QuotedText(p: string, s: string)
    ensures var o := p + Escape.Quote(s);
      |p| + 2 <= |o| && o[..|p|] == p && o[|p|] == '"' && o[|o| - 1] == '"' &&
      Escape.Unescape(o[|p| + 1..|o| - 1]) == Some(s) &&
      Escape.NoControl(o[|p|..])
  {
    var body := Escape.EscapeBody(s);
    var o := p + Escape.Quote(s);
    assert o == p + "\"" + body + "\"";
    assert o[|p| + 1..|o| - 1] == body;
    Escape.EscapeRoundTrip(s);
    assert o[|p|..] == "\"" + body + "\"";
  }

  /** `Key`: the separator and the key between quotes, copied unescaped. */
  function Key(w: Writer, s: string): (r: Writer)
    requires PrefixAllowed(w, TypeString)
    ensures Grows(w, r)
    ensures r.stack == Prefix(w, TypeString).stack
    ensures r.out == Prefix(w, TypeString).out + "\"" + s + "\""
  {
    Scalar(w, TypeString, "\"" + s + "\"")
  }

  function StartObject(w: Writer): (r: Writer)
    requires PrefixAllowed(w, TypeObject)
    ensures Grows(w, r)
    ensures r.stack == Prefix(w, TypeObject).stack + [Level(false, 0)]
    ensures r.out == Prefix(w, TypeObject).out + "{"
    ensures r.seeValue
  {
    var p := Prefix(w, TypeObject);
    p.(stack := p.stack + [Level(false, 0)], out := p.out + "{")
  }

  function StartArray(w: Writer): (r: Writer)
    requires PrefixAllowed(w, TypeArray)
    ensures Grows(w, r)
    ensures r.stack == Prefix(w, TypeArray).stack + [Level(true, 0)]
    ensures r.out == Prefix(w, TypeArray).out + "["
    ensures r.seeValue
  {
    var p := Prefix(w, TypeArray);
    p.(stack := p.stack + [Level(true, 0)], out := p.out + "[")
  }

  /** `EndObject`: closes the innermost container, which must be an object.
      Whether its last key received a value is not checked. */
  function EndObject(w: Writer): (r: Writer)
    requires |w.stack| > 0 && !Top(w).inArray
    ensures Grows(w, r)
    ensures r.stack == w.stack[..|w.stack| - 1]
    ensures r.out == w.out + "}"
    ensures r.seeValue == w.seeValue
  {
    w.(stack := w.stack[..|w.stack| - 1], out := w.out + "}")
  }

  function EndArray(w: Writer): (r: Writer)
    requires |w.stack| > 0 && Top(w).inArray
    ensures Grows(w, r)
    ensures r.stack == w.stack[..|w.stack| - 1]
    ensures r.out == w.out + "]"
    ensures r.seeValue == w.seeValue
  {
    w.(stack := w.stack[..|w.stack| - 1], out := w.out + "]")
  }

  /** Opening and at once closing a container leaves the stack as a scalar
      value would: the parent counts one more value and nothing else changes. */
  lemma EmptyContainer(w: Writer, inArray: bool)
    requires PrefixAllowed(w, if inArray then TypeArray else TypeObject)
    ensures inArray ==> EndArray(StartArray(w)) == Scalar(w, TypeArray, "[]")
    ensures !inArray ==> EndObject(StartObject(w)) == Scalar(w, TypeObject, "{}")
  {
    if inArray {
      var p := Prefix(w, TypeArray);
      assert (p.stack + [Level(true, 0)])[..|p.stack|] == p.stack;
      assert p.out + "[" + "]" == p.out + "[]";
    } else {
      var p := Prefix(w, TypeObject);
      assert (p.stack + [Level(false, 0)])[..|p.stack|] == p.stack;
      assert p.out + "{" + "}" == p.out + "{}";
    }
  }

  /** `Key` and `String` write the same text exactly when no character of the
      key needs escaping; otherwise the key is written raw. */
  lemma KeyUnescaped(w: Writer, s: string)
    requires PrefixAllowed(w, TypeString)
    ensures Key(w, s) == String(w, s) <==> forall i :: 0 <= i < |s| ==> Escape.Verbatim(s[i])
  {
    var p := Prefix(w, TypeString);
    var body := Escape.EscapeBody(s);
    Escape.EscapeIdentity(s);
    assert String(w, s) == p.(out := p.out + ("\"" + body + "\""));
    assert Key(w, s) == p.(out := p.out + ("\"" + s + "\""));
    QuotedInjective(p.out, s, body);
  }

  /** Two quoted texts after the same prefix are equal only if their bodies are. */
  lemma QuotedInjective(p: string, a: string, b: string)
    ensures p + ("\"" + a + "\"") == p + ("\"" + b + "\"") <==> a == b
  {
    if p + ("\"" + a + "\"") == p + ("\"" + b + "\"") {
      var x, y := p + ("\"" + a + "\""), p + ("\"" + b + "\"");
      assert x[|p| + 1..|x| - 1] == a;
      assert y[|p| + 1..|y| - 1] == b;
    }
  }

  /** The concrete case: a key holding a newline is written with the raw
      control character, which a JSON reader rejects. */
  lemma KeyNewlineRaw()
    ensures Key(Initial, "\n").out == "\"\n\""
    ensures !Escape.NoControl(Key(Initial, "\n").out)
  {
    var p := Prefix(Initial, TypeString);
    assert p.out == "";
    var r := Key(Initial, "\n");
    assert r.out == "\"\n\"";
    assert Escape.IsControl(r.out[1]);
  }
}
