/** The non-floating-point part of `Writer::Double` in hjson/Writer.h. The
    classification of the double (infinite, NaN, finite) and the `%.17g`
    rendering of a finite one are inputs: the model starts from the rendered
    characters and decides what is written. */
module DoubleText {
  import opened Decimal
  import Itoa

  /** A double as the Writer sees it. The sign of an infinity is kept so the
      model can show that the Writer drops it. */
  datatype DoubleValue = Infinite(negative: bool) | NaN | Finite(rendered: string)

  /** `sprintf` must have written between 1 and 31 characters into `buf[32]`. */
  predicate Renderable(d: DoubleValue)
  {
    d.Finite? ==> 0 < |d.rendered| < 32
  }

  /** A double whose rendering the Writer accepts. */
  type RenderableDouble = d: DoubleValue | Renderable(d) witness NaN

  /** The characters `Double` writes after the separator. */
  function Text(d: DoubleValue): (r: string)
    requires Renderable(d)
    ensures d.Infinite? ==> r == "Infinity"
    ensures d.NaN? ==> r == "NaN"
    ensures d.Finite? ==> |d.rendered| <= |r| && r[..|d.rendered|] == d.rendered
    ensures d.Finite? ==> (|r| > |d.rendered| <==> AllDigits(d.rendered))
    ensures d.Finite? && AllDigits(d.rendered) ==> r[|d.rendered|..] == ".0"
  {
    match d
    case Infinite(_) => "Infinity"
    case NaN => "NaN"
    case Finite(rendered) => if AllDigits(rendered) then rendered + ".0" else rendered
  }

  /** Both infinities are written alike: the sign of negative infinity is lost. */
  lemma InfinitySignLost()
    ensures Text(Infinite(true)) == Text(Infinite(false)) == "Infinity"
  {
  }

  /** The text of a finite double never reads as an unsigned integer literal:
      it always contains some character that is not a digit. */
  lemma FiniteNotAllDigits(d: DoubleValue)
    requires d.Finite? && Renderable(d)
    ensures !AllDigits(Text(d))
  {
    var r := Text(d);
    if AllDigits(d.rendered) {
      assert r[|d.rendered|] == '.';
    }
  }

  /** A non-negative integral value rendered as its digits gets ".0". */
  lemma NonNegativeIntegralSuffixed(x: nat)
    requires |Digits(x)| < 32
    ensures Text(Finite(Digits(x))) == Digits(x) + ".0"
  {
    DigitsShape(x);
  }

  /** A negative integral value keeps its bare integer text, because '-' is not
      a digit: the suffix that marks the value as a double is not added, and the
      text reads back as the integer. */
  lemma NegativeIntegralNotSuffixed(x: int)
    requires x < 0 && |Itoa.SignedDecimal(x)| < 32
    ensures Text(Finite(Itoa.SignedDecimal(x))) == Itoa.SignedDecimal(x)
    ensures Itoa.ParseSigned(Text(Finite(Itoa.SignedDecimal(x)))).Some?
  {
    assert !IsDigit(Itoa.SignedDecimal(x)[0]);
    Itoa.SignedDecimalRoundTrip(x);
  }

  /** The concrete case: the double -1, which `%.17g` renders as "-1". */
  lemma MinusOneExample()
    ensures Text(Finite("-1")) == "-1"
    ensures Text(Finite("1")) == "1.0"
  {
    assert !IsDigit("-1"[0]);
    assert AllDigits("1");
  }
}
