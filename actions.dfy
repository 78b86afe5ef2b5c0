/**
 * The lighting commands and the actuator link each one is sent to: a path
 * `color/<r>/<g>/<b>` or `power/<true|false>` after the actuator's base address.
 * The parser below reads a link back in the layout the serialiser writes; it
 * exists to state that the serialiser loses nothing.
 */
module Actions {
  import opened Wrappers

  /** Rust's `u8`. */
  type Byte = x: nat | x < 256

  datatype LedAction = Color(red: Byte, green: Byte, blue: Byte) | Power(on: bool)

  /** Base address of the actuator; every link starts with it. */
  const Host: string := "http://localhost:70/"

  predicate IsDigit(c: char)
  {
    '0' <= c <= '9'
  }

  function DigitChar(d: nat): (c: char)
    requires d < 10
    ensures IsDigit(c)
  {
    (('0' as int) + d) as char
  }

  function DigitValue(c: char): (d: nat)
    requires IsDigit(c)
    ensures d < 10 && DigitChar(d) == c
  {
    (c as int) - ('0' as int)
  }

  /**
   * The decimal text of n as `format!("{}", n)` writes an unsigned integer:
   * at least one digit, only digits, no leading zero except for zero itself,
   * and a single digit exactly for the values below ten.
   */
  function Decimal(n: nat): (s: string)
    ensures |s| >= 1
    ensures forall i :: 0 <= i < |s| ==> IsDigit(s[i])
    ensures s[0] == '0' <==> n == 0
    ensures |s| == 1 <==> n < 10
    decreases n
  {
    if n < 10 then [DigitChar(n)] else Decimal(n / 10) + [DigitChar(n % 10)]
  }

  /** The path part of the link for an action. */
  function Path(a: LedAction): string
  {
    match a
    case Color(r, g, b) => "color/" + Decimal(r) + "/" + Decimal(g) + "/" + Decimal(b)
    case Power(on) => "power/" + (if on then "true" else "false")
  }

  /** The full link `LedAction::perform` sends its PUT request to. */
  function Link(a: LedAction): (l: string)
    ensures Host <= l && l[|Host|..] == Path(a)
  {
    Host + Path(a)
  }

  // ---------------------------------------------------------------------------
  // Reading a link back, in the layout `Path` and `Link` write.

  /** The value of a non-empty string of decimal digits; None for anything else. */
  function ParseDecimal(s: string): (r: Option<nat>)
    ensures r.Some? <==> s != [] && forall i :: 0 <= i < |s| ==> IsDigit(s[i])
    decreases |s|
  {
    if s == [] || !IsDigit(s[|s| - 1]) then None
    else if |s| == 1 then Some(DigitValue(s[0]))
    else match ParseDecimal(s[..|s| - 1])
      case None => None
      case Some(v) => Some(10 * v + DigitValue(s[|s| - 1]))
  }

  function ParseByte(s: string): Option<Byte>
  {
    match ParseDecimal(s)
    case Some(v) => if v < 256 then Some(v) else None
    case None => None
  }

  /** The '/'-separated segments of s; there is always at least one. */
  function Split(s: string): (parts: seq<string>)
    ensures |parts| >= 1
    decreases |s|
  {
    if s == [] then [[]]
    else if s[0] == '/' then [[]] + Split(s[1..])
    else var rest := Split(s[1..]); [[s[0]] + rest[0]] + rest[1..]
  }

  function ParsePath(p: string): Option<LedAction>
  {
    var parts := Split(p);
    if |parts| == 2 && parts[0] == "power" then
      if parts[1] == "true" then Some(Power(true))
      else if parts[1] == "false" then Some(Power(false))
      else None
    else if |parts| == 4 && parts[0] == "color" then
      match (ParseByte(parts[1]), ParseByte(parts[2]), ParseByte(parts[3]))
      case (Some(r), Some(g), Some(b)) => Some(Color(r, g, b))
      case _ => None
    else None
  }

  function ParseLink(l: string): Option<LedAction>
  {
    if Host <= l then ParsePath(l[|Host|..]) else None
  }

  // ---------------------------------------------------------------------------
  // Properties of the serialiser.

  lemma {:induction false} DecimalRoundTrip(n: nat)
    ensures ParseDecimal(Decimal(n)) == Some(n)
    decreases n
  {
    if n >= 10 {
      var s := Decimal(n);
      assert s[..|s| - 1] == Decimal(n / 10);
      assert s[|s| - 1] == DigitChar(n % 10);
      DecimalRoundTrip(n / 10);
    }
  }

  /** Decimal text never holds a separator. */
  lemma DecimalHasNoSlash(n: nat)
    ensures '/' !in Decimal(n)
  {
  }

  lemma {:induction false} SplitSingle(a: string)
    requires '/' !in a
    ensures Split(a) == [a]
    decreases |a|
  {
    if a != [] {
      SplitSingle(a[1..]);
      assert [a[0]] + a[1..] == a;
    }
  }

  lemma {:induction false} SplitCons(a: string, b: string)
    requires '/' !in a
    ensures Split(a + "/" + b) == [a] + Split(b)
    decreases |a|
  {
    if a == [] {
      assert a + "/" + b == "/" + b;
      assert ("/" + b)[1..] == b;
    } else {
      SplitCons(a[1..], b);
      assert (a + "/" + b)[1..] == a[1..] + "/" + b;
      assert [a[0]] + a[1..] == a;
    }
  }

  lemma SplitThree(x: string, y: string, z: string)
    requires '/' !in x && '/' !in y && '/' !in z
    ensures Split(x + "/" + (y + "/" + z)) == [x, y, z]
  {
    SplitSingle(z);
    SplitCons(y, z);
    SplitCons(x, y + "/" + z);
  }

  lemma SplitFour(k: string, x: string, y: string, z: string)
    requires '/' !in k && '/' !in x && '/' !in y && '/' !in z
    ensures Split(k + "/" + x + "/" + y + "/" + z) == [k, x, y, z]
  {
    var xyz := x + "/" + (y + "/" + z);
    SplitThree(x, y, z);
    SplitCons(k, xyz);
    assert k + "/" + x + "/" + y + "/" + z == k + "/" + xyz;
  }

  /** The segments of a colour path are the keyword and the three decimal components. */
  lemma ColorPathSegments(r: Byte, g: Byte, b: Byte)
    ensures Split(Path(Color(r, g, b))) == ["color", Decimal(r), Decimal(g), Decimal(b)]
  {
    DecimalHasNoSlash(r);
    DecimalHasNoSlash(g);
    DecimalHasNoSlash(b);
    SplitFour("color", Decimal(r), Decimal(g), Decimal(b));
    assert "color/" == "color" + "/";
  }

  /** The path of every action reads back as that action. */
  lemma PathRoundTrip(a: LedAction)
    ensures ParsePath(Path(a)) == Some(a)
  {
    match a
    case Color(r, g, b) =>
      ColorPathSegments(r, g, b);
      DecimalRoundTrip(r);
      DecimalRoundTrip(g);
      DecimalRoundTrip(b);
    case Power(on) =>
      var word := if on then "true" else "false";
      SplitSingle(word);
      SplitCons("power", word);
      assert Path(a) == "power" + "/" + word;
  }

  /** The link of every action starts with the base address and reads back as that action. */
  lemma LinkRoundTrip(a: LedAction)
    ensures Host <= Link(a)
    ensures ParseLink(Link(a)) == Some(a)
  {
    assert Link(a)[|Host|..] == Path(a);
    PathRoundTrip(a);
  }

  /** Distinct actions are sent to distinct links. */
  lemma LinkInjective(a: LedAction, b: LedAction)
    ensures Link(a) == Link(b) <==> a == b
  {
    LinkRoundTrip(a);
    LinkRoundTrip(b);
  }

  lemma DecimalExamples()
    ensures Decimal(0) == "0" && Decimal(92) == "92"
    ensures Decimal(205) == "205" && Decimal(255) == "255"
  {
  }

  /** The power paths. */
  lemma PowerPathExamples()
    ensures Path(Power(false)) == "power/false"
    ensures Path(Power(true)) == "power/true"
  {
  }

  /** The path of the violet colour. */
  lemma VioletPathExample()
    ensures Path(Color(255, 0, 255)) == "color/255/0/255"
  {
  }

  /** The full link of the light-blue colour. */
  lemma LightBlueLinkExample()
    ensures Link(Color(205, 92, 92)) == "http://localhost:70/color/205/92/92"
  {
  }
}
