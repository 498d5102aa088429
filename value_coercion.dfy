/**
 * `ParameterUtils.SetParameter` and `ParameterUtils.ToHost`: writing a
 * Grasshopper value into a Revit parameter, dispatching on the pair
 * (storage type of the parameter, runtime shape of the value), scaling
 * lengths, areas and volumes from model units to Revit's internal units.
 */
module ValueCoercion {
  import opened Wrappers
  import opened Revit

  /** `Revit.ModelUnits`: the size of one model unit in Revit's internal units. */
  type Scale = u: real | u > 0.0 witness 1.0

  /** The power of the model unit a parameter type scales by. */
  function Dimension(t: ParameterType): nat {
    match t
    case Length => 1
    case Area => 2
    case Volume => 3
    case OtherType(_) => 0
  }

  /** `Math.Pow(u, n)` for a whole exponent `n`. */
  function Power(u: real, n: nat): real {
    if n == 0 then 1.0 else u * Power(u, n - 1)
  }

  /**
   * `ToHost(value, type)`: from model units to internal units. Scaling by a
   * positive unit keeps the sign of the value, zero included.
   */
  function ToHost(value: real, t: ParameterType, units: Scale): (r: real)
    ensures r < 0.0 <==> value < 0.0
    ensures r == 0.0 <==> value == 0.0
  {
    match t
    case Length => PowerPositive(units, 1); DivisionKeepsSign(value, Power(units, 1)); value / Power(units, 1)
    case Area => PowerPositive(units, 2); DivisionKeepsSign(value, Power(units, 2)); value / Power(units, 2)
    case Volume => PowerPositive(units, 3); DivisionKeepsSign(value, Power(units, 3)); value / Power(units, 3)
    case OtherType(_) => value
  }

  /** Dividing by a positive number keeps the sign. */
  lemma DivisionKeepsSign(x: real, d: real)
    requires d > 0.0
    ensures x / d < 0.0 <==> x < 0.0
    ensures x / d == 0.0 <==> x == 0.0
  {
    var q := x / d;
    assert q * d == x;
    if q < 0.0 { assert q * d < 0.0; }
    if q > 0.0 { assert q * d > 0.0; }
  }

  /** The read-back direction: from internal units to model units. */
  function FromHost(stored: real, t: ParameterType, units: Scale): real {
    stored * Power(units, Dimension(t))
  }

  lemma PowerPositive(u: Scale, n: nat)
    ensures Power(u, n) > 0.0
  {
    if n > 0 {
      PowerPositive(u, n - 1);
    }
  }

  /** `ToHost` divides by the model unit raised to the parameter type's dimension. */
  lemma {:induction false} ToHostScales(value: real, t: ParameterType, units: Scale)
    ensures ToHost(value, t, units) * Power(units, Dimension(t)) == value
    ensures Dimension(t) == 0 ==> ToHost(value, t, units) == value
  {
    PowerPositive(units, Dimension(t));
  }

  /** Writing a value and reading it back gives the value, for every positive model unit. */
  lemma UnitRoundTrip(value: real, t: ParameterType, units: Scale)
    ensures FromHost(ToHost(value, t, units), t, units) == value
  {
    ToHostScales(value, t, units);
  }

  // ----- Bitwise integer operations, as C# evaluates them on non-negative ints.

  function Pow2(k: nat): (p: nat)
    ensures p > 0
  {
    if k == 0 then 1 else 2 * Pow2(k - 1)
  }

  /** `a | b` on non-negative integers, bit by bit from the lowest. */
  function Or(a: nat, b: nat): nat
    decreases a + b
  {
    if a == 0 then b
    else if b == 0 then a
    else 2 * Or(a / 2, b / 2) + (if a % 2 == 1 || b % 2 == 1 then 1 else 0)
  }

  /** `x << k` on a non-negative integer that does not overflow. */
  function Shl(x: nat, k: nat): nat {
    x * Pow2(k)
  }

  /** Or-ing in a value shifted above every bit of `a` adds it. */
  lemma {:induction false} OrDisjoint(a: nat, b: nat, k: nat)
    requires a < Pow2(k)
    ensures Or(a, Shl(b, k)) == a + Shl(b, k)
  {
    if a != 0 && b != 0 {
      var h := Shl(b, k - 1);
      assert Shl(b, k) == 2 * h;
      OrDisjoint(a / 2, b, k - 1);
      assert Or(a, Shl(b, k)) == 2 * Or(a / 2, h) + a % 2;
    }
  }

  /**
   * `((int) R) | ((int) G << 8) | ((int) B << 16)`: the channels occupy
   * disjoint bytes, so the or is the weighted sum.
   */
  function PackColour(r: Byte, g: Byte, b: Byte): (p: nat)
    ensures p == r + 0x100 * g + 0x1_0000 * b
  {
    assert Pow2(8) == 0x100 && Pow2(16) == 0x1_0000 by {
      assert Pow2(4) == 16;
    }
    OrDisjoint(r, g, 8);
    OrDisjoint(r + 0x100 * g, b, 16);
    Or(Or(r, Shl(g, 8)), Shl(b, 16))
  }

  /** The packed colour holds each channel in its own byte, so the channels can be read back. */
  lemma PackColourChannels(r: Byte, g: Byte, b: Byte)
    ensures 0 <= PackColour(r, g, b) < 0x100_0000
    ensures PackColour(r, g, b) % 0x100 == r
    ensures PackColour(r, g, b) / 0x100 % 0x100 == g
    ensures PackColour(r, g, b) / 0x1_0000 == b
  {
    var n := r + 0x100 * g + 0x1_0000 * b;
    assert n / 0x100 == g + 0x100 * b;
  }

  // ----- The value written to a parameter.

  /** The value `Parameter.Set` stores, one case per overload used. */
  datatype Stored =
    | IntegerValue(n: Int32)
    | DoubleValue(x: real)
    | StringValue(s: string)
    | ElementIdValue(id: int)

  function KindOf(s: Stored): StorageKind {
    match s
    case IntegerValue(_) => IntegerStorage
    case DoubleValue(_) => DoubleStorage
    case StringValue(_) => StringStorage
    case ElementIdValue(_) => ElementIdStorage
  }

  /** `.Clamp(int.MinValue, int.MaxValue)`. */
  function ClampToInt32(n: int): Int32 {
    if n < -0x8000_0000 then -0x8000_0000
    else if n > 0x7FFF_FFFF then 0x7FFF_FFFF
    else n
  }

  /** The pairs (storage type, value shape) `SetParameter` knows how to write. */
  predicate Accepts(storage: StorageKind, value: ScriptValue) {
    match storage
    case IntegerStorage => value.Boolean? || value.Integer? || value.Real? || value.Colour?
    case DoubleStorage => value.Integer? || value.Real?
    case StringStorage => value.Text?
    case ElementIdStorage => value.ElementRef? || value.CategoryRef? || value.Integer?
    case NoStorage => false
  }

  /** Writing a `double` reads the parameter's definition for its unit scaling. */
  predicate ReadsDefinition(p: Handle, value: ScriptValue) {
    value.Real? && (p.storage.IntegerStorage? || p.storage.DoubleStorage?)
  }

  /**
   * The value `SetParameter` writes into parameter `p`, or `None` for a pair
   * it does not support; `round` is `Math.Round`.
   */
  function Coerce(p: Handle, value: ScriptValue, units: Scale, round: real -> int): (r: Option<Stored>)
    requires ReadsDefinition(p, value) ==> p.definition.Some?
    ensures r.Some? <==> Accepts(p.storage, value)
    ensures r.Some? ==> KindOf(r.value) == p.storage
  {
    match p.storage
    case IntegerStorage =>
      (match value
       case Boolean(flag) => Some(IntegerValue(if flag then 1 else 0))
       case Integer(n) => Some(IntegerValue(n))
       case Real(x) => Some(IntegerValue(ClampToInt32(round(ToHost(x, p.definition.value.parameterType, units)))))
       case Colour(r, g, b) => (PackColourChannels(r, g, b); Some(IntegerValue(PackColour(r, g, b))))
       case _ => None)
    case DoubleStorage =>
      (match value
       case Integer(n) => Some(DoubleValue(n as real))
       case Real(x) => Some(DoubleValue(ToHost(x, p.definition.value.parameterType, units)))
       case _ => None)
    case StringStorage =>
      (match value
       case Text(s) => Some(StringValue(s))
       case _ => None)
    case ElementIdStorage =>
      (match value
       case ElementRef(e) => Some(ElementIdValue(e.id))
       case CategoryRef(id) => Some(ElementIdValue(id))
       case Integer(n) => Some(ElementIdValue(n))
       case _ => None)
    case NoStorage => None
  }

  /** A colour written to an integer parameter is a 24-bit value its channels can be read back from. */
  lemma ColourRoundTrip(p: Handle, r: Byte, g: Byte, b: Byte, units: Scale, round: real -> int)
    requires p.storage == IntegerStorage
    ensures var w := Coerce(p, Colour(r, g, b), units, round);
            w.Some? && w.value.IntegerValue? && 0 <= w.value.n < 0x100_0000
            && w.value.n % 0x100 == r && w.value.n / 0x100 % 0x100 == g && w.value.n / 0x1_0000 == b
  {
    PackColourChannels(r, g, b);
  }

  /**
   * A `double` written to an integer parameter is the rounded internal-unit
   * value when that fits an `int`, and the nearest `int` bound otherwise.
   */
  lemma RealToIntegerClamps(p: Handle, x: real, units: Scale, round: real -> int)
    requires p.storage == IntegerStorage && p.definition.Some?
    ensures var n := round(ToHost(x, p.definition.value.parameterType, units));
            var w := Coerce(p, Real(x), units, round);
            w.Some? && w.value.IntegerValue?
            && (-0x8000_0000 <= n <= 0x7FFF_FFFF ==> w.value.n == n)
            && (n < -0x8000_0000 ==> w.value.n == -0x8000_0000)
            && (n > 0x7FFF_FFFF ==> w.value.n == 0x7FFF_FFFF)
  {
  }

  /** A `double` written to a double parameter reads back, in model units, as itself. */
  lemma RealToDoubleRoundTrip(p: Handle, x: real, units: Scale, round: real -> int)
    requires p.storage == DoubleStorage && p.definition.Some?
    ensures var w := Coerce(p, Real(x), units, round);
            w.Some? && w.value.DoubleValue?
            && FromHost(w.value.x, p.definition.value.parameterType, units) == x
  {
    UnitRoundTrip(x, p.definition.value.parameterType, units);
  }

  /** Booleans, integers, text and element references are written without scaling. */
  lemma UnscaledWrites(p: Handle, value: ScriptValue, units: Scale, round: real -> int)
    requires Accepts(p.storage, value) && !value.Real? && !value.Colour?
    ensures Coerce(p, value, units, round) == Some(
              match value
              case Boolean(flag) => IntegerValue(if flag then 1 else 0)
              case Integer(n) =>
                if p.storage == IntegerStorage then IntegerValue(n)
                else if p.storage == DoubleStorage then DoubleValue(n as real)
                else ElementIdValue(n)
              case Text(s) => StringValue(s)
              case ElementRef(e) => ElementIdValue(e.id)
              case CategoryRef(id) => ElementIdValue(id))
  {
  }

  /** The parameter values of the document, as `Parameter.Set` leaves them. */
  class ParameterStore {
    var values: map<Handle, Stored>

    constructor (initial: map<Handle, Stored>)
      ensures values == initial
    {
      values := initial;
    }

    /** `parameter.Set(...)`. */
    method Set(p: Handle, v: Stored)
      modifies this
      ensures values == old(values)[p := v]
    {
      values := values[p := v];
    }
  }

  /**
   * `ParameterUtils.SetParameter(obj, element, parameter, goo)`: writes the
   * coerced value when the pair is supported; otherwise writes nothing. For a
   * non-null parameter it posts an Error when nothing was written, and also
   * when the caller passed a null `element`, whose null is the source's
   * failure flag. Returns true in every case.
   */
  method SetParameter(log: RuntimeLog, store: ParameterStore, element: Option<Element>,
                      parameter: Option<Handle>, value: ScriptValue, units: Scale, round: real -> int)
    returns (ok: bool)
    requires parameter.Some? && ReadsDefinition(parameter.value, value) ==> parameter.value.definition.Some?
    modifies log, store
    ensures ok
    ensures parameter.None? ==> store.values == old(store.values) && log.messages == old(log.messages)
    ensures parameter.Some? ==>
              var w := Coerce(parameter.value, value, units, round);
              && store.values == (if w.Some? then old(store.values)[parameter.value := w.value] else old(store.values))
              && log.messages == old(log.messages)
                   + (if w.None? || element.None? then [Message(Error, CastFailed(value, parameter.value.storage))] else [])
  {
    var failed := element.None?;
    if parameter.Some? {
      var w := Coerce(parameter.value, value, units, round);
      if w.Some? {
        store.Set(parameter.value, w.value);
      } else {
        failed := true;
      }
    }
    if failed && parameter.Some? {
      log.Add(Message(Error, CastFailed(value, parameter.value.storage)));
    }
    return true;
  }
}
