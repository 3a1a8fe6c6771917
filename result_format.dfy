/** The result formatter `format_result` of backend/computations.py: a walk
    over a JSON-like value tree that rounds floats to six decimal places and
    leaves the opaque "graph" entry alone. */
module ResultFormat {

  /** A Python value as the kernels return it. */
  datatype Value =
    | VFloat(x: real)
    | VInt(n: int)
    | VBool(b: bool)
    | VStr(s: string)
    | VList(items: seq<Value>)
    | VTuple(items: seq<Value>)
    | VDict(entries: map<string, Value>)

  /** The reserved key under which a kernel stores its rendered chart. */
  const GraphKey: string := "graph"

  /** Six decimal places. */
  const Scale: real := 1000000.0

  /** `x` has at most six decimal places. */
  predicate IsRounded(x: real)
  {
    (x * Scale).Floor as real == x * Scale
  }

  /** Python's `round(x, 6)`, on the exact value: the nearest multiple of
      10^-6, ties to the even multiple. */
  function Round6(x: real): (r: real)
    ensures IsRounded(r)
    ensures -0.5 / Scale <= r - x <= 0.5 / Scale
    ensures x * Scale - (x * Scale).Floor as real == 0.5 ==> (r * Scale).Floor % 2 == 0
    ensures IsRounded(x) ==> r == x
  {
    var t := x * Scale;
    var n := t.Floor;
    var frac := t - n as real;
    var k := if frac > 0.5 then n + 1
             else if frac < 0.5 then n
             else if n % 2 == 0 then n else n + 1;
    assert k as real / Scale * Scale == k as real;
    k as real / Scale
  }

  /** How a top-level element of a list is formatted: `round(num, 6)` for an
      int or float (a bool is an int in Python, and rounding it yields the
      int 0 or 1); anything else, nested lists and tuples included, as is. */
  function RoundElement(e: Value): (r: Value)
    ensures e.VFloat? ==> r.VFloat? && r.x == Round6(e.x)
    ensures e.VBool? ==> r == VInt(if e.b then 1 else 0)
    ensures !e.VFloat? && !e.VBool? ==> r == e
  {
    match e
    case VFloat(x) => VFloat(Round6(x))
    case VBool(b) => VInt(if b then 1 else 0)
    case _ => e
  }

  /** A list element as `RoundElement` leaves it. */
  predicate ElementFormatted(e: Value)
  {
    match e
    case VFloat(x) => IsRounded(x)
    case VBool(_) => false
    case _ => true
  }

  /** Every value the formatter would round is already rounded. */
  predicate Formatted(v: Value)
  {
    match v
    case VFloat(x) => IsRounded(x)
    case VList(items) => forall i :: 0 <= i < |items| ==> ElementFormatted(items[i])
    case VDict(m) => forall k :: k in m && k != GraphKey ==> Formatted(m[k])
    case _ => true
  }

  /** `format_result`. */
  function Format(v: Value): (r: Value)
    ensures Formatted(r)
    ensures v.VFloat? ==> r.VFloat? && r.x == Round6(v.x)
    ensures v.VList? ==> r.VList? && |r.items| == |v.items|
                         && forall i :: 0 <= i < |v.items| ==> r.items[i] == RoundElement(v.items[i])
    ensures v.VDict? ==> r.VDict? && r.entries.Keys == v.entries.Keys
    ensures v.VDict? && GraphKey in v.entries ==> r.entries[GraphKey] == v.entries[GraphKey]
    ensures !v.VFloat? && !v.VList? && !v.VDict? ==> r == v
  {
    match v
    case VFloat(x) => VFloat(Round6(x))
    case VList(items) => VList(seq(|items|, i requires 0 <= i < |items| => RoundElement(items[i])))
    case VDict(m) => VDict(map k | k in m :: if k == GraphKey then m[k] else Format(m[k]))
    case _ => v
  }

  /** Every non-"graph" value of a dict is formatted recursively. */
  lemma FormatDictValue(v: Value, k: string)
    requires v.VDict? && k in v.entries && k != GraphKey
    ensures Format(v).entries[k] == Format(v.entries[k])
  {
  }

  /** An element that is already formatted is left alone. */
  lemma RoundElementFixes(e: Value)
    requires ElementFormatted(e)
    ensures RoundElement(e) == e
  {
  }

  /** The formatter changes nothing in a value that is already formatted. */
  lemma {:induction false} FormatFixesFormatted(v: Value)
    requires Formatted(v)
    ensures Format(v) == v
  {
    match v
    case VFloat(x) =>
    case VList(items) =>
      var r := Format(v);
      forall i | 0 <= i < |items| ensures r.items[i] == items[i] {
        RoundElementFixes(items[i]);
      }
      assert r.items == items;
    case VDict(m) =>
      var r := Format(v);
      forall k | k in m ensures r.entries[k] == m[k] {
        if k != GraphKey {
          FormatFixesFormatted(m[k]);
        }
      }
      assert r.entries == m;
    case _ =>
  }

  /** Formatting is idempotent. */
  lemma FormatIdempotent(v: Value)
    ensures Format(Format(v)) == Format(v)
  {
    FormatFixesFormatted(Format(v));
  }

  /** A formatted value is exactly one that the formatter leaves unchanged. */
  lemma FormattedIffFixed(v: Value)
    ensures Formatted(v) <==> Format(v) == v
  {
    if Formatted(v) {
      FormatFixesFormatted(v);
    }
  }
}
