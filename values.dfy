/**
 * The structured values that intents, payloads, results and metadata are made of:
 * the JSON-like subset of Python values the system passes around as dictionaries.
 */
module Values {

  datatype Value =
    | Null                       // Python None
    | Bool(b: bool)
    | Int(i: int)
    | Str(s: string)
    | Obj(fields: map<string, Value>)
    | List(items: seq<Value>)

  /** A Python dictionary with string keys. */
  type Dict = map<string, Value>

  /** `d.get(key)`: the value under `key`, or None when the key is absent. */
  function Get(d: Dict, key: string): (v: Value)
    ensures key !in d ==> v == Null
    ensures key in d ==> v == d[key]
  {
    if key in d then d[key] else Null
  }

  /** Python truthiness of a value. */
  predicate Truthy(v: Value) {
    match v
    case Null => false
    case Bool(b) => b
    case Int(i) => i != 0
    case Str(s) => s != ""
    case Obj(m) => m != map[]
    case List(xs) => xs != []
  }

  /** Decimal rendering of an integer, as Python's `str(int)` gives it. */
  function IntToString(i: int): (s: string)
    ensures s != []
    decreases if i < 0 then 1 - i else i
  {
    if i < 0 then "-" + IntToString(-i)
    else if i < 10 then [DigitChar(i)]
    else IntToString(i / 10) + [DigitChar(i % 10)]
  }

  function DigitChar(d: int): char
    requires 0 <= d < 10
  {
    "0123456789"[d]
  }

  /** Distinct digits have distinct characters. */
  lemma DigitCharInjective(x: int, y: int)
    requires 0 <= x < 10 && 0 <= y < 10 && x != y
    ensures DigitChar(x) != DigitChar(y)
  {
  }

  /** Distinct natural numbers have distinct decimal renderings. */
  lemma {:induction false} IntToStringInjective(a: nat, b: nat)
    requires a != b
    ensures IntToString(a) != IntToString(b)
    decreases a + b
  {
    if a < 10 && b < 10 {
      DigitCharInjective(a, b);
      assert IntToString(a)[0] != IntToString(b)[0];
    } else if a < 10 || b < 10 {
      assert |IntToString(a)| != |IntToString(b)|;
    } else {
      var x, y := IntToString(a / 10), IntToString(b / 10);
      assert IntToString(a) == x + [DigitChar(a % 10)];
      assert IntToString(b) == y + [DigitChar(b % 10)];
      if a % 10 != b % 10 {
        DigitCharInjective(a % 10, b % 10);
        assert IntToString(a)[|x|] != IntToString(b)[|y|] || |x| != |y|;
      } else {
        IntToStringInjective(a / 10, b / 10);
        if |x| == |y| {
          assert IntToString(a)[..|x|] == x && IntToString(b)[..|y|] == y;
        }
      }
    }
  }

  /**
   * Python's `str(v)` for the scalar values; containers are rendered by a fixed
   * placeholder (Python prints their repr, whose key order the model does not keep).
   */
  function Display(v: Value): string {
    match v
    case Null => "None"
    case Bool(b) => if b then "True" else "False"
    case Int(i) => IntToString(i)
    case Str(s) => s
    case Obj(_) => "{...}"
    case List(_) => "[...]"
  }

  /** Values Python can use as a dictionary key (lists and dicts are unhashable). */
  predicate Hashable(v: Value) {
    !v.Obj? && !v.List?
  }
}
