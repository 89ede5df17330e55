/** The insight record as the backend's response schema declares it, and the way the
    dashboard's JavaScript reads a field of it: as a dynamically typed value that is
    coerced to a string by `String(...)` and tested for truthiness by `||` and
    `filter(Boolean)`. */
module Records {

  datatype Option<T> = None | Some(value: T)

  /** One record, with the fields and types of the response schema. Every field is
      optional: the backend serialises a missing one as JSON `null`. */
  datatype Record = Record(
    endYear: Option<int>,
    intensity: Option<int>,
    sector: Option<string>,
    topic: Option<string>,
    insight: Option<string>,
    url: Option<string>,
    region: Option<string>,
    startYear: Option<int>,
    impact: Option<int>,
    added: Option<string>,
    published: Option<string>,
    country: Option<string>,
    relevance: Option<int>,
    pestle: Option<string>,
    source: Option<string>,
    title: Option<string>,
    likelihood: Option<int>)

  /** What `item[key]` evaluates to in the browser. `Undefined` is the value of a key
      the record does not have. */
  datatype Value = Undefined | Null | Int(i: int) | Str(s: string)

  /** The eight fields the dashboard can filter on, in the order in which the filter
      state object declares them. */
  datatype FilterKey = EndYear | Topic | Sector | Region | Pestle | Source | Country | City

  /** The order in which `Object.entries` visits the filter state's keys. */
  const EntryOrder: seq<FilterKey> := [EndYear, Topic, Sector, Region, Pestle, Source, Country, City]

  function IntValue(o: Option<int>): Value
  {
    match o
    case None => Null
    case Some(i) => Int(i)
  }

  function StrValue(o: Option<string>): Value
  {
    match o
    case None => Null
    case Some(s) => Str(s)
  }

  /** `item[key]`. The schema has no `city` field, so a record read back from the
      backend has no `city` key at all. */
  function Field(r: Record, k: FilterKey): Value
  {
    match k
    case EndYear => IntValue(r.endYear)
    case Topic => StrValue(r.topic)
    case Sector => StrValue(r.sector)
    case Region => StrValue(r.region)
    case Pestle => StrValue(r.pestle)
    case Source => StrValue(r.source)
    case Country => StrValue(r.country)
    case City => Undefined
  }

  /** JavaScript truthiness: `undefined`, `null`, `0` and `""` are falsy. */
  predicate Truthy(v: Value)
  {
    match v
    case Undefined => false
    case Null => false
    case Int(i) => i != 0
    case Str(s) => s != ""
  }

  /** `x || 0` on a numeric field: a missing value counts as 0. */
  function OrZero(o: Option<int>): int
  {
    match o
    case None => 0
    case Some(i) => i
  }

  function Digit(d: nat): char
    requires d < 10
  {
    ('0' as int + d) as char
  }

  predicate IsDigit(c: char)
  {
    '0' <= c <= '9'
  }

  predicate IsNumeral(s: string)
  {
    forall i :: 0 <= i < |s| ==> IsDigit(s[i])
  }

  /** The number a string of decimal digits denotes, most significant digit first. */
  function DecimalValue(s: string): nat
    requires IsNumeral(s)
  {
    if s == [] then 0
    else 10 * DecimalValue(s[..|s| - 1]) + (s[|s| - 1] as int - '0' as int)
  }

  /** The decimal numeral of `n`: digits only, and a leading zero only for 0 itself. */
  function NatToDecimal(n: nat): (s: string)
    ensures |s| >= 1 && IsNumeral(s)
    ensures n < 10 <==> |s| == 1
    ensures s[0] == '0' <==> n == 0
  {
    if n < 10 then [Digit(n)] else NatToDecimal(n / 10) + [Digit(n % 10)]
  }

  /** The numeral denotes the number it was made from. */
  lemma {:induction false} NatToDecimalValue(n: nat)
    ensures DecimalValue(NatToDecimal(n)) == n
  {
    var s := NatToDecimal(n);
    if n >= 10 {
      NatToDecimalValue(n / 10);
      assert s[..|s| - 1] == NatToDecimal(n / 10);
    }
  }

  /** `String(n)` for an integer `n`. */
  function IntToDecimal(n: int): string
  {
    if n < 0 then "-" + NatToDecimal(-n) else NatToDecimal(n)
  }

  /** `String(v)`. */
  function ToStr(v: Value): string
  {
    match v
    case Undefined => "undefined"
    case Null => "null"
    case Int(i) => IntToDecimal(i)
    case Str(s) => s
  }

  /** `String(n)` is a minus sign exactly for a negative `n`, followed by the numeral
      of its magnitude. */
  lemma IntToDecimalValue(n: int)
    ensures IntToDecimal(n)[0] == '-' <==> n < 0
    ensures n < 0 ==> IsNumeral(IntToDecimal(n)[1..]) && DecimalValue(IntToDecimal(n)[1..]) == -n
    ensures n >= 0 ==> IsNumeral(IntToDecimal(n)) && DecimalValue(IntToDecimal(n)) == n
  {
    var m: nat := if n < 0 then -n else n;
    var digits := NatToDecimal(m);
    NatToDecimalValue(m);
    assert IsDigit(digits[0]);
    if n < 0 {
      assert IntToDecimal(n) == "-" + digits;
      assert IntToDecimal(n)[1..] == digits;
    } else {
      assert IntToDecimal(n) == digits;
    }
  }

  lemma {:induction false} NatToDecimalInjective(a: nat, b: nat)
    requires NatToDecimal(a) == NatToDecimal(b)
    ensures a == b
  {
    var sa, sb := NatToDecimal(a), NatToDecimal(b);
    if a >= 10 && b >= 10 {
      assert sa[..|sa| - 1] == NatToDecimal(a / 10);
      assert sb[..|sb| - 1] == NatToDecimal(b / 10);
      NatToDecimalInjective(a / 10, b / 10);
      assert Digit(a % 10) == sa[|sa| - 1] == Digit(b % 10);
    } else if a < 10 && b < 10 {
      assert Digit(a) == sa[0] == Digit(b);
    }
  }

  /** Different integers have different numerals, so comparing `String(n)` with a
      numeral compares the numbers. */
  lemma IntToDecimalInjective(a: int, b: int)
    requires IntToDecimal(a) == IntToDecimal(b)
    ensures a == b
  {
    var sa, sb := IntToDecimal(a), IntToDecimal(b);
    assert (sa[0] == '-') == (a < 0) && (sb[0] == '-') == (b < 0);
    if a < 0 {
      assert sa[1..] == NatToDecimal(-a) && sb[1..] == NatToDecimal(-b);
      NatToDecimalInjective(-a, -b);
    } else {
      NatToDecimalInjective(a, b);
    }
  }
}
