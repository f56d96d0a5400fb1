/**
 * The JavaScript values the core inspects: fields of a parsed JSON request body,
 * JS truthiness, the text a value turns into when it is interpolated into a
 * message or bound to a text parameter, and `String.prototype.toUpperCase`.
 */
module JsValues {

  /** A request-body field. Objects, arrays and fractional numbers are not modelled. */
  datatype JsValue = Undefined | Null | Bool(b: bool) | Num(n: int) | Str(s: string)

  /** A parsed JSON body: a missing key reads as `undefined`. */
  type Body = map<string, JsValue>

  function Field(body: Body, key: string): JsValue
  {
    if key in body then body[key] else Undefined
  }

  /** JS truthiness: `undefined`, `null`, `false`, `0` and `""` are falsy. */
  predicate Truthy(v: JsValue)
  {
    match v
    case Undefined => false
    case Null => false
    case Bool(b) => b
    case Num(n) => n != 0
    case Str(s) => s != ""
  }

  function DigitChar(d: nat): char
    requires d < 10
  {
    "0123456789"[d]
  }

  function NatToDecimal(n: nat): (s: string)
    ensures 1 <= |s|
    ensures forall i :: 0 <= i < |s| ==> '0' <= s[i] <= '9'
  {
    if n < 10 then [DigitChar(n)] else NatToDecimal(n / 10) + [DigitChar(n % 10)]
  }

  function IntToDecimal(n: int): string
  {
    if n < 0 then "-" + NatToDecimal(-n) else NatToDecimal(n)
  }

  /**
   * `String(v)`: the text of a template-literal interpolation. For the truthy
   * values it is applied to, it is also the text node-postgres sends for a
   * parameter bound to a text column.
   */
  function Text(v: JsValue): string
  {
    match v
    case Undefined => "undefined"
    case Null => "null"
    case Bool(b) => if b then "true" else "false"
    case Num(n) => IntToDecimal(n)
    case Str(s) => s
  }

  /**
   * A path segment or query-string value as PostgreSQL reads it when it is bound
   * to an integer parameter: an integer, or text that is not one (`"NaN"`, `"abc"`).
   */
  datatype IntText = Integer(n: int) | NotInteger

  /**
   * Upper-casing of one character: ASCII `a`-`z`, and U+017F (long s), whose
   * upper case is `S` in JavaScript. Other characters are left as they are.
   */
  function UpperChar(c: char): char
  {
    if 'a' <= c <= 'z' then (c as int - 32) as char
    else if c == 'ſ' then 'S'
    else c
  }

  /** `s.toUpperCase()`, character by character. */
  function ToUpperCase(s: string): (r: string)
    ensures |r| == |s|
    ensures forall i :: 0 <= i < |s| ==> r[i] == UpperChar(s[i])
  {
    if s == [] then [] else [UpperChar(s[0])] + ToUpperCase(s[1..])
  }

  lemma UpperCaseKeywords()
    ensures ToUpperCase("asc") == "ASC" && ToUpperCase("desc") == "DESC"
  {
    assert ToUpperCase("asc")[0] == 'A' && ToUpperCase("asc")[1] == 'S' && ToUpperCase("asc")[2] == 'C';
    assert ToUpperCase("desc")[0] == 'D' && ToUpperCase("desc")[1] == 'E';
    assert ToUpperCase("desc")[2] == 'S' && ToUpperCase("desc")[3] == 'C';
  }

  /** Upper-casing twice is upper-casing once: an emitted keyword is already upper case. */
  lemma {:induction false} ToUpperCaseIdempotent(s: string)
    ensures ToUpperCase(ToUpperCase(s)) == ToUpperCase(s)
  {
    var u := ToUpperCase(s);
    var uu := ToUpperCase(u);
    assert |uu| == |u|;
    forall i | 0 <= i < |u| ensures uu[i] == u[i] {
      assert u[i] == UpperChar(s[i]);
    }
  }
}
