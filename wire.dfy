/**
 * The JSON messages nodes exchange, and the Python conversions the node code
 * applies to their fields: int(), float(), str.split and str.join.
 */
module Wire {
  import opened Base

  /** A JSON scalar as json.loads produces it (nested containers are not needed). */
  datatype Json = JNull | JBool(b: bool) | JInt(i: int) | JReal(r: real) | JStr(s: string)

  /** A decoded JSON object. */
  type Message = map<string, Json>

  // ---------------------------------------------------------------------------
  // Decimal digits

  predicate IsDigit(c: char) { '0' <= c <= '9' }

  predicate AllDigits(s: string) { forall i :: 0 <= i < |s| ==> IsDigit(s[i]) }

  /** The value of a (possibly empty) string of decimal digits. */
  function DigitsValue(s: string): (v: nat)
    requires AllDigits(s)
  {
    if |s| == 0 then 0
    else 10 * DigitsValue(s[..|s| - 1]) + (s[|s| - 1] as int - '0' as int)
  }

  function DigitChar(d: nat): (c: char)
    requires d < 10
    ensures IsDigit(c) && c as int - '0' as int == d
  {
    ('0' as int + d) as char
  }

  /** str(n) for a non-negative integer. */
  function NatToString(n: nat): (s: string)
    decreases n
  {
    if n < 10 then [DigitChar(n)] else NatToString(n / 10) + [DigitChar(n % 10)]
  }

  lemma {:induction false} NatToStringDigits(n: nat)
    ensures |NatToString(n)| > 0 && AllDigits(NatToString(n))
    ensures DigitsValue(NatToString(n)) == n
    decreases n
  {
    if n >= 10 {
      NatToStringDigits(n / 10);
      var s := NatToString(n);
      assert s[..|s| - 1] == NatToString(n / 10);
    }
  }

  /**
   * Python int() applied to a string, for the form node ids and states are
   * written in: an optional sign followed by one or more ASCII decimal
   * digits. Every other string is refused (None, for ValueError), including
   * the padded and underscored forms Python would still accept.
   */
  function ParseInt(s: string): (r: Option<int>)
    ensures r.Some? ==> |s| > 0
  {
    if |s| > 0 && (s[0] == '-' || s[0] == '+') then
      if |s| > 1 && AllDigits(s[1..]) then
        Some(if s[0] == '-' then -(DigitsValue(s[1..]) as int) else DigitsValue(s[1..]))
      else None
    else if |s| > 0 && AllDigits(s) then Some(DigitsValue(s))
    else None
  }

  /** int(str(n)) == n: printing a node id and parsing it back is the identity. */
  lemma ParseIntOfNatToString(n: nat)
    ensures ParseInt(NatToString(n)) == Some(n)
  {
    NatToStringDigits(n);
  }

  /** str(i) for any integer. */
  function IntToString(i: int): (s: string)
  {
    if i < 0 then "-" + NatToString(-i) else NatToString(i)
  }

  /** str(v) / f"{v}" of a decoded JSON scalar; a float is shown by its integer part only. */
  function Str(v: Json): string
  {
    match v
    case JNull => "None"
    case JBool(b) => if b then "True" else "False"
    case JInt(i) => IntToString(i)
    case JReal(x) => IntToString(Truncate(x)) + ".0"
    case JStr(s) => s
  }

  /** int(str(i)) == i. */
  lemma IntToStringRoundTrip(i: int)
    ensures ParseInt(IntToString(i)) == Some(i)
  {
    if i < 0 {
      NatToStringDigits(-i);
      assert IntToString(i)[1..] == NatToString(-i);
    } else {
      NatToStringDigits(i);
    }
  }

  // ---------------------------------------------------------------------------
  // str.split(sep) and sep.join(parts)

  /** Python's s.split(sep) for a one-character separator: never an empty list. */
  function Split(s: string, sep: char): (parts: seq<string>)
    ensures |parts| >= 1
  {
    if |s| == 0 then [""]
    else if s[0] == sep then [""] + Split(s[1..], sep)
    else
      var rest := Split(s[1..], sep);
      [[s[0]] + rest[0]] + rest[1..]
  }

  /** Python's sep.join(parts). */
  function Join(parts: seq<string>, sep: char): string
  {
    if |parts| == 0 then ""
    else if |parts| == 1 then parts[0]
    else parts[0] + [sep] + Join(parts[1..], sep)
  }

  lemma {:induction false} SplitWithoutSeparator(a: string, sep: char)
    requires sep !in a
    ensures Split(a, sep) == [a]
  {
    if |a| > 0 {
      SplitWithoutSeparator(a[1..], sep);
      assert [a[0]] + a[1..] == a;
    }
  }

  lemma {:induction false} SplitAtFirstSeparator(a: string, b: string, sep: char)
    requires sep !in a
    ensures Split(a + [sep] + b, sep) == [a] + Split(b, sep)
  {
    var s := a + [sep] + b;
    if |a| == 0 {
      assert s[0] == sep && s[1..] == b;
    } else {
      assert s[0] == a[0] && s[1..] == a[1..] + [sep] + b;
      SplitAtFirstSeparator(a[1..], b, sep);
      assert [a[0]] + a[1..] == a;
    }
  }

  /** Splitting a join gives back the parts when no part contains the separator. */
  lemma {:induction false} SplitJoin(parts: seq<string>, sep: char)
    requires |parts| >= 1
    requires forall i :: 0 <= i < |parts| ==> sep !in parts[i]
    ensures Split(Join(parts, sep), sep) == parts
  {
    if |parts| == 1 {
      SplitWithoutSeparator(parts[0], sep);
    } else {
      SplitJoin(parts[1..], sep);
      SplitAtFirstSeparator(parts[0], Join(parts[1..], sep), sep);
      assert [parts[0]] + parts[1..] == parts;
    }
  }

  /** Joining the pieces of a split gives back the string. */
  lemma {:induction false} JoinSplit(s: string, sep: char)
    ensures Join(Split(s, sep), sep) == s
  {
    if |s| > 0 {
      JoinSplit(s[1..], sep);
      var rest := Split(s[1..], sep);
      if s[0] == sep {
        assert Split(s, sep)[1..] == rest;
        assert [sep] + s[1..] == s;
      } else {
        var parts := Split(s, sep);
        assert parts[0] == [s[0]] + rest[0];
        assert parts[1..] == rest[1..];
        assert [s[0]] + s[1..] == s;
      }
    }
  }

  // ---------------------------------------------------------------------------
  // int() and float() on JSON values

  /** [int(x) for x in parts]: the first part that is not an integer raises ValueError. */
  function ParseInts(parts: seq<string>): (r: Result<seq<int>>)
    ensures r.Ok? ==> |r.value| == |parts|
    ensures r.Ok? ==> forall i :: 0 <= i < |parts| ==> ParseInt(parts[i]) == Some(r.value[i])
    ensures r.Err? ==> exists i :: 0 <= i < |parts| && ParseInt(parts[i]).None?
  {
    if |parts| == 0 then Ok([])
    else match ParseInt(parts[0])
      case None => Err(ValueError(parts[0]))
      case Some(v) =>
        match ParseInts(parts[1..])
        case Err(e) => Err(e)
        case Ok(vs) => Ok([v] + vs)
  }

  /** Python int(x) toward zero for a real. */
  function Truncate(r: real): (i: int)
    ensures r >= 0.0 ==> i == r.Floor
    ensures r < 0.0 ==> i == -((-r).Floor)
  {
    if r >= 0.0 then r.Floor else -((-r).Floor)
  }

  /** Python int(v) on a decoded JSON value. */
  function ToInt(v: Json): (r: Result<int>)
  {
    match v
    case JInt(i) => Ok(i)
    case JBool(b) => Ok(if b then 1 else 0)
    case JReal(x) => Ok(Truncate(x))
    case JStr(s) => (match ParseInt(s) case Some(i) => Ok(i) case None => Err(ValueError(s)))
    case JNull => Err(TypeError("int(None)"))
  }

  function Pow10(n: nat): (p: nat)
    ensures p >= 1
  {
    if n == 0 then 1 else 10 * Pow10(n - 1)
  }

  /**
   * Python float() on a plain decimal literal: an optional sign, digits, an
   * optional fraction; at least one digit.
   */
  function ParseReal(s: string): (r: Option<real>)
  {
    var negative := |s| > 0 && s[0] == '-';
    var body := if |s| > 0 && (s[0] == '-' || s[0] == '+') then s[1..] else s;
    var parts := Split(body, '.');
    if |parts| == 1 && |body| > 0 && AllDigits(body) then
      Some(if negative then -(DigitsValue(body) as real) else DigitsValue(body) as real)
    else if |parts| == 2 && AllDigits(parts[0]) && AllDigits(parts[1]) && |parts[0]| + |parts[1]| > 0 then
      var v := DigitsValue(parts[0]) as real + DigitsValue(parts[1]) as real / Pow10(|parts[1]|) as real;
      Some(if negative then -v else v)
    else None
  }

  /** float() agrees with int() on every string int() accepts. */
  lemma ParseRealExtendsParseInt(s: string)
    requires ParseInt(s).Some?
    ensures ParseReal(s) == Some(ParseInt(s).value as real)
  {
    var body := if |s| > 0 && (s[0] == '-' || s[0] == '+') then s[1..] else s;
    assert AllDigits(body);
    assert forall i :: 0 <= i < |body| ==> body[i] != '.';
    SplitWithoutSeparator(body, '.');
  }

  /** Python float(v) on a decoded JSON value. */
  function ToReal(v: Json): (r: Result<real>)
  {
    match v
    case JInt(i) => Ok(i as real)
    case JBool(b) => Ok(if b then 1.0 else 0.0)
    case JReal(x) => Ok(x)
    case JStr(s) => (match ParseReal(s) case Some(x) => Ok(x) case None => Err(ValueError(s)))
    case JNull => Err(TypeError("float(None)"))
  }

  /** msg[key]: a missing key raises KeyError. */
  function Lookup(msg: Message, key: string): (r: Result<Json>)
    ensures r.Ok? <==> key in msg
    ensures r.Ok? ==> r.value == msg[key]
    ensures r.Err? ==> r.error == KeyError(key)
  {
    if key in msg then Ok(msg[key]) else Err(KeyError(key))
  }
}
