/** JavaScript values as the dashboard's loosely typed records carry them, and the
    few built-in operations the dashboard applies to them: truthiness and `||`,
    property reads, `String(v)`, `trim()` and `toLowerCase()`. */
module JsValues {

  datatype Option<+T> = None | Some(value: T)

  /** A JavaScript value. Numbers are modelled as integers; an object is its map
      of own properties and an array its sequence of elements. */
  datatype Value =
    | Undef
    | Null
    | Str(s: string)
    | Bool(b: bool)
    | Num(n: int)
    | Arr(items: seq<Value>)
    | Obj(props: map<string, Value>)

  /** JavaScript truthiness: undefined, null, '', false and 0 are falsy. */
  predicate Truthy(v: Value) {
    match v
    case Undef => false
    case Null => false
    case Str(s) => s != ""
    case Bool(b) => b
    case Num(n) => n != 0
    case Arr(_) => true
    case Obj(_) => true
  }

  /** `a || b`: one of the two operands, truthy exactly when either is. */
  function Or(a: Value, b: Value): (r: Value)
    ensures r == a || r == b
    ensures Truthy(r) <==> Truthy(a) || Truthy(b)
    ensures Truthy(a) ==> r == a
  {
    if Truthy(a) then a else b
  }

  /** A property read `o?.k`: undefined unless `o` is an object holding `k`. */
  function Get(o: Value, k: string): Value {
    if o.Obj? && k in o.props then o.props[k] else Undef
  }

  /** A property read on an object given by its property map. */
  function Prop(m: map<string, Value>, k: string): Value {
    if k in m then m[k] else Undef
  }

  // ---------------------------------------------------------------- numbers

  predicate IsDigit(c: char) { '0' <= c <= '9' }

  function DigitChar(d: nat): (c: char)
    requires d < 10
    ensures IsDigit(c) && c as int - '0' as int == d
  {
    (d + '0' as int) as char
  }

  /** The decimal numeral of a natural number, as `String(n)` writes it. */
  function NatToString(n: nat): (s: string)
    ensures |s| > 0
    ensures forall i :: 0 <= i < |s| ==> IsDigit(s[i])
    ensures |s| > 1 ==> s[0] != '0'
  {
    if n < 10 then [DigitChar(n)] else NatToString(n / 10) + [DigitChar(n % 10)]
  }

  /** The number a string of decimal digits denotes. */
  function DecimalValue(s: string): nat
    requires forall i :: 0 <= i < |s| ==> IsDigit(s[i])
  {
    if s == [] then 0
    else
      assert IsDigit(s[|s| - 1]);
      DecimalValue(s[..|s| - 1]) * 10 + (s[|s| - 1] as int - '0' as int)
  }

  /** Reading back a numeral gives the number written. */
  lemma {:induction false} DecimalRoundTrip(n: nat)
    ensures DecimalValue(NatToString(n)) == n
  {
    var s := NatToString(n);
    if n >= 10 {
      DecimalRoundTrip(n / 10);
      assert s[..|s| - 1] == NatToString(n / 10);
    }
  }

  /** Distinct numbers have distinct numerals. */
  lemma NatToStringInjective(m: nat, n: nat)
    requires NatToString(m) == NatToString(n)
    ensures m == n
  {
    DecimalRoundTrip(m);
    DecimalRoundTrip(n);
  }

  /** `String(n)` for an integer: a minus sign before the magnitude when negative. */
  function IntToString(n: int): (s: string)
    ensures |s| > 0
    ensures n < 0 <==> s[0] == '-'
    ensures n >= 0 ==> s == NatToString(n)
    ensures n < 0 ==> s[1..] == NatToString(-n)
  {
    if n < 0 then "-" + NatToString(-n) else NatToString(n)
  }

  predicate AllDigits(s: string) {
    forall i :: 0 <= i < |s| ==> IsDigit(s[i])
  }

  /** Reads a numeral as `IntToString` writes one: digits, after a minus sign
      for a negative number. */
  function ReadInt(s: string): Option<int> {
    if s == [] then None
    else if s[0] == '-' then
      if |s| >= 2 && AllDigits(s[1..]) then Some(-(DecimalValue(s[1..]) as int)) else None
    else if AllDigits(s) then Some(DecimalValue(s))
    else None
  }

  /** Reading back a written integer gives the integer. */
  lemma ReadIntRoundTrip(n: int)
    ensures ReadInt(IntToString(n)) == Some(n)
  {
    if n < 0 {
      DecimalRoundTrip(-n);
      assert IntToString(n)[1..] == NatToString(-n);
    } else {
      DecimalRoundTrip(n);
    }
  }

  /** `Math.abs(n)`. */
  function Abs(n: int): (r: nat)
    ensures r == n || r == -n
  {
    if n < 0 then -n else n
  }

  // ---------------------------------------------------------------- spread

  /** The index properties of a list of elements: "0", "1", … holding them in turn. */
  function IndexProps(xs: seq<Value>): map<string, Value> {
    if xs == [] then map[]
    else IndexProps(xs[..|xs| - 1])[NatToString(|xs| - 1) := xs[|xs| - 1]]
  }

  /** A string's characters, each as the one-character string its index holds. */
  function Chars(s: string): seq<Value> {
    seq(|s|, i requires 0 <= i < |s| => Str([s[i]]))
  }

  /** The properties `{...v}` copies: an object's own properties, the index
      properties of an array's elements or of a string's characters, and
      nothing for undefined, null, booleans and numbers. */
  function Spread(v: Value): map<string, Value> {
    match v
    case Obj(props) => props
    case Arr(items) => IndexProps(items)
    case Str(s) => IndexProps(Chars(s))
    case _ => map[]
  }

  /** Each decimal index is a property holding its element. */
  lemma {:induction false} IndexPropsHold(xs: seq<Value>)
    ensures forall i :: 0 <= i < |xs| ==> NatToString(i) in IndexProps(xs) && IndexProps(xs)[NatToString(i)] == xs[i]
  {
    if xs != [] {
      var p := xs[..|xs| - 1];
      var n := |xs| - 1;
      IndexPropsHold(p);
      forall i | 0 <= i < n ensures NatToString(i) != NatToString(n) {
        if NatToString(i) == NatToString(n) {
          NatToStringInjective(i, n);
        }
      }
    }
  }

  /** `k` is the numeral of an index below `n`. */
  ghost predicate IsIndexBelow(k: string, n: nat) {
    exists i :: 0 <= i < n && k == NatToString(i)
  }

  /** Every property is a decimal index. */
  lemma {:induction false} IndexPropsOnly(xs: seq<Value>)
    ensures forall k :: k in IndexProps(xs) ==> IsIndexBelow(k, |xs|)
  {
    if xs != [] {
      var p := xs[..|xs| - 1];
      var n := |xs| - 1;
      IndexPropsOnly(p);
      forall k | k in IndexProps(xs) ensures IsIndexBelow(k, |xs|) {
        if k == NatToString(n) {
          assert 0 <= n < |xs|;
        } else {
          assert k in IndexProps(p);
          var i :| 0 <= i < |p| && k == NatToString(i);
          assert 0 <= i < |xs|;
        }
      }
    }
  }

  /** What spreading each kind of value copies. */
  lemma SpreadMeaning(v: Value)
    ensures v.Obj? ==> Spread(v) == v.props
    ensures v.Arr? ==>
              && (forall i :: 0 <= i < |v.items| ==> Prop(Spread(v), NatToString(i)) == v.items[i])
              && (forall k :: k in Spread(v) ==> IsIndexBelow(k, |v.items|))
    ensures v.Str? ==>
              && (forall i :: 0 <= i < |v.s| ==> Prop(Spread(v), NatToString(i)) == Str([v.s[i]]))
              && (forall k :: k in Spread(v) ==> IsIndexBelow(k, |v.s|))
    ensures v.Undef? || v.Null? || v.Bool? || v.Num? ==> Spread(v) == map[]
  {
    match v
    case Arr(items) =>
      IndexPropsHold(items);
      IndexPropsOnly(items);
    case Str(s) =>
      IndexPropsHold(Chars(s));
      IndexPropsOnly(Chars(s));
      assert forall i :: 0 <= i < |s| ==> Chars(s)[i] == Str([s[i]]);
    case _ =>
  }

  // ---------------------------------------------------------------- String(v)

  /** `String(v)`, the conversion a regular expression's `test` applies to its
      argument. Arrays are joined with commas, undefined and null elements
      becoming empty; objects print as "[object Object]". */
  function ToJsString(v: Value): string
    decreases v, if v.Arr? then |v.items| + 1 else 0
  {
    match v
    case Undef => "undefined"
    case Null => "null"
    case Str(s) => s
    case Bool(b) => if b then "true" else "false"
    case Num(n) => IntToString(n)
    case Arr(items) => JoinPrefix(v, |items|)
    case Obj(_) => "[object Object]"
  }

  /** The first `k` elements of the array `v`, converted and joined with commas. */
  function JoinPrefix(v: Value, k: nat): string
    requires v.Arr? && k <= |v.items|
    decreases v, k
  {
    if k == 0 then ""
    else
      var last := v.items[k - 1];
      var piece := if last.Undef? || last.Null? then "" else ToJsString(last);
      if k == 1 then piece else JoinPrefix(v, k - 1) + "," + piece
  }

  /** `String` leaves strings as they are. */
  lemma ToJsStringOfStr(s: string)
    ensures ToJsString(Str(s)) == s
  {
  }

  // ---------------------------------------------------------------- trim, lower case

  /** The characters `String.prototype.trim` removes: white space and line terminators. */
  predicate IsJsWhitespace(c: char) {
    c == '\t' || c == '\n' || c == '\U{000B}' || c == '\U{000C}' || c == '\r' || c == ' '
    || c == '\U{00A0}' || c == '\U{1680}' || ('\U{2000}' <= c <= '\U{200A}')
    || c == '\U{2028}' || c == '\U{2029}' || c == '\U{202F}' || c == '\U{205F}'
    || c == '\U{3000}' || c == '\U{FEFF}'
  }

  function TrimStart(s: string): (r: string)
    ensures |r| <= |s| && r == s[|s| - |r|..]
    ensures forall i :: 0 <= i < |s| - |r| ==> IsJsWhitespace(s[i])
    ensures r != [] ==> !IsJsWhitespace(r[0])
  {
    if s != [] && IsJsWhitespace(s[0]) then TrimStart(s[1..]) else s
  }

  function TrimEnd(s: string): (r: string)
    ensures |r| <= |s| && r == s[..|r|]
    ensures forall i :: |r| <= i < |s| ==> IsJsWhitespace(s[i])
    ensures r != [] ==> !IsJsWhitespace(r[|r| - 1])
  {
    if s != [] && IsJsWhitespace(s[|s| - 1]) then TrimEnd(s[..|s| - 1]) else s
  }

  /** `s.trim()`: white space removed at the start, then at the end. */
  function Trim(s: string): (r: string)
    ensures |r| <= |s|
    ensures r != [] ==> !IsJsWhitespace(r[0]) && !IsJsWhitespace(r[|r| - 1])
  {
    TrimEnd(TrimStart(s))
  }

  /** A string with no white space at either end is its own trim. */
  lemma TrimUnchanged(s: string)
    requires s != [] ==> !IsJsWhitespace(s[0]) && !IsJsWhitespace(s[|s| - 1])
    ensures Trim(s) == s
  {
  }

  /** One space on either side of `core` is trimmed away. */
  lemma TrimOneSpace(core: string)
    requires core != [] && !IsJsWhitespace(core[0]) && !IsJsWhitespace(core[|core| - 1])
    ensures Trim([' '] + core + [' ']) == core
  {
    var s := [' '] + core + [' '];
    assert s[1..] == core + [' '];
    assert TrimStart(core + [' ']) == core + [' '];
    assert (core + [' '])[..|core|] == core;
    assert TrimEnd(core) == core;
  }

  function LowerChar(c: char): char {
    if 'A' <= c <= 'Z' then (c as int - 'A' as int + 'a' as int) as char else c
  }

  /** `s.toLowerCase()` restricted to ASCII letters. */
  function ToLowerAscii(s: string): (r: string)
    ensures |r| == |s|
    ensures forall i :: 0 <= i < |s| ==> r[i] == LowerChar(s[i])
  {
    if s == [] then [] else [LowerChar(s[0])] + ToLowerAscii(s[1..])
  }

  /** A string without capital letters is its own lower case. */
  lemma {:induction false} ToLowerAsciiUnchanged(s: string)
    requires forall i :: 0 <= i < |s| ==> !('A' <= s[i] <= 'Z')
    ensures ToLowerAscii(s) == s
  {
    if s != [] {
      ToLowerAsciiUnchanged(s[1..]);
    }
  }
}
