/** JSON values as the browser client sees them, with the JavaScript rules the client
    code relies on: truthiness, `String(v)`, property access (which throws on null and
    undefined), object spread, strict equality, `Object.entries`/`Object.values`,
    `Array.prototype.flat` and `join`, and `parseInt`. */
module Js {
  import opened Wrappers
  import opened Text

  /** A JavaScript value that can arrive in, or be sent as, a JSON payload. `Undefined`
      stands for a missing property. Numbers are integral. An object is the list of its
      properties in the order this model builds them; JavaScript's rule that integer-like
      keys enumerate first, and `JSON.parse` keeping the last of repeated keys, are not
      modelled. */
  datatype Json =
    | Undefined
    | Null
    | Bool(b: bool)
    | Num(n: int)
    | Str(s: string)
    | Arr(items: seq<Json>)
    | Obj(entries: seq<(string, Json)>)

  /** JavaScript truthiness: undefined, null, false, 0 and "" are falsy. */
  predicate Truthy(v: Json) {
    match v
    case Undefined => false
    case Null => false
    case Bool(b) => b
    case Num(n) => n != 0
    case Str(s) => s != ""
    case Arr(_) => true
    case Obj(_) => true
  }

  predicate Nullish(v: Json) {
    v.Undefined? || v.Null?
  }

  /** JavaScript `a || b`: the first operand when truthy, else the second. */
  function Or(a: Json, b: Json): Json {
    if Truthy(a) then a else b
  }

  /** `typeof v === 'object'` (which includes null). */
  predicate IsObjectType(v: Json) {
    v.Null? || v.Arr? || v.Obj?
  }

  /** `String(v)`; arrays render as their elements joined by "," and plain objects as
      "[object Object]". */
  function ToStr(v: Json): string
    decreases v, 1
  {
    match v
    case Undefined => "undefined"
    case Null => "null"
    case Bool(b) => if b then "true" else "false"
    case Num(n) => Decimal(n)
    case Str(s) => s
    case Arr(items) => JoinValues(items, ",")
    case Obj(_) => "[object Object]"
  }

  /** `Array.prototype.join(sep)`: null and undefined elements become empty strings. */
  function JoinValues(items: seq<Json>, sep: string): string
    decreases items, 0
  {
    if |items| == 0 then ""
    else
      var first := if Nullish(items[0]) then "" else ToStr(items[0]);
      if |items| == 1 then first else first + sep + JoinValues(items[1..], sep)
  }

  /** The value stored under `k` in an object's entries (the first one), or undefined. */
  function Lookup(entries: seq<(string, Json)>, k: string): Json
    decreases |entries|
  {
    if |entries| == 0 then Undefined
    else if entries[0].0 == k then entries[0].1
    else Lookup(entries[1..], k)
  }

  /** The value under the key of the `i`-th entry, when no earlier entry has that key. */
  lemma {:induction false} LookupAt(entries: seq<(string, Json)>, i: int)
    requires 0 <= i < |entries|
    requires forall j :: 0 <= j < i ==> entries[j].0 != entries[i].0
    ensures Lookup(entries, entries[i].0) == entries[i].1
    decreases i
  {
    if i > 0 {
      LookupAt(entries[1..], i - 1);
    }
  }

  /** A key no entry has reads as undefined. */
  lemma {:induction false} LookupMissing(entries: seq<(string, Json)>, k: string)
    requires k !in Keys(entries)
    ensures Lookup(entries, k) == Undefined
    decreases |entries|
  {
    if |entries| > 0 {
      assert entries[0].0 == Keys(entries)[0];
      assert Keys(entries[1..]) == Keys(entries)[1..];
      LookupMissing(entries[1..], k);
    }
  }

  /** The property names of an object, in order. */
  function Keys(entries: seq<(string, Json)>): (r: seq<string>)
    ensures |r| == |entries|
    ensures forall i :: 0 <= i < |entries| ==> r[i] == entries[i].0
    decreases |entries|
  {
    if |entries| == 0 then []
    else
      var r := [entries[0].0] + Keys(entries[1..]);
      assert forall i :: 1 <= i < |entries| ==> r[i] == Keys(entries[1..])[i - 1];
      r
  }

  /** `{...o, [k]: v}`: an existing property keeps its position and takes the new value,
      a new property is appended. */
  function SetProp(entries: seq<(string, Json)>, k: string, v: Json): (r: seq<(string, Json)>)
    ensures Lookup(r, k) == v
    ensures forall k' :: k' != k ==> Lookup(r, k') == Lookup(entries, k')
    ensures k in Keys(entries) ==> Keys(r) == Keys(entries)
    ensures k !in Keys(entries) ==> Keys(r) == Keys(entries) + [k]
    decreases |entries|
  {
    if |entries| == 0 then
      KeysPrepend((k, v), []);
      [(k, v)]
    else if entries[0].0 == k then
      KeysPrepend((k, v), entries[1..]);
      KeysOfTail(entries);
      [(k, v)] + entries[1..]
    else
      var rest := SetProp(entries[1..], k, v);
      KeysPrepend(entries[0], rest);
      KeysOfTail(entries);
      [entries[0]] + rest
  }

  lemma KeysPrepend(x: (string, Json), rest: seq<(string, Json)>)
    ensures ([x] + rest)[0] == x && ([x] + rest)[1..] == rest
    ensures Keys([x] + rest) == [x.0] + Keys(rest)
  {
    assert ([x] + rest)[1..] == rest;
  }

  lemma KeysOfTail(entries: seq<(string, Json)>)
    requires |entries| > 0
    ensures Keys(entries) == [entries[0].0] + Keys(entries[1..])
    ensures forall k :: k in Keys(entries) <==> k == entries[0].0 || k in Keys(entries[1..])
  {
  }

  /** `v[k]` (and `v.k`): none when `v` is null or undefined, because JavaScript throws a
      TypeError there. Arrays and strings expose only `length`; indexed access and
      inherited methods are not modelled. */
  function GetProp(v: Json, k: string): (r: Option<Json>)
    ensures r.None? <==> Nullish(v)
    ensures v.Obj? ==> r == Some(Lookup(v.entries, k))
    ensures !v.Obj? && r.Some? && k != "length" ==> r == Some(Undefined)
  {
    match v
    case Undefined => None
    case Null => None
    case Obj(entries) => Some(Lookup(entries, k))
    case Arr(items) => Some(if k == "length" then Num(|items|) else Undefined)
    case Str(s) => Some(if k == "length" then Num(|s|) else Undefined)
    case Bool(_) => Some(Undefined)
    case Num(_) => Some(Undefined)
  }

  /** `v?.k`: optional chaining yields undefined instead of throwing. */
  function OptionalProp(v: Json, k: string): Json {
    GetProp(v, k).GetOr(Undefined)
  }

  /** The message V8 puts on the TypeError thrown by reading a property of null or undefined. */
  function NullAccessMessage(v: Json, k: string): string {
    "Cannot read properties of " + (if v.Undefined? then "undefined" else "null") + " (reading '" + k + "')"
  }

  /** `a === b`; values parsed from JSON that are arrays or objects are distinct references,
      so they are never strictly equal. */
  predicate StrictEq(a: Json, b: Json) {
    match (a, b)
    case (Undefined, Undefined) => true
    case (Null, Null) => true
    case (Bool(x), Bool(y)) => x == y
    case (Num(x), Num(y)) => x == y
    case (Str(x), Str(y)) => x == y
    case _ => false
  }

  /** `Object.entries(v)`: own enumerable properties as [key, value] pairs. */
  function Entries(v: Json): seq<(string, Json)> {
    match v
    case Obj(entries) => entries
    case Arr(items) => seq(|items|, i requires 0 <= i < |items| => (Decimal(i), items[i]))
    case Str(s) => seq(|s|, i requires 0 <= i < |s| => (Decimal(i), Str([s[i]])))
    case _ => []
  }

  /** `Object.values(v)`. */
  function Values(v: Json): (r: seq<Json>)
    ensures |r| == |Entries(v)|
    ensures forall i :: 0 <= i < |r| ==> r[i] == Entries(v)[i].1
  {
    var es := Entries(v);
    seq(|es|, i requires 0 <= i < |es| => es[i].1)
  }

  /** `Array.prototype.flat()`: nested arrays are spliced in, one level deep. */
  function Flat(vs: seq<Json>): seq<Json>
    decreases |vs|
  {
    if |vs| == 0 then []
    else (match vs[0] case Arr(items) => items case _ => [vs[0]]) + Flat(vs[1..])
  }

  /** Flattening distributes over concatenation. */
  lemma {:induction false} FlatConcat(vs: seq<Json>, ws: seq<Json>)
    ensures Flat(vs + ws) == Flat(vs) + Flat(ws)
    decreases |vs|
  {
    if |vs| == 0 {
      assert vs + ws == ws;
    } else {
      assert (vs + ws)[0] == vs[0];
      assert (vs + ws)[1..] == vs[1..] + ws;
      FlatConcat(vs[1..], ws);
    }
  }

  /** Strings as JSON string values, in order. */
  function StrItems(ss: seq<string>): (r: seq<Json>)
    ensures |r| == |ss| && forall i :: 0 <= i < |ss| ==> r[i] == Str(ss[i])
    decreases |ss|
  {
    if |ss| == 0 then [] else [Str(ss[0])] + StrItems(ss[1..])
  }

  lemma {:induction false} StrItemsConcat(ss: seq<string>, ts: seq<string>)
    ensures StrItems(ss + ts) == StrItems(ss) + StrItems(ts)
    decreases |ss|
  {
    if |ss| == 0 {
      assert ss + ts == ts;
    } else {
      assert (ss + ts)[1..] == ss[1..] + ts;
      StrItemsConcat(ss[1..], ts);
    }
  }

  /** `join` on an array of strings is the strings joined with the separator. */
  lemma {:induction false} JoinValuesOfStrings(ss: seq<string>, sep: string)
    ensures JoinValues(StrItems(ss), sep) == JoinWith(ss, sep)
    decreases |ss|
  {
    if |ss| > 1 {
      assert StrItems(ss)[1..] == StrItems(ss[1..]);
      JoinValuesOfStrings(ss[1..], sep);
    }
  }

  /** The object a Django REST framework validation error arrives as: each field with its
      list of messages, in field order. */
  function FieldErrors(fields: seq<(string, seq<string>)>): (r: seq<(string, Json)>)
    ensures |r| == |fields|
    ensures forall i :: 0 <= i < |fields| ==> r[i] == (fields[i].0, Arr(StrItems(fields[i].1)))
    decreases |fields|
  {
    if |fields| == 0 then []
    else [(fields[0].0, Arr(StrItems(fields[0].1)))] + FieldErrors(fields[1..])
  }

  /** Every message of every field, in field order. */
  function AllMessages(fields: seq<(string, seq<string>)>): seq<string>
    decreases |fields|
  {
    if |fields| == 0 then [] else fields[0].1 + AllMessages(fields[1..])
  }

  /** `Object.values(errors).flat()` lists every message in field order. */
  lemma {:induction false} FlatFieldErrors(fields: seq<(string, seq<string>)>)
    ensures Flat(Values(Obj(FieldErrors(fields)))) == StrItems(AllMessages(fields))
    decreases |fields|
  {
    if |fields| > 0 {
      var vs := Values(Obj(FieldErrors(fields)));
      var rest := Values(Obj(FieldErrors(fields[1..])));
      assert FieldErrors(fields)[1..] == FieldErrors(fields[1..]);
      assert vs == [Arr(StrItems(fields[0].1))] + rest;
      assert vs[1..] == rest;
      FlatFieldErrors(fields[1..]);
      StrItemsConcat(fields[0].1, AllMessages(fields[1..]));
    }
  }

  /** Value of a character as a digit in radices up to 36. */
  function DigitValue(c: char): Option<nat> {
    if '0' <= c <= '9' then Some(c as int - '0' as int)
    else if 'a' <= c <= 'z' then Some(c as int - 'a' as int + 10)
    else if 'A' <= c <= 'Z' then Some(c as int - 'A' as int + 10)
    else None
  }

  predicate IsRadixDigit(c: char, radix: nat) {
    DigitValue(c).Some? && DigitValue(c).value < radix
  }

  /** Length of the longest prefix of `s` made of digits in `radix`. */
  function DigitRun(s: string, radix: nat): (k: nat)
    ensures k <= |s|
    ensures forall i :: 0 <= i < k ==> IsRadixDigit(s[i], radix)
    ensures k == |s| || !IsRadixDigit(s[k], radix)
    decreases |s|
  {
    if |s| > 0 && IsRadixDigit(s[0], radix) then 1 + DigitRun(s[1..], radix) else 0
  }

  /** The number written by the digit string `s` in `radix`. */
  function RadixValue(s: string, radix: nat): int
    requires forall i :: 0 <= i < |s| ==> IsRadixDigit(s[i], radix)
    decreases |s|
  {
    if |s| == 0 then 0
    else
      assert IsRadixDigit(s[|s| - 1], radix);
      RadixValue(s[..|s| - 1], radix) * radix + DigitValue(s[|s| - 1]).value
  }

  /** A text that JavaScript's `Number` reads as a positive number, restricted to plain
      decimal digit strings: the empty text is 0 and any other text is taken as NaN. */
  predicate DigitsPositive(s: string) {
    && (forall i :: 0 <= i < |s| ==> IsRadixDigit(s[i], 10))
    && RadixValue(s, 10) > 0
  }

  /** `v > 0`: null is 0, undefined and plain objects are NaN, booleans are 0 or 1, and
      strings and arrays compare by their text, read by `DigitsPositive`. */
  predicate Positive(v: Json)
    ensures v.Num? ==> (Positive(v) <==> v.n > 0)
    ensures Nullish(v) || v.Obj? ==> !Positive(v)
  {
    match v
    case Undefined => false
    case Null => false
    case Bool(b) => b
    case Num(n) => n > 0
    case Str(s) => DigitsPositive(s)
    case Arr(_) => DigitsPositive(ToStr(v))
    case Obj(_) => false
  }

  /** `parseInt(s)` with no radix: leading JavaScript whitespace is skipped, one sign is
      accepted, and the digits that follow are read by `ParseUnsigned`. `None` is NaN. */
  function ParseInt(s: string): Option<int> {
    var t := TrimStart(JavaScript, s);
    if |t| > 0 && t[0] == '-' then
      match ParseUnsigned(t[1..])
      case Some(m) => Some(-m)
      case None => None
    else if |t| > 0 && t[0] == '+' then ParseUnsigned(t[1..])
    else ParseUnsigned(t)
  }

  /** The unsigned part of `parseInt`: a "0x"/"0X" prefix selects hexadecimal, and the
      longest run of digits that follows is read; anything after it is ignored. */
  function ParseUnsigned(u: string): Option<int> {
    var hex := |u| >= 2 && u[0] == '0' && (u[1] == 'x' || u[1] == 'X');
    var radix := if hex then 16 else 10;
    var v := if hex then u[2..] else u;
    var k := DigitRun(v, radix);
    if k == 0 then None else Some(RadixValue(v[..k], radix))
  }

  /** A number produced by `parseInt` as it appears in a JSON request body:
      `JSON.stringify` writes NaN as null. */
  function NumberOrNull(n: Option<int>): Json {
    match n
    case Some(x) => Num(x)
    case None => Null
  }

  /** Reading back the decimal digits of a natural number gives the number. */
  lemma {:induction false} DigitsValue(n: nat)
    ensures forall i :: 0 <= i < |Digits(n)| ==> IsRadixDigit(Digits(n)[i], 10)
    ensures RadixValue(Digits(n), 10) == n
    decreases n
  {
    var d := Digits(n);
    assert forall i :: 0 <= i < |d| ==> IsRadixDigit(d[i], 10) by {
      forall i | 0 <= i < |d| ensures IsRadixDigit(d[i], 10) {
        assert IsDigit(d[i]);
      }
    }
    if n >= 10 {
      DigitsValue(n / 10);
      assert d[..|d| - 1] == Digits(n / 10);
      assert d[|d| - 1] == DigitChar(n % 10);
    }
  }

  /** A non-empty run of decimal digits is read back as its value. */
  lemma ParseUnsignedDigits(d: string)
    requires |d| >= 1
    requires forall i :: 0 <= i < |d| ==> IsDigit(d[i])
    ensures forall i :: 0 <= i < |d| ==> IsRadixDigit(d[i], 10)
    ensures ParseUnsigned(d) == Some(RadixValue(d, 10))
  {
    forall i | 0 <= i < |d| ensures IsRadixDigit(d[i], 10) {
      assert IsDigit(d[i]);
    }
    var k := DigitRun(d, 10);
    assert k == |d|;
    assert !(|d| >= 2 && d[0] == '0' && (d[1] == 'x' || d[1] == 'X')) by {
      if |d| >= 2 {
        assert IsDigit(d[1]);
      }
    }
    assert d[..k] == d;
  }

  /** `parseInt` reads back what `String` writes for an integer. */
  lemma ParseIntOfDecimal(n: int)
    ensures ParseInt(Decimal(n)) == Some(n)
  {
    if n < 0 {
      var m: nat := -n;
      assert Decimal(n) == "-" + Digits(m);
      NegativeDecimal(m);
    } else {
      assert Decimal(n) == Digits(n);
      NonNegativeDecimal(n);
    }
  }

  /** `parseInt` of a non-empty run of decimal digits is their value. */
  lemma ParseIntOfDigits(d: string)
    requires |d| >= 1
    requires forall i :: 0 <= i < |d| ==> IsDigit(d[i])
    ensures forall i :: 0 <= i < |d| ==> IsRadixDigit(d[i], 10)
    ensures ParseInt(d) == Some(RadixValue(d, 10))
  {
    ParseUnsignedDigits(d);
    assert IsDigit(d[0]);
    TrimStartKeeps(d);
    assert d[0] != '-' && d[0] != '+';
  }

  /** A string that does not start with whitespace is left alone by `parseInt`'s trim. */
  lemma TrimStartKeeps(s: string)
    requires |s| >= 1 && (IsDigit(s[0]) || s[0] == '-')
    ensures TrimStart(JavaScript, s) == s
  {
    assert !IsSpace(JavaScript, s[0]);
  }

  lemma NonNegativeDecimal(m: nat)
    ensures ParseInt(Digits(m)) == Some(m)
  {
    DigitsValue(m);
    ParseIntOfDigits(Digits(m));
  }

  lemma NegativeDecimal(m: nat)
    requires m > 0
    ensures ParseInt("-" + Digits(m)) == Some(-(m as int))
  {
    DigitsValue(m);
    NegatedDigits(Digits(m), m);
  }

  /** A minus sign followed by a non-empty run of decimal digits reads as the negated
      value of the digits. */
  lemma NegatedDigits(d: string, m: int)
    requires |d| >= 1
    requires forall i :: 0 <= i < |d| ==> IsDigit(d[i])
    requires forall i :: 0 <= i < |d| ==> IsRadixDigit(d[i], 10)
    requires RadixValue(d, 10) == m
    ensures ParseInt("-" + d) == Some(-m)
  {
    ParseUnsignedDigits(d);
    ParseIntOfNegated(d, m);
  }

  /** A leading minus sign negates what the unsigned part reads. */
  lemma ParseIntOfNegated(u: string, v: int)
    requires ParseUnsigned(u) == Some(v)
    ensures ParseInt("-" + u) == Some(-v)
  {
    var s := "-" + u;
    assert s[0] == '-';
    TrimStartKeeps(s);
    assert s[1..] == u;
  }
}
