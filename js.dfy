/** The JavaScript values, plain objects and built-in operations that the
    clause builders and the middleware rely on. */
module Js {

  datatype Option<+T> = None | Some(value: T)

  /** A primitive value as it arrives in a request payload or a token;
      `VInt` is an integer-valued number, without the double's range. */
  datatype Value = VInt(n: int) | VStr(s: string) | VBool(b: bool) | VNull

  /** One own enumerable property of a plain object. */
  type Entry = (string, Value)

  /** A plain object is the sequence of its entries in `Object.keys`
      enumeration order; `Object.values` follows the same order. */
  predicate DistinctKeys(o: seq<Entry>)
  {
    forall i, j :: 0 <= i < j < |o| ==> o[i].0 != o[j].0
  }

  function Values(o: seq<Entry>): seq<Value>
  {
    seq(|o|, i requires 0 <= i < |o| => o[i].1)
  }

  /** Property lookup `o[k]`; None stands for `undefined`. */
  function Get(o: seq<Entry>, k: string): Option<Value>
  {
    if o == [] then None
    else if o[0].0 == k then Some(o[0].1)
    else Get(o[1..], k)
  }

  /** In an object with distinct keys, `o[k]` is `v` exactly when the entry
      `(k, v)` is one of its properties. */
  lemma {:induction false} GetIsMember(o: seq<Entry>, k: string, v: Value)
    requires DistinctKeys(o)
    ensures Get(o, k) == Some(v) <==> (k, v) in o
  {
    if o != [] {
      assert DistinctKeys(o[1..]) by {
        forall i, j | 0 <= i < j < |o[1..]| ensures o[1..][i].0 != o[1..][j].0 {
          assert o[1..][i] == o[i + 1] && o[1..][j] == o[j + 1];
        }
      }
      GetIsMember(o[1..], k, v);
      assert o == [o[0]] + o[1..];
    }
  }

  /** Two enumeration orders of the same object agree on every lookup. */
  lemma GetReordered(o1: seq<Entry>, o2: seq<Entry>, k: string)
    requires DistinctKeys(o1) && DistinctKeys(o2)
    requires multiset(o1) == multiset(o2)
    ensures Get(o1, k) == Get(o2, k)
  {
    match Get(o1, k)
    case Some(v) =>
      GetIsMember(o1, k, v);
      assert (k, v) in multiset(o2);
      GetIsMember(o2, k, v);
    case None =>
      if Get(o2, k).Some? {
        var v := Get(o2, k).value;
        GetIsMember(o2, k, v);
        assert (k, v) in multiset(o1);
        GetIsMember(o1, k, v);
      }
  }

  /** `Array.prototype.join`: the parts with `sep` between consecutive ones. */
  function Join(parts: seq<string>, sep: string): string
    decreases |parts|
  {
    if |parts| == 0 then ""
    else if |parts| == 1 then parts[0]
    else parts[0] + sep + Join(parts[1..], sep)
  }

  // ---- Decimal rendering of placeholder numbers ----

  predicate IsDigit(c: char)
  {
    '0' <= c <= '9'
  }

  predicate AllDigits(s: string)
  {
    forall i :: 0 <= i < |s| ==> IsDigit(s[i])
  }

  function DigitChar(d: nat): (c: char)
    requires d < 10
    ensures IsDigit(c) && c as int - '0' as int == d
  {
    "0123456789"[d]
  }

  /** The decimal rendering of `n`, as template literals print a number. */
  function NatToString(n: nat): (s: string)
    ensures |s| > 0 && AllDigits(s)
    ensures |s| > 1 ==> s[0] != '0'
    decreases n
  {
    if n < 10 then [DigitChar(n)] else NatToString(n / 10) + [DigitChar(n % 10)]
  }

  /** The number a string of decimal digits denotes. */
  function DigitsValue(s: string): nat
    requires AllDigits(s)
    decreases |s|
  {
    if s == [] then 0
    else DigitsValue(s[..|s| - 1]) * 10 + (s[|s| - 1] as int - '0' as int)
  }

  function ParseNat(s: string): Option<nat>
  {
    if s != [] && AllDigits(s) then Some(DigitsValue(s)) else None
  }

  /** Reading back a rendered number gives the number. */
  lemma {:induction false} NatToStringRoundTrip(n: nat)
    ensures ParseNat(NatToString(n)) == Some(n)
    decreases n
  {
    var s := NatToString(n);
    if n >= 10 {
      NatToStringRoundTrip(n / 10);
      assert s[..|s| - 1] == NatToString(n / 10);
      assert DigitsValue(s) == (n / 10) * 10 + n % 10;
    }
  }

  /** Distinct numbers render as distinct placeholders. */
  lemma NatToStringInjective(m: nat, n: nat)
    ensures NatToString(m) == NatToString(n) ==> m == n
  {
    NatToStringRoundTrip(m);
    NatToStringRoundTrip(n);
  }

  /** Length of the run of decimal digits that starts `s`. */
  function DigitRun(s: string): (d: nat)
    ensures d <= |s| && AllDigits(s[..d])
    ensures d == |s| || !IsDigit(s[d])
    decreases |s|
  {
    if s != [] && IsDigit(s[0]) then
      var d := 1 + DigitRun(s[1..]);
      assert s[..d] == [s[0]] + s[1..][..d - 1];
      d
    else 0
  }

  /** A digit string followed by a non-digit (or nothing) is one whole run. */
  lemma {:induction false} DigitRunOf(d: string, rest: string)
    requires AllDigits(d)
    requires rest == [] || !IsDigit(rest[0])
    ensures DigitRun(d + rest) == |d|
    decreases |d|
  {
    if d != [] {
      assert (d + rest)[1..] == d[1..] + rest;
      DigitRunOf(d[1..], rest);
    } else {
      assert d + rest == rest;
    }
  }

  // ---- String.prototype.trim ----

  /** The WhiteSpace and LineTerminator code points of ECMAScript: tab,
      line feed, vertical tab, form feed, carriage return, space, no-break
      space, ogham space mark, the spaces from en quad to hair space, line
      and paragraph separators, narrow no-break space, medium mathematical
      space, ideographic space and the byte order mark. */
  const JsWhitespace: set<char> := {
    '\t', '\n', '\U{000B}', '\U{000C}', '\r', ' ', '\U{00A0}', '\U{1680}',
    '\U{2000}', '\U{2001}', '\U{2002}', '\U{2003}', '\U{2004}', '\U{2005}',
    '\U{2006}', '\U{2007}', '\U{2008}', '\U{2009}', '\U{200A}',
    '\U{2028}', '\U{2029}', '\U{202F}', '\U{205F}', '\U{3000}', '\U{FEFF}'
  }

  predicate IsJsWhitespace(c: char)
  {
    c in JsWhitespace
  }

  /** Drops the longest whitespace prefix. */
  function TrimStart(s: string): (r: string)
    ensures r == [] || !IsJsWhitespace(r[0])
    decreases |s|
  {
    if s != [] && IsJsWhitespace(s[0]) then TrimStart(s[1..]) else s
  }

  /** Drops the longest whitespace suffix. */
  function TrimEnd(s: string): (r: string)
    ensures r == [] || !IsJsWhitespace(r[|r| - 1])
    decreases |s|
  {
    if s != [] && IsJsWhitespace(s[|s| - 1]) then TrimEnd(s[..|s| - 1]) else s
  }

  function Trim(s: string): string
  {
    TrimEnd(TrimStart(s))
  }

  /** What TrimStart keeps is a suffix of its input. */
  lemma {:induction false} TrimStartSuffix(s: string)
    ensures |TrimStart(s)| <= |s| && TrimStart(s) == s[|s| - |TrimStart(s)|..]
    decreases |s|
  {
    if s != [] && IsJsWhitespace(s[0]) {
      TrimStartSuffix(s[1..]);
      assert s[1..][|s| - 1 - |TrimStart(s)|..] == s[|s| - |TrimStart(s)|..];
    }
  }

  /** What TrimEnd keeps is a prefix of its input. */
  lemma {:induction false} TrimEndPrefix(s: string)
    ensures |TrimEnd(s)| <= |s| && TrimEnd(s) == s[..|TrimEnd(s)|]
    decreases |s|
  {
    if s != [] && IsJsWhitespace(s[|s| - 1]) {
      TrimEndPrefix(s[..|s| - 1]);
      assert s[..|s| - 1][..|TrimEnd(s)|] == s[..|TrimEnd(s)|];
    }
  }

  /** Everything TrimStart drops is whitespace. */
  lemma {:induction false} TrimStartMargin(s: string)
    ensures forall k :: 0 <= k < |s| - |TrimStart(s)| ==> IsJsWhitespace(s[k])
    decreases |s|
  {
    if s != [] && IsJsWhitespace(s[0]) {
      TrimStartMargin(s[1..]);
      forall k | 1 <= k < |s| - |TrimStart(s)| ensures IsJsWhitespace(s[k]) {
        assert s[k] == s[1..][k - 1];
      }
    }
  }

  /** Everything TrimEnd drops is whitespace. */
  lemma {:induction false} TrimEndMargin(s: string)
    ensures forall k :: |TrimEnd(s)| <= k < |s| ==> IsJsWhitespace(s[k])
    decreases |s|
  {
    if s != [] && IsJsWhitespace(s[|s| - 1]) {
      TrimEndMargin(s[..|s| - 1]);
      forall k | |TrimEnd(s)| <= k < |s| - 1 ensures IsJsWhitespace(s[k]) {
        assert s[k] == s[..|s| - 1][k];
      }
    }
  }

  /** Trim leaves a string that neither starts nor ends with whitespace. */
  lemma TrimNoOuterWhitespace(s: string)
    ensures var r := Trim(s); r == [] || (!IsJsWhitespace(r[0]) && !IsJsWhitespace(r[|r| - 1]))
  {
    var t := TrimStart(s);
    var r := TrimEnd(t);
    TrimEndPrefix(t);
    if r != [] {
      assert r[0] == t[..|r|][0] == t[0];
    }
  }

  /** Trim cuts its result out of the input right after the leading
      whitespace, and what lies on either side of the cut is whitespace. */
  lemma TrimCutsOut(s: string)
    ensures var r, i := Trim(s), |s| - |TrimStart(s)|;
      && 0 <= i <= i + |r| <= |s| && r == s[i..i + |r|]
      && (forall k :: 0 <= k < i ==> IsJsWhitespace(s[k]))
      && (forall k :: i + |r| <= k < |s| ==> IsJsWhitespace(s[k]))
  {
    var t := TrimStart(s);
    var r := TrimEnd(t);
    TrimStartSuffix(s);
    TrimEndPrefix(t);
    TrimStartMargin(s);
    TrimEndMargin(t);
    CutOut(s, t, r);
  }

  /** A prefix `r` of a suffix `t` of `s` is a slice of `s`; whitespace
      before `t` in `s`, and after `r` in `t`, is whitespace around that
      slice. */
  lemma CutOut(s: string, t: string, r: string)
    requires |t| <= |s| && t == s[|s| - |t|..]
    requires |r| <= |t| && r == t[..|r|]
    requires forall k :: 0 <= k < |s| - |t| ==> IsJsWhitespace(s[k])
    requires forall k :: |r| <= k < |t| ==> IsJsWhitespace(t[k])
    ensures var i := |s| - |t|;
      && r == s[i..i + |r|]
      && (forall k :: i + |r| <= k < |s| ==> IsJsWhitespace(s[k]))
  {
  }

  /** Trimming twice is trimming once. */
  lemma TrimIdempotent(s: string)
    ensures Trim(Trim(s)) == Trim(s)
  {
    var r := Trim(s);
    TrimNoOuterWhitespace(s);
    if r != [] {
      assert TrimStart(r) == r;
      assert TrimEnd(r) == r;
    }
  }

  // ---- The relational operator `>` on primitives ----

  /** The result of ToNumber: an integer or NaN. */
  datatype Number = NaN | Num(value: int)

  /** StringToNumber for the decimal-integer forms, after trimming; the
      other forms JavaScript converts (fractions, exponents, `0x`, `0b` and
      `0o` literals, `Infinity`) are NaN here. */
  function StringToNumber(s: string): Number
  {
    var t := Trim(s);
    if t == [] then Num(0)
    else if |t| > 1 && (t[0] == '+' || t[0] == '-') && AllDigits(t[1..]) then
      var magnitude: int := DigitsValue(t[1..]);
      Num(if t[0] == '-' then -magnitude else magnitude)
    else if AllDigits(t) then Num(DigitsValue(t))
    else NaN
  }

  /** ToNumber; None is `undefined`. */
  function ToNumber(v: Option<Value>): Number
  {
    match v
    case None => NaN
    case Some(VInt(n)) => Num(n)
    case Some(VBool(b)) => Num(if b then 1 else 0)
    case Some(VNull) => Num(0)
    case Some(VStr(s)) => StringToNumber(s)
  }

  /** Lexicographic order on strings, character by character. */
  predicate StringLess(a: string, b: string)
    decreases |a|
  {
    if a == [] then b != []
    else if b == [] then false
    else if a[0] != b[0] then a[0] < b[0]
    else StringLess(a[1..], b[1..])
  }

  /** `a > b`: two strings compare lexicographically, anything else
      numerically, and a comparison with NaN is false. */
  predicate GreaterThan(a: Option<Value>, b: Option<Value>)
  {
    if a.Some? && a.value.VStr? && b.Some? && b.value.VStr? then StringLess(b.value.s, a.value.s)
    else
      match (ToNumber(a), ToNumber(b))
      case (Num(x), Num(y)) => x > y
      case _ => false
  }

  /** `>` never holds when one side is `undefined`, and on two integers it is
      the integer order. */
  lemma GreaterThanFacts(a: Option<Value>, b: Option<Value>)
    ensures a.None? || b.None? ==> !GreaterThan(a, b)
    ensures a.Some? && a.value.VInt? && b.Some? && b.value.VInt? ==>
      (GreaterThan(a, b) <==> a.value.n > b.value.n)
  {
  }
}
