/** Values shared by the client and the server models: optional values, JSON-like
    documents with the two languages' truthiness rules, decimal rendering of
    numbers and whitespace trimming. */
module Values {

  datatype Option<+T> = None | Some(value: T)

  /** A JSON value, as exchanged over HTTP and stored as a document. */
  datatype Json =
    | Null
    | Bool(b: bool)
    | Num(n: real)
    | Str(s: string)
    | Arr(items: seq<Json>)
    | Obj(fields: map<string, Json>)

  /** JavaScript truthiness: objects and arrays are truthy even when empty. */
  predicate JsTruthy(j: Json) {
    match j
    case Null => false
    case Bool(b) => b
    case Num(n) => n != 0.0
    case Str(s) => s != ""
    case Arr(_) => true
    case Obj(_) => true
  }

  /** Python truthiness: empty lists and dicts are falsy. */
  predicate PyTruthy(j: Json) {
    match j
    case Null => false
    case Bool(b) => b
    case Num(n) => n != 0.0
    case Str(s) => s != ""
    case Arr(xs) => |xs| > 0
    case Obj(m) => |m| > 0
  }

  /** Python `d.get(key, default)` on a dict. */
  function Get(d: map<string, Json>, key: string, default: Json): (r: Json)
    ensures key in d ==> r == d[key]
    ensures key !in d ==> r == default
  {
    if key in d then d[key] else default
  }

  /** JavaScript optional chaining `j?.key`; a missing property reads as Null. */
  function Field(j: Json, key: string): (r: Json)
    ensures r != Null ==> j.Obj? && key in j.fields && r == j.fields[key]
  {
    if j.Obj? && key in j.fields then j.fields[key] else Null
  }

  /** JavaScript `a || fallback` where `a` is an optional string. */
  function OrElse(a: Option<string>, fallback: string): (r: string)
    ensures a.Some? && a.value != "" ==> r == a.value
    ensures (a.None? || a.value == "") ==> r == fallback
    ensures fallback != "" ==> r != ""
  {
    if a.Some? && a.value != "" then a.value else fallback
  }

  /** The text of a JSON string value that is truthy, else None. */
  function Text(j: Json): (r: Option<string>)
    ensures r.Some? <==> j.Str? && j.s != ""
    ensures r.Some? ==> r.value == j.s
  {
    if j.Str? && j.s != "" then Some(j.s) else None
  }

  predicate StartsWith(s: string, prefix: string) {
    |prefix| <= |s| && s[..|prefix|] == prefix
  }

  /** `s.includes(t)` / `t in s`. */
  predicate Contains(s: string, t: string)
    decreases |s|
  {
    StartsWith(s, t) || (|s| > 0 && Contains(s[1..], t))
  }

  /** Every character of a contained string occurs in the containing one. */
  lemma {:induction false} ContainsChars(s: string, t: string, c: char)
    requires Contains(s, t) && c in t
    ensures c in s
    decreases |s|
  {
    if StartsWith(s, t) {
      assert c in s[..|t|];
    } else {
      ContainsChars(s[1..], t, c);
    }
  }

  /** A contained string's prefixes are contained too. */
  lemma {:induction false} ContainsPrefix(s: string, t: string, k: nat)
    requires Contains(s, t) && k <= |t|
    ensures Contains(s, t[..k])
    decreases |s|
  {
    if StartsWith(s, t) {
      assert s[..k] == t[..k];
    } else {
      ContainsPrefix(s[1..], t, k);
    }
  }

  /** A two-character string found in `a + b` lies inside `a`, inside `b`, or
      across the seam. */
  lemma {:induction false} ContainsPairSplit(a: string, b: string, t: string)
    requires |t| == 2 && Contains(a + b, t)
    ensures Contains(a, t) || Contains(b, t) || (a != [] && b != [] && a[|a| - 1] == t[0] && b[0] == t[1])
    decreases |a|
  {
    if a == [] {
      assert a + b == b;
    } else if StartsWith(a + b, t) {
      if |a| >= 2 {
        assert a[..2] == (a + b)[..2];
      }
    } else {
      assert (a + b)[1..] == a[1..] + b;
      ContainsPairSplit(a[1..], b, t);
      if Contains(a[1..], t) {
        assert |a| > 0 && Contains(a[1..], t);
      }
    }
  }

  // ---------------------------------------------------------------------------
  // Decimal rendering of natural numbers (`${n}`, `str(n)`, `f"{n}"`)

  function DigitChar(d: nat): (c: char)
    requires d < 10
    ensures '0' <= c <= '9'
  {
    ['0', '1', '2', '3', '4', '5', '6', '7', '8', '9'][d]
  }

  function DigitValue(c: char): nat
  {
    if '0' <= c <= '9' then (c as int - '0' as int) else 0
  }

  predicate AllDigits(s: string) {
    forall i :: 0 <= i < |s| ==> '0' <= s[i] <= '9'
  }

  /** The decimal digits of `n`, most significant first, with no leading zero. */
  function Decimal(n: nat): (r: string)
    ensures |r| >= 1 && AllDigits(r)
    ensures |r| > 1 ==> r[0] != '0'
  {
    if n < 10 then [DigitChar(n)] else Decimal(n / 10) + [DigitChar(n % 10)]
  }

  /** Reads a string of digits back as a number. */
  function DigitsValue(s: string): nat
  {
    if s == [] then 0 else DigitsValue(s[..|s| - 1]) * 10 + DigitValue(s[|s| - 1])
  }

  lemma DigitRoundTrip(d: nat)
    requires d < 10
    ensures DigitValue(DigitChar(d)) == d
  {
  }

  /** Reading the decimal rendering of `n` gives `n` back. */
  lemma {:induction false} DecimalRoundTrip(n: nat)
    ensures DigitsValue(Decimal(n)) == n
  {
    DigitRoundTrip(n % 10);
    if n >= 10 {
      DecimalRoundTrip(n / 10);
      var r := Decimal(n);
      assert r[..|r| - 1] == Decimal(n / 10);
    }
  }

  /** Distinct numbers have distinct decimal renderings. */
  lemma DecimalInjective(m: nat, n: nat)
    ensures Decimal(m) == Decimal(n) ==> m == n
  {
    DecimalRoundTrip(m);
    DecimalRoundTrip(n);
  }

  // ---------------------------------------------------------------------------
  // Whitespace trimming

  /** The characters JavaScript's `String.prototype.trim` removes
      (WhiteSpace and LineTerminator of the ECMAScript grammar). */
  const JsSpaces: set<char> := {
    '\t', '\n', '\U{000B}', '\U{000C}', '\r', ' ', '\U{00A0}', '\U{1680}',
    '\U{2000}', '\U{2001}', '\U{2002}', '\U{2003}', '\U{2004}', '\U{2005}',
    '\U{2006}', '\U{2007}', '\U{2008}', '\U{2009}', '\U{200A}',
    '\U{2028}', '\U{2029}', '\U{202F}', '\U{205F}', '\U{3000}', '\U{FEFF}'
  }

  /** The characters Python's `str.strip()` removes (`str.isspace`). */
  const PySpaces: set<char> := {
    '\t', '\n', '\U{000B}', '\U{000C}', '\r', '\U{001C}', '\U{001D}', '\U{001E}',
    '\U{001F}', ' ', '\U{0085}', '\U{00A0}', '\U{1680}',
    '\U{2000}', '\U{2001}', '\U{2002}', '\U{2003}', '\U{2004}', '\U{2005}',
    '\U{2006}', '\U{2007}', '\U{2008}', '\U{2009}', '\U{200A}',
    '\U{2028}', '\U{2029}', '\U{202F}', '\U{205F}', '\U{3000}'
  }

  /** Drops leading characters of `ws`. */
  function TrimStart(s: string, ws: set<char>): string
  {
    if s != [] && s[0] in ws then TrimStart(s[1..], ws) else s
  }

  /** Drops trailing characters of `ws`. */
  function TrimEnd(s: string, ws: set<char>): string
  {
    if s != [] && s[|s| - 1] in ws then TrimEnd(s[..|s| - 1], ws) else s
  }

  function Trim(s: string, ws: set<char>): string
  {
    TrimEnd(TrimStart(s, ws), ws)
  }

  /** Trimming the start leaves a suffix of `s`, everything dropped is in `ws`, and
      what is left does not start with one of them. */
  lemma {:induction false} TrimStartSuffix(s: string, ws: set<char>)
    ensures var r := TrimStart(s, ws);
      |r| <= |s| && r == s[|s| - |r|..]
      && (forall i :: 0 <= i < |s| - |r| ==> s[i] in ws)
      && (r != [] ==> r[0] !in ws)
    decreases |s|
  {
    if s != [] && s[0] in ws {
      TrimStartSuffix(s[1..], ws);
      var r := TrimStart(s, ws);
      assert forall i :: 1 <= i < |s| - |r| ==> s[i] == s[1..][i - 1];
    }
  }

  /** Trimming the end leaves a prefix of `s`, everything dropped is in `ws`, and
      what is left does not end with one of them. */
  lemma {:induction false} TrimEndPrefix(s: string, ws: set<char>)
    ensures var r := TrimEnd(s, ws);
      |r| <= |s| && r == s[..|r|]
      && (forall i :: |r| <= i < |s| ==> s[i] in ws)
      && (r != [] ==> r[|r| - 1] !in ws)
    decreases |s|
  {
    if s != [] && s[|s| - 1] in ws {
      TrimEndPrefix(s[..|s| - 1], ws);
    }
  }

  /** Trimming leaves the empty string exactly when every character is whitespace,
      and otherwise a string that neither starts nor ends with whitespace. */
  lemma TrimBlank(s: string, ws: set<char>)
    ensures Trim(s, ws) == [] <==> forall i :: 0 <= i < |s| ==> s[i] in ws
    ensures Trim(s, ws) != [] ==> Trim(s, ws)[0] !in ws && Trim(s, ws)[|Trim(s, ws)| - 1] !in ws
  {
    var t := TrimStart(s, ws);
    TrimStartSuffix(s, ws);
    TrimEndPrefix(t, ws);
    var r := TrimEnd(t, ws);
    if r != [] {
      assert r[0] == t[0];
    }
  }

  /** JavaScript `s.trim()`. */
  function JsTrim(s: string): string { Trim(s, JsSpaces) }

  /** Python `s.strip()`. */
  function PyStrip(s: string): string { Trim(s, PySpaces) }

  /** The positions of `s` whose element `keep` accepts, in increasing order.
      The loops that keep some entries of a list in order (saved files with a
      face, faces with an image path, admitted users) are all described by it. */
  function Positions<T>(s: seq<T>, keep: T -> bool): (ix: seq<nat>)
    ensures forall j :: 0 <= j < |ix| ==> ix[j] < |s| && keep(s[ix[j]])
    decreases |s|
  {
    if s == [] then []
    else
      var init := Positions(s[..|s| - 1], keep);
      assert forall j :: 0 <= j < |init| ==> s[..|s| - 1][init[j]] == s[init[j]];
      if keep(s[|s| - 1]) then init + [|s| - 1] else init
  }

  /** Every accepted position is listed. */
  lemma {:induction false} PositionsComplete<T>(s: seq<T>, keep: T -> bool, i: nat)
    requires i < |s| && keep(s[i])
    ensures i in Positions(s, keep)
    decreases |s|
  {
    if i < |s| - 1 {
      PositionsComplete(s[..|s| - 1], keep, i);
    }
  }

  /** The positions are listed in strictly increasing order. */
  lemma {:induction false} PositionsIncreasing<T>(s: seq<T>, keep: T -> bool)
    ensures forall j, k :: 0 <= j < k < |Positions(s, keep)| ==> Positions(s, keep)[j] < Positions(s, keep)[k]
    decreases |s|
  {
    if s != [] {
      PositionsIncreasing(s[..|s| - 1], keep);
    }
  }
}
