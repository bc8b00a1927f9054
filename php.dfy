/**
 * The slice of PHP's value semantics the audit engine relies on: a small value
 * type, truthiness, loose equality (`==`), conversion to string, array keys,
 * and the few string functions the engine calls (explode, implode, strpos,
 * strrpos, str_replace with an empty replacement).
 */
module Php {
  import opened Wrappers

  /** A PHP value. `Obj(text)` is an object; `text` is what its __toString
      returns, or None when its class has no __toString. */
  datatype Value =
    | Null
    | Bool(b: bool)
    | Int(i: int)
    | Str(s: string)
    | Arr(items: seq<Value>)
    | Obj(text: Option<string>)

  /** The exceptions and fatal errors the engine can raise. */
  datatype Error =
    | ClassNotFound(name: string)        // `new $class` on a class that does not exist
    | RelationMissing(relation: string)  // Revision::getValue's explicit throw
    | NotARelation(name: string)         // ->getRelated() on something that is no relation
    | TooFewArguments                    // a formatter or sprintf called with too few arguments
    | MissingSpecifier                   // sprintf template ending in a lone '%'
    | UnsupportedSpecifier(c: char)      // a sprintf conversion other than %s and %%
    | NotStringable                      // string conversion of an object without __toString
    | IllegalOffset                      // an array or object used as an array key
    | DateError(message: string)         // DateTime could not parse the value

  /** PHP's conversion to bool (`!!$v`, `if ($v)`). */
  predicate Truthy(v: Value) {
    match v
    case Null => false
    case Bool(b) => b
    case Int(i) => i != 0
    case Str(s) => s != "" && s != "0"
    case Arr(items) => items != []
    case Obj(_) => true
  }

  /** `isset($m[$k])`: present and not null. */
  predicate IsSet(m: map<string, Value>, k: string) {
    k in m && m[k] != Null
  }

  /** `$m[$k]` / `array_get($m, $k)`: the value, or null when the key is absent. */
  function Get(m: map<string, Value>, k: string): Value {
    if k in m then m[k] else Null
  }

  // ---------------------------------------------------------------------------
  // Decimal notation of integers

  function DigitChar(d: nat): char
    requires d < 10
  {
    "0123456789"[d]
  }

  function NatToDecimal(n: nat): string
    decreases n
  {
    if n < 10 then [DigitChar(n)] else NatToDecimal(n / 10) + [DigitChar(n % 10)]
  }

  /** How PHP writes an integer as a string. */
  function Decimal(i: int): string {
    if i < 0 then "-" + NatToDecimal(-i) else NatToDecimal(i)
  }

  predicate IsDigit(c: char) {
    '0' <= c <= '9'
  }

  predicate AllDigits(s: string) {
    forall k | 0 <= k < |s| :: IsDigit(s[k])
  }

  function DigitsValue(s: string): nat
    requires AllDigits(s)
  {
    if s == [] then 0 else DigitsValue(s[..|s| - 1]) * 10 + (s[|s| - 1] as int - '0' as int)
  }

  /** Digits without a superfluous leading zero. */
  predicate IsCanonicalNat(s: string) {
    |s| > 0 && AllDigits(s) && (s[0] == '0' ==> |s| == 1)
  }

  /** The integer a string denotes when PHP would turn it into an integer array key. */
  function ParseCanonicalInt(s: string): Option<int> {
    if IsCanonicalNat(s) then Some(DigitsValue(s) as int)
    else if |s| > 1 && s[0] == '-' && IsCanonicalNat(s[1..]) && s[1] != '0' then Some(-(DigitsValue(s[1..]) as int))
    else None
  }

  lemma {:induction false} NatToDecimalCanonical(n: nat)
    ensures IsCanonicalNat(NatToDecimal(n)) && DigitsValue(NatToDecimal(n)) == n
    ensures NatToDecimal(n)[0] == '0' <==> n == 0
    decreases n
  {
    if n >= 10 {
      NatToDecimalCanonical(n / 10);
      var s := NatToDecimal(n);
      assert s[..|s| - 1] == NatToDecimal(n / 10);
    }
  }

  lemma {:induction false} DigitsValuePositive(s: string)
    requires AllDigits(s) && |s| > 0 && s[0] != '0'
    ensures DigitsValue(s) >= 1
    decreases |s|
  {
    if |s| > 1 {
      DigitsValuePositive(s[..|s| - 1]);
    }
  }

  lemma {:induction false} CanonicalNatRoundTrip(s: string)
    requires IsCanonicalNat(s)
    ensures NatToDecimal(DigitsValue(s)) == s
    decreases |s|
  {
    if |s| > 1 {
      var init := s[..|s| - 1];
      DigitsValuePositive(init);
      CanonicalNatRoundTrip(init);
      var d := s[|s| - 1] as int - '0' as int;
      var n := DigitsValue(s);
      assert n == DigitsValue(init) * 10 + d;
      assert n / 10 == DigitsValue(init) && n % 10 == d;
      assert s == init + [s[|s| - 1]];
    }
  }

  /** Printing and parsing integers are inverse: the integer key a string turns
      into is exactly the integer that prints as that string. */
  lemma DecimalRoundTrip(i: int, s: string)
    ensures ParseCanonicalInt(Decimal(i)) == Some(i)
    ensures ParseCanonicalInt(s) == Some(i) ==> Decimal(i) == s
  {
    ParseDecimal(i);
    if ParseCanonicalInt(s) == Some(i) {
      DecimalParse(s, i);
    }
  }

  lemma ParseDecimal(i: int)
    ensures ParseCanonicalInt(Decimal(i)) == Some(i)
  {
    if i < 0 {
      var t := NatToDecimal(-i);
      NatToDecimalCanonical(-i);
      assert t[0] != '0' && DigitsValue(t) == -i;
      ParseNegative(t);
      assert Decimal(i) == "-" + t;
    } else {
      NatToDecimalCanonical(i);
      assert Decimal(i) == NatToDecimal(i);
    }
  }

  /** A minus sign before canonical digits without a leading zero parses as
      the negated value. */
  lemma ParseNegative(t: string)
    requires IsCanonicalNat(t) && t[0] != '0'
    ensures ParseCanonicalInt("-" + t) == Some(-(DigitsValue(t) as int))
  {
    var u := "-" + t;
    assert u[1..] == t;
    assert !IsDigit(u[0]);
  }

  lemma DecimalParse(s: string, i: int)
    requires ParseCanonicalInt(s) == Some(i)
    ensures Decimal(i) == s
  {
    if IsCanonicalNat(s) {
      CanonicalNatRoundTrip(s);
    } else {
      var tail := s[1..];
      CanonicalNatRoundTrip(tail);
      DigitsValuePositive(tail);
      assert i == -(DigitsValue(tail) as int) && i < 0;
      assert Decimal(i) == "-" + NatToDecimal(DigitsValue(tail));
      assert s == "-" + tail;
    }
  }

  // ---------------------------------------------------------------------------
  // Conversion to string and loose comparison

  /** PHP's string conversion (`"{$v}"`, `sprintf('%s', $v)`); None where PHP throws. */
  function ToText(v: Value): (r: Option<string>)
    ensures r.None? <==> v == Obj(None)
    ensures v.Str? ==> r == Some(v.s)
  {
    match v
    case Null => Some("")
    case Bool(b) => Some(if b then "1" else "")
    case Int(i) => Some(Decimal(i))
    case Str(s) => Some(s)
    case Arr(_) => Some("Array")
    case Obj(t) => t
  }

  /** PHP 8's loose comparison `==` on the values the engine meets. Numeric
      strings are compared by their canonical decimal form only. */
  predicate LooseEquals(a: Value, b: Value)
    ensures a == b ==> LooseEquals(a, b)
  {
    match (a, b)
    case (Bool(x), _) => x == Truthy(b)
    case (_, Bool(y)) => Truthy(a) == y
    case (Null, Null) => true
    case (Null, Str(t)) => t == ""
    case (Str(s), Null) => s == ""
    case (Null, _) => !Truthy(b)
    case (_, Null) => !Truthy(a)
    case (Int(x), Int(y)) => x == y
    case (Int(x), Str(t)) => t == Decimal(x)
    case (Str(s), Int(y)) => s == Decimal(y)
    case (Str(s), Str(t)) => s == t
    case (Obj(x), Str(t)) => x == Some(t)
    case (Str(s), Obj(y)) => y == Some(s)
    case (Arr(x), Arr(y)) => x == y
    case (Obj(x), Obj(y)) => x == y
    case _ => false
  }

  /** `==` does not depend on the order of its operands. */
  lemma LooseEqualsSymmetric(a: Value, b: Value)
    ensures LooseEquals(a, b) == LooseEquals(b, a)
  {
  }

  // ---------------------------------------------------------------------------
  // Array keys

  /** A key of a PHP array: numeric strings become integer keys. */
  datatype ArrayKey = IntKey(n: int) | StrKey(s: string)

  function KeyOfString(s: string): ArrayKey {
    match ParseCanonicalInt(s)
    case Some(n) => IntKey(n)
    case None => StrKey(s)
  }

  /** The key `$a[$v]` looks up; None where PHP rejects the offset. */
  function KeyOf(v: Value): (r: Option<ArrayKey>)
    ensures r.None? <==> v.Arr? || v.Obj?
    ensures v.Int? ==> r == Some(IntKey(v.i))
    ensures v.Str? && r.Some? && r.value.IntKey? ==> Decimal(r.value.n) == v.s
    ensures v.Str? && r.Some? && r.value.StrKey? ==> r.value.s == v.s
  {
    match v
    case Null => Some(StrKey(""))
    case Bool(b) => Some(IntKey(if b then 1 else 0))
    case Int(i) => Some(IntKey(i))
    case Str(s) =>
      if ParseCanonicalInt(s).Some? then
        DecimalParse(s, ParseCanonicalInt(s).value);
        Some(KeyOfString(s))
      else Some(KeyOfString(s))
    case _ => None
  }

  /** An integer and a string address the same array slot exactly when the
      string is the integer's decimal form. */
  lemma IntAndStringKeysAgree(i: int, s: string)
    ensures KeyOf(Int(i)) == KeyOf(Str(s)) <==> s == Decimal(i)
  {
    DecimalRoundTrip(i, s);
  }

  // ---------------------------------------------------------------------------
  // explode / implode on a one-character delimiter

  /** Index of the first occurrence of `c` in `s`. */
  function FirstIndex(s: string, c: char): (i: nat)
    requires c in s
    ensures i < |s| && s[i] == c && c !in s[..i]
  {
    if s[0] == c then 0
    else
      var j := FirstIndex(s[1..], c);
      assert s[..j + 1] == [s[0]] + s[1..][..j];
      j + 1
  }

  /** `explode($c, $s)`. */
  function Split(s: string, c: char): (parts: seq<string>)
    ensures |parts| >= 1
    ensures forall k | 0 <= k < |parts| :: c !in parts[k]
    decreases |s|
  {
    if c !in s then [s]
    else
      var i := FirstIndex(s, c);
      [s[..i]] + Split(s[i + 1..], c)
  }

  /** Every character of a part of explode comes from the exploded string. */
  lemma {:induction false} SplitPartsWithin(s: string, c: char)
    ensures forall k, x | 0 <= k < |Split(s, c)| && x in Split(s, c)[k] :: x in s
    decreases |s|
  {
    if c in s {
      var i := FirstIndex(s, c);
      var rest := Split(s[i + 1..], c);
      SplitPartsWithin(s[i + 1..], c);
      assert Split(s, c) == [s[..i]] + rest;
      forall k, x | 0 <= k < |Split(s, c)| && x in Split(s, c)[k]
        ensures x in s
      {
        if k == 0 {
          assert x in s[..i];
        } else {
          assert x in rest[k - 1];
          assert x in s[i + 1..];
        }
      }
    }
  }

  /** `implode($c, $parts)`. */
  function Join(parts: seq<string>, c: char): string {
    if parts == [] then ""
    else if |parts| == 1 then parts[0]
    else parts[0] + [c] + Join(parts[1..], c)
  }

  /** explode followed by implode gives back the string. */
  lemma {:induction false} JoinSplit(s: string, c: char)
    ensures Join(Split(s, c), c) == s
    decreases |s|
  {
    if c in s {
      var i := FirstIndex(s, c);
      var rest := Split(s[i + 1..], c);
      var parts := [s[..i]] + rest;
      assert Split(s, c) == parts;
      assert parts[0] == s[..i] && parts[1..] == rest && |parts| >= 2;
      assert Join(parts, c) == s[..i] + [c] + Join(rest, c);
      JoinSplit(s[i + 1..], c);
      assert s == s[..i] + [c] + s[i + 1..];
    }
  }

  /** The head of explode is the text before the first delimiter and the
      remaining parts, re-joined, are exactly the text after it. */
  lemma SplitHead(s: string, c: char)
    requires c in s
    ensures |Split(s, c)| >= 2
    ensures Split(s, c)[0] == s[..FirstIndex(s, c)]
    ensures Join(Split(s, c)[1..], c) == s[FirstIndex(s, c) + 1..]
  {
    var i := FirstIndex(s, c);
    var rest := Split(s[i + 1..], c);
    assert Split(s, c) == [s[..i]] + rest;
    assert ([s[..i]] + rest)[1..] == rest;
    JoinSplit(s[i + 1..], c);
  }

  // ---------------------------------------------------------------------------
  // Substring search

  /** `p` occurs in `s` starting at position `i`. */
  predicate OccursAt(s: string, p: string, i: int) {
    0 <= i && i + |p| <= |s| && s[i..i + |p|] == p
  }

  /** Dropping the first character moves every occurrence one place left. */
  lemma OccursShift(s: string, p: string)
    requires |s| > 0
    ensures forall j | 1 <= j :: OccursAt(s, p, j) <==> OccursAt(s[1..], p, j - 1)
  {
    forall j | 1 <= j
      ensures OccursAt(s, p, j) <==> OccursAt(s[1..], p, j - 1)
    {
      if j + |p| <= |s| {
        var here, there := s[j..j + |p|], s[1..][j - 1..j - 1 + |p|];
        forall k | 0 <= k < |p|
          ensures here[k] == there[k]
        {
        }
        assert here == there;
      }
    }
  }

  /** Dropping the last character keeps exactly the occurrences that end before it. */
  lemma OccursTrim(s: string, p: string)
    requires |s| > 0
    ensures forall j | 0 <= j :: OccursAt(s[..|s| - 1], p, j) <==> OccursAt(s, p, j) && j + |p| < |s|
  {
    forall j | 0 <= j
      ensures OccursAt(s[..|s| - 1], p, j) <==> OccursAt(s, p, j) && j + |p| < |s|
    {
      if j + |p| < |s| {
        assert s[j..j + |p|] == s[..|s| - 1][j..j + |p|];
      }
    }
  }

  /** `strpos($s, $p)`: the first position where `p` occurs, None when it
      occurs nowhere. */
  function StrPos(s: string, p: string): (r: Option<nat>)
    ensures r.Some? ==> r.value + |p| <= |s| && OccursAt(s, p, r.value)
    ensures r.Some? ==> forall j | 0 <= j < r.value :: !OccursAt(s, p, j)
    ensures r.None? <==> forall j | 0 <= j :: !OccursAt(s, p, j)
    decreases |s|
  {
    if |s| < |p| then None
    else if s[..|p|] == p then Some(0)
    else
      OccursShift(s, p);
      match StrPos(s[1..], p)
      case None => None
      case Some(k) => Some(k + 1)
  }

  /** `strrpos($s, $p)`: the last position where `p` occurs, None when it
      occurs nowhere. */
  function StrRPos(s: string, p: string): (r: Option<nat>)
    ensures r.Some? ==> r.value + |p| <= |s| && OccursAt(s, p, r.value)
    ensures r.Some? ==> forall j | r.value < j :: !OccursAt(s, p, j)
    ensures r.None? <==> forall j | 0 <= j :: !OccursAt(s, p, j)
    decreases |s|
  {
    if |s| < |p| then None
    else if s[|s| - |p|..] == p then
      assert OccursAt(s, p, |s| - |p|) by { assert s[|s| - |p|..|s| - |p| + |p|] == s[|s| - |p|..]; }
      Some(|s| - |p|)
    else
      OccursTrim(s, p);
      StrRPos(s[..|s| - 1], p)
  }

  predicate EndsWith(s: string, p: string) {
    |p| <= |s| && s[|s| - |p|..] == p
  }

  /** The last occurrence of `p` starts at `|s| - |p|` exactly when `s` ends with `p`. */
  lemma LastOccurrenceIsSuffix(s: string, p: string)
    ensures StrRPos(s, p) == Some(|s| - |p|) <==> EndsWith(s, p)
  {
  }

  /** `str_replace($p, '', $s)`: the first occurrence of `p` removed, then
      the search goes on after it, so every non-overlapping occurrence found
      left to right is removed. */
  function RemoveAll(s: string, p: string): (r: string)
    requires |p| > 0
    ensures r == s <==> StrPos(s, p).None?
    ensures StrPos(s, p).Some? ==> |r| <= |s| - |p|
    decreases |s|
  {
    match StrPos(s, p)
    case None => s
    case Some(k) => s[..k] + RemoveAll(s[k + |p|..], p)
  }

  /** When the only occurrence of `p` is a suffix, removing all of them strips that suffix. */
  lemma StripSoleSuffix(s: string, p: string)
    requires |p| > 0 && |p| <= |s| && StrPos(s, p) == Some(|s| - |p|)
    ensures RemoveAll(s, p) == s[..|s| - |p|]
  {
    assert s[|s|..] == [];
    assert StrPos([], p) == None;
  }
}
