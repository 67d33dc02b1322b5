/**
 * The small part of PHP's value model and standard library that the
 * LINE Pay client relies on: values as produced by `json_decode($text, true)`
 * or by a framework's query-string parsing, string-keyed arrays with their
 * insertion order, `array_merge`, the `(string)` cast of scalars,
 * `str_starts_with` and `str_contains`.
 */
module Php {

  datatype Option<+T> = None | Some(value: T)

  /** A value or the exception the PHP code would have thrown instead. */
  datatype Result<+T, +E> = Ok(value: T) | Err(error: E)

  /**
   * An array key: an int or a string. PHP also turns a decimal-integer
   * string key such as "0" into the int key 0; this type does not enforce
   * that, so StrKey("0") is a key of its own here.
   */
  datatype ArrayKey = IntKey(i: int) | StrKey(s: string)

  /**
   * A PHP value. An array is a map from keys to values; a JSON list decodes
   * to an array with the keys 0, 1, 2, ...
   */
  datatype PhpValue =
    | Null
    | Bool(b: bool)
    | Int(i: int)
    | Str(s: string)
    | Arr(entries: map<ArrayKey, PhpValue>)

  type PhpArray = map<ArrayKey, PhpValue>

  /** `$a[$k] ?? null` */
  function Get(a: PhpArray, k: ArrayKey): (v: PhpValue)
    ensures k !in a ==> v == Null
    ensures k in a ==> v == a[k]
  {
    if k in a then a[k] else Null
  }

  /** `is_scalar`: bool, int and string (floats are not modelled). */
  predicate IsScalar(v: PhpValue) {
    v.Bool? || v.Int? || v.Str?
  }

  // ---------------------------------------------------------------------
  // Decimal notation of integers: PHP's `(string)` cast and "{$n}"
  // ---------------------------------------------------------------------

  predicate IsAsciiDigit(c: char) {
    '0' <= c <= '9'
  }

  predicate AllDigits(s: string) {
    forall i :: 0 <= i < |s| ==> IsAsciiDigit(s[i])
  }

  function DigitChar(d: nat): (c: char)
    requires d < 10
    ensures IsAsciiDigit(c) && DigitValue(c) == d
  {
    (48 + d) as char
  }

  function DigitValue(c: char): nat
    requires IsAsciiDigit(c)
  {
    c as nat - 48
  }

  /** Decimal digits of `n`, most significant first, without leading zeros. */
  function NatToString(n: nat): (s: string)
    ensures |s| >= 1 && AllDigits(s)
    ensures s[0] == '0' <==> n == 0
    ensures n == 0 ==> s == "0"
    decreases n
  {
    if n < 10 then [DigitChar(n)] else NatToString(n / 10) + [DigitChar(n % 10)]
  }

  /** The value of a string of decimal digits. */
  function ParseNat(s: string): nat
    requires AllDigits(s)
  {
    if s == [] then 0 else ParseNat(s[..|s| - 1]) * 10 + DigitValue(s[|s| - 1])
  }

  lemma {:induction false} ParseNatToString(n: nat)
    ensures ParseNat(NatToString(n)) == n
    decreases n
  {
    var s := NatToString(n);
    if n >= 10 {
      ParseNatToString(n / 10);
      assert s[..|s| - 1] == NatToString(n / 10);
    }
  }

  /**
   * PHP's `(string) $n` for an int: a minus sign for negative numbers, and
   * no leading zero except in "0" itself (so never "-0").
   */
  function IntToString(n: int): (s: string)
    ensures |s| >= 1
    ensures n < 0 <==> s[0] == '-'
    ensures n >= 0 ==> AllDigits(s)
    ensures n < 0 ==> |s| >= 2 && AllDigits(s[1..]) && s[1] != '0'
    ensures s[0] == '0' ==> s == "0"
  {
    if n < 0 then "-" + NatToString(-n) else NatToString(n)
  }

  /** Reads back a string produced by IntToString. */
  function ParseInt(s: string): Option<int> {
    if |s| >= 1 && s[0] == '-' && AllDigits(s[1..]) then Some(0 - ParseNat(s[1..]))
    else if AllDigits(s) then Some(ParseNat(s))
    else None
  }

  lemma IntToStringRoundTrip(n: int)
    ensures ParseInt(IntToString(n)) == Some(n)
  {
    if n < 0 {
      ParseNatToString(-n);
      assert IntToString(n)[1..] == NatToString(-n);
    } else {
      ParseNatToString(n);
    }
  }

  /** PHP's `(string)` cast of a scalar. */
  function ScalarToString(v: PhpValue): (s: string)
    requires IsScalar(v)
    ensures v.Str? ==> s == v.s
    ensures v.Bool? ==> (s == "1" <==> v.b) && (s == "" <==> !v.b)
    ensures v.Int? ==> s == IntToString(v.i) && ParseInt(s) == Some(v.i)
  {
    if v.Str? then v.s
    else if v.Bool? then (if v.b then "1" else "")
    else IntToStringRoundTrip(v.i); IntToString(v.i)
  }

  // ---------------------------------------------------------------------
  // String predicates
  // ---------------------------------------------------------------------

  /** `str_starts_with($s, $prefix)` */
  predicate StartsWith(s: string, prefix: string) {
    |prefix| <= |s| && s[..|prefix|] == prefix
  }

  /** `str_contains($s, $needle)`: some suffix of `s` starts with `needle`. */
  predicate Contains(s: string, needle: string)
    decreases |s|
  {
    StartsWith(s, needle) || (|s| > 0 && Contains(s[1..], needle))
  }

  lemma {:induction false} ContainsAt(s: string, needle: string, i: nat)
    requires i + |needle| <= |s| && s[i..i + |needle|] == needle
    ensures Contains(s, needle)
    decreases i
  {
    if i > 0 {
      assert s[1..][i - 1..i - 1 + |needle|] == needle;
      ContainsAt(s[1..], needle, i - 1);
    }
  }

  lemma {:induction false} ContainsWitness(s: string, needle: string) returns (i: nat)
    requires Contains(s, needle)
    ensures i + |needle| <= |s| && s[i..i + |needle|] == needle
    decreases |s|
  {
    if StartsWith(s, needle) {
      i := 0;
    } else {
      var j := ContainsWitness(s[1..], needle);
      i := j + 1;
      assert s[i..i + |needle|] == s[1..][j..j + |needle|];
    }
  }

  // ---------------------------------------------------------------------
  // String-keyed PHP arrays with insertion order (headers, query parameters)
  // ---------------------------------------------------------------------

  /** An ordered array from string keys to string values. */
  type Assoc = seq<(string, string)>

  /**
   * `$a[$k]`: the value stored under `k`. A PHP array never holds a key
   * twice; should a sequence do so, its first entry is the one read.
   */
  function Lookup(a: Assoc, k: string): Option<string>
    decreases |a|
  {
    if a == [] then None
    else if a[0].0 == k then Some(a[0].1)
    else Lookup(a[1..], k)
  }

  predicate HasKey(a: Assoc, k: string) {
    Lookup(a, k).Some?
  }

  lemma {:induction false} LookupConcat(x: Assoc, y: Assoc, k: string)
    ensures Lookup(x + y, k) == if HasKey(x, k) then Lookup(x, k) else Lookup(y, k)
    decreases |x|
  {
    if x != [] {
      assert (x + y)[1..] == x[1..] + y;
      LookupConcat(x[1..], y, k);
    } else {
      assert x + y == y;
    }
  }

  /** No key occurs twice, as in every PHP array. */
  predicate NoDuplicateKeys(a: Assoc) {
    forall i, j :: 0 <= i < j < |a| ==> a[i].0 != a[j].0
  }

  /** A key stored at some position can be looked up. */
  lemma {:induction false} HasKeyAt(a: Assoc, i: nat)
    requires i < |a|
    ensures HasKey(a, a[i].0)
    decreases i
  {
    if i > 0 && a[0].0 != a[i].0 {
      assert a[1..][i - 1] == a[i];
      HasKeyAt(a[1..], i - 1);
    }
  }

  /** The entries of `a` in order, each value replaced by `b`'s when `b` has that key. */
  function Overwritten(a: Assoc, b: Assoc): (r: Assoc)
    ensures |r| == |a|
    ensures forall i :: 0 <= i < |a| ==> r[i].0 == a[i].0
    ensures forall i :: 0 <= i < |a| ==>
      r[i].1 == if HasKey(b, a[i].0) then Lookup(b, a[i].0).value else a[i].1
    ensures forall k :: Lookup(r, k) == if HasKey(a, k) && HasKey(b, k) then Lookup(b, k) else Lookup(a, k)
    decreases |a|
  {
    if a == [] then []
    else
      var k := a[0].0;
      var v := if HasKey(b, k) then Lookup(b, k).value else a[0].1;
      [(k, v)] + Overwritten(a[1..], b)
  }

  /**
   * The entries of `b`, in order, whose keys `a` does not have: every entry
   * it holds is such an entry of `b`, and it distributes over the
   * concatenation of its first argument (AppendedConcat).
   */
  function Appended(b: Assoc, a: Assoc): (r: Assoc)
    ensures |r| <= |b|
    ensures forall e :: e in r <==> e in b && !HasKey(a, e.0)
    ensures forall k :: Lookup(r, k) == if HasKey(a, k) then None else Lookup(b, k)
    decreases |b|
  {
    if b == [] then []
    else if HasKey(a, b[0].0) then Appended(b[1..], a)
    else [b[0]] + Appended(b[1..], a)
  }

  /** Filtering a concatenation filters each part, so the order of `b` is kept. */
  lemma {:induction false} AppendedConcat(b1: Assoc, b2: Assoc, a: Assoc)
    ensures Appended(b1 + b2, a) == Appended(b1, a) + Appended(b2, a)
    decreases |b1|
  {
    if b1 == [] {
      assert b1 + b2 == b2;
    } else {
      assert (b1 + b2)[1..] == b1[1..] + b2;
      AppendedConcat(b1[1..], b2, a);
    }
  }

  /** A single entry is kept exactly when `a` lacks its key. */
  lemma AppendedSingle(e: (string, string), a: Assoc)
    ensures Appended([e], a) == if HasKey(a, e.0) then [] else [e]
  {
    assert [e][1..] == [];
  }

  /** An entry whose key no later entry has, put in front, repeats no key. */
  lemma ConsNoDuplicates(e: (string, string), rest: Assoc)
    requires NoDuplicateKeys(rest)
    requires forall k :: 0 <= k < |rest| ==> rest[k].0 != e.0
    ensures NoDuplicateKeys([e] + rest)
  {
    var r := [e] + rest;
    forall i, j | 0 <= i < j < |r| ensures r[i].0 != r[j].0 {
      assert r[j] == rest[j - 1];
      if i > 0 {
        assert r[i] == rest[i - 1];
      }
    }
  }

  /** Keeping some entries of a sequence without repeated keys repeats no key. */
  lemma {:induction false} AppendedNoDuplicates(b: Assoc, a: Assoc)
    requires NoDuplicateKeys(b)
    ensures NoDuplicateKeys(Appended(b, a))
    decreases |b|
  {
    if b != [] {
      var tail := b[1..];
      assert NoDuplicateKeys(tail) by {
        forall i, j | 0 <= i < j < |tail| ensures tail[i].0 != tail[j].0 {
          assert tail[i] == b[i + 1] && tail[j] == b[j + 1];
        }
      }
      AppendedNoDuplicates(tail, a);
      var rest := Appended(tail, a);
      if !HasKey(a, b[0].0) {
        forall k | 0 <= k < |rest| ensures rest[k].0 != b[0].0 {
          assert rest[k] in tail;
          var j :| 0 <= j < |tail| && tail[j] == rest[k];
          assert b[j + 1] == rest[k];
        }
        ConsNoDuplicates(b[0], rest);
      }
    }
  }

  /**
   * `array_merge($a, $b)` for string keys: `a`'s entries keep their
   * positions, each taking `b`'s value when `b` has its key; after them come
   * `b`'s entries whose keys `a` lacks, in `b`'s order. A key is in the
   * result iff it is in either array, `b`'s value wins, and no key is
   * repeated when neither array repeats one.
   */
  function ArrayMerge(a: Assoc, b: Assoc): (r: Assoc)
    ensures |a| <= |r|
    ensures forall i :: 0 <= i < |a| ==> r[i].0 == a[i].0
    ensures forall i :: 0 <= i < |a| ==>
      r[i].1 == if HasKey(b, a[i].0) then Lookup(b, a[i].0).value else a[i].1
    ensures r[|a|..] == Appended(b, a)
    ensures forall k :: HasKey(r, k) <==> HasKey(a, k) || HasKey(b, k)
    ensures forall k :: Lookup(r, k) == if HasKey(b, k) then Lookup(b, k) else Lookup(a, k)
    ensures NoDuplicateKeys(a) && NoDuplicateKeys(b) ==> NoDuplicateKeys(r)
  {
    var o, p := Overwritten(a, b), Appended(b, a);
    forall k ensures Lookup(o + p, k) == if HasKey(b, k) then Lookup(b, k) else Lookup(a, k) {
      LookupConcat(o, p, k);
    }
    assert (o + p)[|a|..] == p;
    MergeNoDuplicates(a, b);
    o + p
  }

  /** The keys of the overwritten part and of the appended part are distinct and not repeated. */
  lemma MergeNoDuplicates(a: Assoc, b: Assoc)
    ensures NoDuplicateKeys(a) && NoDuplicateKeys(b) ==> NoDuplicateKeys(Overwritten(a, b) + Appended(b, a))
  {
    if !(NoDuplicateKeys(a) && NoDuplicateKeys(b)) {
      return;
    }
    var o, p := Overwritten(a, b), Appended(b, a);
    AppendedNoDuplicates(b, a);
    var r := o + p;
    forall i, j | 0 <= i < j < |r| ensures r[i].0 != r[j].0 {
      if j >= |o| && i < |o| {
        HasKeyAt(a, i);
        assert r[j] == p[j - |o|];
        assert r[j] in p;
      } else if j >= |o| {
        assert r[i] == p[i - |o|] && r[j] == p[j - |o|];
      }
    }
  }
}
