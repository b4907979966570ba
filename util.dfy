/** Small value types and string/sequence helpers shared by the model:
    Kotlin's nullable values, exceptions as results, string templates,
    and the list operations (`filter`, `joinToString`) the library uses. */
module Util {

  /** A nullable value: `None` stands for Kotlin/Java `null`. */
  datatype Option<+T> = None | Some(value: T)

  /** A call that either returns a value or throws an exception. */
  datatype Result<+R, +E> = Success(value: R) | Failure(error: E)

  /** The string a Kotlin template `"$s"` produces for a nullable string. */
  function OrNull(s: Option<string>): string
  {
    if s.Some? then s.value else "null"
  }

  /** Two nullable strings print alike exactly when they are equal or one
      is null and the other is the text "null". */
  lemma OrNullConflatesNull(a: Option<string>, b: Option<string>)
    ensures OrNull(a) == OrNull(b) <==> a == b || (a.None? && b == Some("null")) || (a == Some("null") && b.None?)
  {
  }

  /** Kotlin's `s ?: ""`. */
  function OrEmpty(s: Option<string>): string
  {
    if s.Some? then s.value else ""
  }

  /** `" ".repeat(n)`. */
  function Spaces(n: nat): (r: string)
    ensures |r| == n
    ensures forall i :: 0 <= i < n ==> r[i] == ' '
  {
    if n == 0 then "" else Spaces(n - 1) + " "
  }

  // ---------------------------------------------------------------------------
  // Decimal rendering of counts, as in "Found ${filtered.size} ..."

  predicate IsDigit(ch: char)
  {
    '0' <= ch <= '9'
  }

  function DigitChar(d: nat): (ch: char)
    requires d < 10
    ensures IsDigit(ch)
  {
    ['0', '1', '2', '3', '4', '5', '6', '7', '8', '9'][d]
  }

  function DigitValue(ch: char): nat
    requires IsDigit(ch)
  {
    (ch as int - '0' as int) as nat
  }

  /** The decimal form Kotlin gives a non-negative `Int`. */
  function NatToString(n: nat): (r: string)
    ensures |r| > 0
    ensures forall i :: 0 <= i < |r| ==> IsDigit(r[i])
  {
    if n < 10 then [DigitChar(n)] else NatToString(n / 10) + [DigitChar(n % 10)]
  }

  /** Reads a string of decimal digits back as a number. */
  function ParseDigits(s: string): nat
    requires forall i :: 0 <= i < |s| ==> IsDigit(s[i])
  {
    if s == [] then 0 else 10 * ParseDigits(s[..|s| - 1]) + DigitValue(s[|s| - 1])
  }

  lemma DigitRoundTrip(d: nat)
    requires d < 10
    ensures DigitValue(DigitChar(d)) == d
  {
  }

  /** Decimal rendering loses nothing: the count can be read back. */
  lemma {:induction false} NatToStringRoundTrip(n: nat)
    ensures ParseDigits(NatToString(n)) == n
  {
    var s := NatToString(n);
    if n < 10 {
      DigitRoundTrip(n);
      assert s[..|s| - 1] == [];
    } else {
      NatToStringRoundTrip(n / 10);
      DigitRoundTrip(n % 10);
      assert s[..|s| - 1] == NatToString(n / 10);
    }
  }

  lemma {:induction false} NatToStringInjective(a: nat, b: nat)
    requires NatToString(a) == NatToString(b)
    ensures a == b
  {
    NatToStringRoundTrip(a);
    NatToStringRoundTrip(b);
  }

  /** A digit string followed by a space determines its number: the count
      at the head of a message of the form "<n> <rest>" is unambiguous. */
  lemma NumberBeforeSpace(a: nat, b: nat, x: string, y: string)
    requires NatToString(a) + " " + x == NatToString(b) + " " + y
    ensures a == b && x == y
  {
    var sa, sb := NatToString(a), NatToString(b);
    var u, v := sa + " " + x, sb + " " + y;
    // the shorter digit string is followed by a space where the longer has a digit
    if |sa| < |sb| {
      CharAt(sb, y, |sa|);
      CharAt(sa, x, |sa|);
      assert false;
    } else if |sb| < |sa| {
      CharAt(sa, x, |sb|);
      CharAt(sb, y, |sb|);
      assert false;
    }
    assert sa == u[..|sa|] == v[..|sb|] == sb;
    NatToStringInjective(a, b);
    assert x == u[|sa| + 1..] == v[|sb| + 1..] == y;
  }

  lemma CharAt(s: string, t: string, k: nat)
    requires k <= |s|
    ensures (s + " " + t)[k] == if k < |s| then s[k] else ' '
  {
  }

  // ---------------------------------------------------------------------------
  // Case handling (ASCII letters)

  function ToLowerChar(ch: char): char
  {
    if 'A' <= ch <= 'Z' then (ch as int - 'A' as int + 'a' as int) as char else ch
  }

  function ToUpperChar(ch: char): char
  {
    if 'a' <= ch <= 'z' then (ch as int - 'a' as int + 'A' as int) as char else ch
  }

  /** Kotlin's `lowercase()` on the ASCII letters. */
  function Lower(s: string): (r: string)
    ensures |r| == |s|
    ensures forall i :: 0 <= i < |s| ==> r[i] == ToLowerChar(s[i])
  {
    if s == [] then [] else [ToLowerChar(s[0])] + Lower(s[1..])
  }

  /** Lower-casing twice is lower-casing once. */
  lemma LowerIdempotent(s: string)
    ensures Lower(Lower(s)) == Lower(s)
  {
    forall i | 0 <= i < |s|
      ensures Lower(Lower(s))[i] == Lower(s)[i]
    {
      assert Lower(s)[i] == ToLowerChar(s[i]);
    }
  }

  /** Two characters Kotlin's `equals(ignoreCase = true)` treats as equal. */
  predicate CharEqualsIgnoreCase(a: char, b: char)
  {
    a == b || ToUpperChar(a) == ToUpperChar(b) || ToLowerChar(a) == ToLowerChar(b)
  }

  /** Kotlin's `String.equals(other, ignoreCase = true)`. */
  predicate EqualsIgnoreCase(a: string, b: string)
  {
    |a| == |b| && forall i :: 0 <= i < |a| ==> CharEqualsIgnoreCase(a[i], b[i])
  }

  /** `equals(ignoreCase = true)` compares the lower-cased strings. */
  lemma EqualsIgnoreCaseIsLowerEquality(a: string, b: string)
    ensures EqualsIgnoreCase(a, b) <==> Lower(a) == Lower(b)
  {
  }

  /** Kotlin's `String.contains(other)`. */
  predicate Contains(s: string, sub: string)
  {
    exists i :: 0 <= i <= |s| - |sub| && OccursAt(s, sub, i)
  }

  predicate OccursAt(s: string, sub: string, i: int)
  {
    0 <= i && i + |sub| <= |s| && s[i..i + |sub|] == sub
  }

  lemma ContainsEmpty(s: string)
    ensures Contains(s, "")
  {
    assert OccursAt(s, "", 0);
  }

  // ---------------------------------------------------------------------------
  // Lists

  /** Kotlin's `List.filter`: keeps, in order, the elements satisfying `p`. */
  function Filter<T>(s: seq<T>, p: T -> bool): (r: seq<T>)
    ensures |r| <= |s|
    ensures forall i :: 0 <= i < |r| ==> r[i] in s && p(r[i])
    ensures forall i :: 0 <= i < |s| && p(s[i]) ==> s[i] in r
  {
    if s == [] then [] else (if p(s[0]) then [s[0]] else []) + Filter(s[1..], p)
  }

  /** `a` is `b` with some elements removed, the rest in their order. */
  predicate IsSubsequence<T(==)>(a: seq<T>, b: seq<T>)
    decreases |b|
  {
    if a == [] then true
    else if b == [] then false
    else if a[0] == b[0] then IsSubsequence(a[1..], b[1..])
    else IsSubsequence(a, b[1..])
  }

  lemma {:induction false} FilterIsSubsequence<T>(s: seq<T>, p: T -> bool)
    ensures IsSubsequence(Filter(s, p), s)
  {
    if s != [] {
      FilterIsSubsequence(s[1..], p);
      if p(s[0]) {
        assert Filter(s, p) == [s[0]] + Filter(s[1..], p);
        assert Filter(s, p)[1..] == Filter(s[1..], p);
      } else {
        assert Filter(s, p) == Filter(s[1..], p);
      }
    }
  }

  /** Filtering twice is filtering once by the conjunction. */
  lemma {:induction false} FilterFilter<T>(s: seq<T>, p: T -> bool, q: T -> bool, both: T -> bool)
    requires forall x :: both(x) == (p(x) && q(x))
    ensures Filter(Filter(s, p), q) == Filter(s, both)
  {
    if s != [] {
      FilterFilter(s[1..], p, q, both);
      if p(s[0]) {
        assert Filter(s, p) == [s[0]] + Filter(s[1..], p);
        assert Filter(Filter(s, p), q) == (if q(s[0]) then [s[0]] else []) + Filter(Filter(s[1..], p), q) by {
          assert Filter(s, p)[0] == s[0];
          assert Filter(s, p)[1..] == Filter(s[1..], p);
        }
      } else {
        assert Filter(s, p) == Filter(s[1..], p);
        assert !both(s[0]);
      }
    }
  }

  /** A chain of four filters is one filter by the conjunction. */
  lemma FilterChain<T>(s: seq<T>, p1: T -> bool, p2: T -> bool, p3: T -> bool, p4: T -> bool, all: T -> bool)
    requires forall x :: all(x) == (p1(x) && p2(x) && p3(x) && p4(x))
    ensures Filter(Filter(Filter(Filter(s, p1), p2), p3), p4) == Filter(s, all)
  {
    var p12 := (x: T) => p1(x) && p2(x);
    var p123 := (x: T) => p1(x) && p2(x) && p3(x);
    FilterFilter(s, p1, p2, p12);
    FilterFilter(s, p12, p3, p123);
    FilterFilter(s, p123, p4, all);
  }

  /** Filtering depends only on the values the predicate takes. */
  lemma {:induction false} FilterCongruent<T>(s: seq<T>, p: T -> bool, q: T -> bool)
    requires forall i :: 0 <= i < |s| ==> p(s[i]) == q(s[i])
    ensures Filter(s, p) == Filter(s, q)
  {
    if s != [] {
      FilterCongruent(s[1..], p, q);
    }
  }

  /** When one element survives, every element satisfying the predicate is
      that one; when none survives, no element satisfies it. */
  lemma FilterSingle<T>(s: seq<T>, p: T -> bool, i: nat)
    requires i < |s| && p(s[i])
    ensures |Filter(s, p)| > 0
    ensures |Filter(s, p)| == 1 ==> s[i] == Filter(s, p)[0]
  {
    assert s[i] in Filter(s, p);
  }

  /** A predicate every element satisfies filters nothing out. */
  lemma {:induction false} FilterKeepsAll<T>(s: seq<T>, p: T -> bool)
    requires forall i :: 0 <= i < |s| ==> p(s[i])
    ensures Filter(s, p) == s
  {
    if s != [] {
      FilterKeepsAll(s[1..], p);
    }
  }

  lemma {:induction false} FilterAppend<T>(a: seq<T>, b: seq<T>, p: T -> bool)
    ensures Filter(a + b, p) == Filter(a, p) + Filter(b, p)
  {
    if a == [] {
      assert a + b == b;
    } else {
      assert (a + b)[0] == a[0];
      assert (a + b)[1..] == a[1..] + b;
      FilterAppend(a[1..], b, p);
    }
  }

  /** Concatenation is associative (stated for the loops that build a
      result piece by piece). */
  lemma AppendAssociative<T>(a: seq<T>, b: seq<T>, c: seq<T>)
    ensures (a + b) + c == a + (b + c)
  {
  }

  /** A common suffix can be cancelled. */
  lemma AppendCancelRight<T>(a: seq<T>, b: seq<T>, t: seq<T>)
    requires a + t == b + t
    ensures a == b
  {
    assert |a| == |b|;
    assert a == (a + t)[..|a|];
    assert b == (b + t)[..|b|];
  }

  /** `joinToString(sep)`. */
  function JoinWith(parts: seq<string>, sep: string): string
  {
    if parts == [] then ""
    else if |parts| == 1 then parts[0]
    else JoinWith(parts[..|parts| - 1], sep) + sep + parts[|parts| - 1]
  }

  /** The reverse of a list. */
  function Reverse<T>(s: seq<T>): (r: seq<T>)
    ensures |r| == |s|
    ensures forall i :: 0 <= i < |s| ==> r[i] == s[|s| - 1 - i]
  {
    if s == [] then [] else Reverse(s[1..]) + [s[0]]
  }
}
