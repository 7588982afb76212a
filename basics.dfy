/** Small value types shared by every module: optional values, the Python
    exceptions the core can raise, and counting / sub-sequence helpers. */
module Basics {

  datatype Option<+T> = None | Some(value: T)

  /** The Python exceptions that a modelled operation can raise. */
  datatype Error =
    | KeyError         // dict / configparser section lookup of a missing key
    | IndexError       // list index out of range
    | ValueError       // int() or getboolean() of a malformed string
    | NoSectionError   // configparser.get on a missing section
    | NoOptionError    // configparser.get on a missing option
    | AttributeError   // a method called on None, or a module attribute that does not exist
    | FileNotFound     // open() of a missing file
    | CalledProcessError // subprocess.run(..., check=True) of a command that failed

  /** Either a value or the exception that was raised instead. */
  datatype Result<+T> = Ok(value: T) | Raised(error: Error)

  /** Python truthiness of an optional list: None and [] are both false. */
  predicate Truthy<T>(o: Option<seq<T>>)
  {
    o.Some? && |o.value| > 0
  }

  /** Python truthiness of an optional string. */
  predicate TruthyString(o: Option<string>)
  {
    o.Some? && o.value != ""
  }

  /** The number of occurrences of x in s (Python list.count). */
  function Count<T(==)>(s: seq<T>, x: T): (n: nat)
    ensures n <= |s|
    ensures n == 0 <==> x !in s
  {
    if s == [] then 0 else (if s[0] == x then 1 else 0) + Count(s[1..], x)
  }

  lemma CountAppend<T>(s: seq<T>, y: T, x: T)
    ensures Count(s + [y], x) == Count(s, x) + (if y == x then 1 else 0)
  {
    if s != [] {
      assert (s + [y])[1..] == s[1..] + [y];
      CountAppend(s[1..], y, x);
    }
  }

  /** a is obtained from b by deleting elements (order is preserved).
      Stated on the last elements, the way the modelled loops append. */
  predicate IsSubsequence<T(==)>(a: seq<T>, b: seq<T>)
    decreases |b|
  {
    if b == [] then a == []
    else if a != [] && a[|a| - 1] == b[|b| - 1] && IsSubsequence(a[..|a| - 1], b[..|b| - 1]) then true
    else IsSubsequence(a, b[..|b| - 1])
  }

  /** Appending the next element of b to a, or skipping it, keeps a a sub-sequence. */
  lemma SubsequenceStep<T>(a: seq<T>, b: seq<T>, x: T, keep: bool)
    requires IsSubsequence(a, b)
    ensures IsSubsequence(if keep then a + [x] else a, b + [x])
  {
    assert (b + [x])[..|b|] == b;
    if keep {
      assert (a + [x])[..|a|] == a;
    }
  }
}
