/** The handful of Python string operations the core relies on:
    str.split with a one-character separator, str.join, str.strip,
    str.upper / str.lower, str.replace of one character and the [:n] slice. */
module Text {

  /** Python str.split(sep): never empty, empty fields are kept. */
  function Split(s: string, sep: char): (parts: seq<string>)
    ensures |parts| >= 1
    decreases |s|
  {
    if s == [] then [""]
    else
      var rest := Split(s[1..], sep);
      if s[0] == sep then [""] + rest
      else [[s[0]] + rest[0]] + rest[1..]
  }

  /** Python sep.join(parts). */
  function Join(parts: seq<string>, sep: char): string
    decreases |parts|
  {
    if |parts| == 0 then ""
    else if |parts| == 1 then parts[0]
    else parts[0] + [sep] + Join(parts[1..], sep)
  }

  /** A character in none of the fields, other than the separator, is not in their join. */
  lemma {:induction false} JoinPlain(parts: seq<string>, sep: char, c: char)
    requires c != sep
    requires forall i :: 0 <= i < |parts| ==> c !in parts[i]
    ensures c !in Join(parts, sep)
    decreases |parts|
  {
    if |parts| > 1 {
      JoinPlain(parts[1..], sep, c);
      assert c !in parts[0] + [sep];
    }
  }

  /** Joining one more field appends the separator and that field. */
  lemma {:induction false} JoinSnoc(parts: seq<string>, x: string, sep: char)
    ensures Join(parts + [x], sep) == if parts == [] then x else Join(parts, sep) + [sep] + x
    decreases |parts|
  {
    if |parts| == 1 {
      assert parts + [x] == [parts[0], x];
      assert [parts[0], x][1..] == [x];
    } else if |parts| > 1 {
      assert (parts + [x])[1..] == parts[1..] + [x];
      JoinSnoc(parts[1..], x, sep);
    }
  }

  /** Joining the fields of a split gives back the original string. */
  lemma {:induction false} JoinSplit(s: string, sep: char)
    ensures Join(Split(s, sep), sep) == s
    decreases |s|
  {
    if s != [] {
      JoinSplit(s[1..], sep);
      var rest := Split(s[1..], sep);
      if s[0] == sep {
        assert ([""] + rest)[1..] == rest;
      } else {
        var parts := [[s[0]] + rest[0]] + rest[1..];
        if |rest| == 1 {
          assert parts == [[s[0]] + rest[0]];
        } else {
          assert parts[1..] == rest[1..];
          assert Join(rest, sep) == rest[0] + [sep] + Join(rest[1..], sep);
        }
      }
    }
  }

  /** A string without the separator splits into itself alone. */
  lemma {:induction false} SplitNoSeparator(s: string, sep: char)
    requires sep !in s
    ensures Split(s, sep) == [s]
    decreases |s|
  {
    if s != [] {
      assert sep !in s[1..] && s[0] != sep;
      SplitNoSeparator(s[1..], sep);
      assert [s[0]] + s[1..] == s;
    }
  }

  /** Splitting a ++ [sep] ++ b, where a holds no separator, yields a, then the fields of b. */
  lemma {:induction false} SplitAtSeparator(a: string, b: string, sep: char)
    requires sep !in a
    ensures Split(a + [sep] + b, sep) == [a] + Split(b, sep)
    decreases |a|
  {
    if a == [] {
      assert a + [sep] + b == [sep] + b;
      assert ([sep] + b)[1..] == b;
    } else {
      var s := a + [sep] + b;
      assert s[0] == a[0] && a[0] != sep;
      assert s[1..] == a[1..] + [sep] + b;
      SplitAtSeparator(a[1..], b, sep);
      assert [a[0]] + a[1..] == a;
    }
  }

  /** Splitting a join of separator-free fields gives back the fields. */
  lemma {:induction false} SplitJoin(parts: seq<string>, sep: char)
    requires |parts| >= 1
    requires forall i :: 0 <= i < |parts| ==> sep !in parts[i]
    ensures Split(Join(parts, sep), sep) == parts
    decreases |parts|
  {
    if |parts| == 1 {
      SplitNoSeparator(parts[0], sep);
    } else {
      SplitJoin(parts[1..], sep);
      SplitAtSeparator(parts[0], Join(parts[1..], sep), sep);
      assert [parts[0]] + parts[1..] == parts;
    }
  }

  /** The first field of a split is the text before the first separator. */
  lemma {:induction false} FirstField(s: string, sep: char)
    ensures var f := Split(s, sep)[0];
      && |f| <= |s| && f == s[..|f|] && sep !in f
      && (|f| == |s| || s[|f|] == sep)
    decreases |s|
  {
    if s != [] && s[0] != sep {
      FirstField(s[1..], sep);
      var g := Split(s[1..], sep)[0];
      var f := Split(s, sep)[0];
      assert f == [s[0]] + g;
      assert s[..|f|] == [s[0]] + s[1..][..|g|];
      if |f| < |s| {
        assert s[|f|] == s[1..][|g|];
      }
    }
  }

  /** No field of a split holds the separator. */
  lemma {:induction false} SplitFields(s: string, sep: char)
    ensures forall i :: 0 <= i < |Split(s, sep)| ==> sep !in Split(s, sep)[i]
    decreases |s|
  {
    if s != [] {
      SplitFields(s[1..], sep);
      var rest := Split(s[1..], sep);
      if s[0] != sep {
        assert forall i :: 1 <= i < |Split(s, sep)| ==> Split(s, sep)[i] == rest[i];
      } else {
        assert forall i :: 1 <= i < |Split(s, sep)| ==> Split(s, sep)[i] == rest[i - 1];
      }
    }
  }

  /** Python's str.isspace for one character: the ASCII controls 9-13 and
      28-31, the space, and the Unicode separators Python also strips. */
  predicate IsSpace(c: char)
  {
    var n := c as int;
    n == 32 || 9 <= n <= 13 || 28 <= n <= 31 || n == 0x85 || n == 0xA0 || n == 0x1680
    || 0x2000 <= n <= 0x200A || n == 0x2028 || n == 0x2029 || n == 0x202F || n == 0x205F
    || n == 0x3000
  }

  function TrimLeft(s: string): (r: string)
    ensures r == [] || !IsSpace(r[0])
    ensures |r| <= |s| && r == s[|s| - |r|..]
    decreases |s|
  {
    if s != [] && IsSpace(s[0]) then TrimLeft(s[1..]) else s
  }

  function TrimRight(s: string): (r: string)
    ensures r == [] || !IsSpace(r[|r| - 1])
    ensures |r| <= |s| && r == s[..|r|]
    decreases |s|
  {
    if s != [] && IsSpace(s[|s| - 1]) then TrimRight(s[..|s| - 1]) else s
  }

  /** Python str.strip(): whitespace removed at both ends. */
  function Strip(s: string): (r: string)
    ensures r == [] || (!IsSpace(r[0]) && !IsSpace(r[|r| - 1]))
  {
    var l := TrimLeft(s);
    var r := TrimRight(l);
    assert r != [] ==> r[0] == l[0];
    r
  }

  /** A string that neither starts nor ends with whitespace is its own strip. */
  lemma StripUnpadded(s: string)
    requires s == [] || (!IsSpace(s[0]) && !IsSpace(s[|s| - 1]))
    ensures Strip(s) == s
  {
  }

  function UpperChar(c: char): char
  {
    if 'a' <= c <= 'z' then (c as int - 32) as char else c
  }

  function LowerChar(c: char): char
  {
    if 'A' <= c <= 'Z' then (c as int + 32) as char else c
  }

  /** Python str.upper on the ASCII letters. */
  function Upper(s: string): (r: string)
    ensures |r| == |s|
  {
    seq(|s|, i requires 0 <= i < |s| => UpperChar(s[i]))
  }

  /** Python str.lower on the ASCII letters. */
  function Lower(s: string): (r: string)
    ensures |r| == |s|
  {
    seq(|s|, i requires 0 <= i < |s| => LowerChar(s[i]))
  }

  predicate IsAsciiLetter(c: char)
  {
    'a' <= c <= 'z' || 'A' <= c <= 'Z'
  }

  /** An upper-cased and a lower-cased string only agree when neither holds a letter. */
  lemma UpperNeverLower(x: string, y: string)
    requires Upper(x) == Lower(y)
    ensures forall i :: 0 <= i < |x| ==> !IsAsciiLetter(x[i])
  {
    forall i | 0 <= i < |x|
      ensures !IsAsciiLetter(x[i])
    {
      assert Upper(x)[i] == Lower(y)[i];
    }
  }

  /** Python s.replace(a, b) for single characters. */
  function ReplaceChar(s: string, a: char, b: char): (r: string)
    ensures |r| == |s|
    ensures forall i :: 0 <= i < |s| ==> r[i] == (if s[i] == a then b else s[i])
  {
    seq(|s|, i requires 0 <= i < |s| => if s[i] == a then b else s[i])
  }

  /** Python s.replace(c, ''): every occurrence of c deleted, order kept. */
  function RemoveChar(s: string, c: char): (r: string)
    ensures c !in r
    ensures |r| <= |s|
    ensures c !in s ==> r == s
  {
    if s == [] then [] else (if s[0] == c then [] else [s[0]]) + RemoveChar(s[1..], c)
  }

  /** Python s[:n] for n >= 0: the first n characters, or all of s when shorter. */
  function Take(s: string, n: nat): (r: string)
    ensures |r| == if |s| < n then |s| else n
    ensures r == s[..|r|]
  {
    if |s| < n then s else s[..n]
  }

  /** Python s.startswith(p). */
  predicate StartsWith(s: string, p: string)
  {
    |p| <= |s| && s[..|p|] == p
  }

  /** Python s.endswith(p). */
  predicate EndsWith(s: string, p: string)
  {
    |p| <= |s| && s[|s| - |p|..] == p
  }

  // ---------------------------------------------------------------------
  // configparser's BasicInterpolation, on a value being set
  // ---------------------------------------------------------------------

  /** The index of the first c in s, or |s| when there is none. */
  function IndexOf(s: string, c: char): (k: nat)
    ensures k <= |s|
    ensures k < |s| ==> s[k] == c
    ensures forall j :: 0 <= j < k ==> s[j] != c
  {
    if s == [] || s[0] == c then 0 else 1 + IndexOf(s[1..], c)
  }

  /** Python s.replace('%%', ''): the escaped percent signs deleted, left to right. */
  function DropEscapes(s: string): (r: string)
    ensures |r| <= |s|
  {
    if |s| < 2 then s
    else if s[0] == '%' && s[1] == '%' then DropEscapes(s[2..])
    else [s[0]] + DropEscapes(s[1..])
  }

  /** The length of the reference "%(name)s" that s starts with, or 0 when
      it starts with none: "%(", at least one character up to the first
      ")", and then "s". */
  function ReferenceLength(s: string): (n: nat)
    ensures n > 0 ==> 4 <= n <= |s| && s[0] == '%' && s[1] == '(' && s[n - 2] == ')' && s[n - 1] == 's'
    ensures n > 0 ==> forall j :: 2 <= j < n - 2 ==> s[j] != ')'
  {
    if |s| < 2 || s[0] != '%' || s[1] != '(' then 0
    else
      var k := IndexOf(s[2..], ')');
      if 1 <= k && 3 + k < |s| && s[3 + k] == 's' then
        assert forall j :: 2 <= j < 2 + k ==> s[j] == s[2..][j - 2];
        4 + k
      else 0
  }

  /** Python re.sub(r'%\(([^)]+)\)s', '', s): the references deleted, leftmost first. */
  function DropReferences(s: string): (r: string)
    ensures |r| <= |s|
    decreases |s|
  {
    if s == [] then []
    else if ReferenceLength(s) > 0 then DropReferences(s[ReferenceLength(s)..])
    else [s[0]] + DropReferences(s[1..])
  }

  /** BasicInterpolation.before_set: once the escapes and then the
      references are deleted, no percent sign may be left; otherwise setting
      the value raises ValueError. */
  predicate InterpolationSafe(v: string)
  {
    PassesFrom(v, 2)
  }

  /** The passes of before_set still to run over v: with two left the
      escapes are deleted, with one the references, and with none left the
      rest is searched for a percent sign. */
  predicate PassesFrom(v: string, passes: nat)
    decreases passes
  {
    if passes == 0 then !HasPercent(v)
    else if passes == 1 then PassesFrom(DropReferences(v), 0)
    else PassesFrom(DropEscapes(v), 1)
  }

  /** The passes, run one after the other. */
  lemma InterpolationSafePasses(v: string)
    ensures InterpolationSafe(v) <==> !HasPercent(DropReferences(DropEscapes(v)))
  {
    assert PassesFrom(v, 2) == PassesFrom(DropEscapes(v), 1);
    assert PassesFrom(DropEscapes(v), 1) == PassesFrom(DropReferences(DropEscapes(v)), 0);
  }

  /** '%' in s, scanned from the front. */
  predicate HasPercent(s: string)
  {
    s != [] && (s[0] == '%' || HasPercent(s[1..]))
  }

  lemma {:induction false} HasPercentIn(s: string)
    ensures HasPercent(s) <==> '%' in s
  {
    if s != [] {
      HasPercentIn(s[1..]);
      assert s == [s[0]] + s[1..];
    }
  }

  /** A prefix without percent signs is kept as it is by the escape deletion. */
  lemma {:induction false} DropEscapesPrefix(a: string, b: string)
    requires '%' !in a
    ensures DropEscapes(a + b) == a + DropEscapes(b)
    decreases |a|
  {
    if a != [] {
      var s, t := a + b, a[1..] + b;
      assert s[0] == a[0] && s[1..] == t;
      DropEscapesKeeps(s);
      assert '%' !in a[1..] by {
        assert forall j :: 0 <= j < |a| - 1 ==> a[1..][j] == a[j + 1];
      }
      DropEscapesPrefix(a[1..], b);
      var rb := DropEscapes(b);
      assert DropEscapes(s) == [a[0]] + (a[1..] + rb);
      assert [a[0]] + a[1..] == a;
      assert [a[0]] + (a[1..] + rb) == ([a[0]] + a[1..]) + rb;
    } else {
      assert a + b == b;
    }
  }

  /** Without percent signs there is no escape to delete. */
  lemma DropEscapesPlain(s: string)
    requires '%' !in s
    ensures DropEscapes(s) == s
  {
    DropEscapesPrefix(s, []);
    assert s + [] == s;
  }

  /** A first character other than a percent sign is kept by the escape deletion, */
  lemma DropEscapesKeeps(s: string)
    requires s != [] && s[0] != '%'
    ensures DropEscapes(s) == [s[0]] + DropEscapes(s[1..])
  {
    if |s| < 2 {
      assert s[1..] == [];
    }
  }

  /** and by the reference deletion. */
  lemma DropReferencesKeeps(s: string)
    requires s != [] && s[0] != '%'
    ensures DropReferences(s) == [s[0]] + DropReferences(s[1..])
  {
    assert ReferenceLength(s) == 0;
  }

  /** A percent sign with none before it, and no "(" after it, is never
      deleted as part of a reference. */
  lemma {:induction false} PercentKept(s: string, i: nat)
    requires i < |s| && s[i] == '%' && (i + 1 == |s| || s[i + 1] != '(')
    requires forall j :: 0 <= j < i ==> s[j] != '%'
    ensures '%' in DropReferences(s)
    decreases i
  {
    if i == 0 {
      assert ReferenceLength(s) == 0;
      assert DropReferences(s)[0] == '%';
    } else {
      DropReferencesKeeps(s);
      PercentKept(s[1..], i - 1);
      assert DropReferences(s)[1..] == DropReferences(s[1..]);
    }
  }

  /** Deleting the escapes leaves a single percent sign between two
      percent-free strings in place. */
  lemma DropEscapesLone(a: string, b: string)
    requires '%' !in a && '%' !in b
    ensures DropEscapes(a + "%" + b) == a + "%" + b
  {
    var rest := "%" + b;
    assert a + "%" + b == a + rest;
    DropEscapesPrefix(a, rest);
    DropEscapesPrefix(b, []);
    assert b + [] == b;
    if |rest| >= 2 {
      assert rest[1] == b[0] && rest[1..] == b;
    }
  }

  /** A single percent sign that neither doubles nor opens a reference
      makes a value unsafe, e.g. "pa%ss". */
  lemma LonePercentUnsafe(a: string, b: string)
    requires '%' !in a && '%' !in b
    requires b == [] || b[0] != '('
    ensures !InterpolationSafe(a + "%" + b)
  {
    var v := a + "%" + b;
    DropEscapesLone(a, b);
    assert v[|a|] == '%';
    assert forall j :: 0 <= j < |a| ==> v[j] == a[j];
    assert |a| + 1 < |v| ==> v[|a| + 1] == b[0];
    PercentKept(v, |a|);
    HasPercentIn(DropReferences(v));
    InterpolationSafePasses(v);
  }

  /** str.replace('%', '%%'): every percent sign doubled. */
  function EscapePercent(s: string): (r: string)
    ensures |r| >= |s|
  {
    if s == [] then [] else (if s[0] == '%' then "%%" else [s[0]]) + EscapePercent(s[1..])
  }

  /** Doubling the percent signs is the escape before_set expects: the
      doubled signs are exactly what is deleted, and the value is then safe. */
  lemma {:induction false} EscapedIsSafe(s: string)
    ensures DropEscapes(EscapePercent(s)) == RemoveChar(s, '%')
    ensures InterpolationSafe(EscapePercent(s))
    decreases |s|
  {
    if s != [] {
      EscapedIsSafe(s[1..]);
      var e := EscapePercent(s[1..]);
      if s[0] == '%' {
        assert EscapePercent(s) == "%%" + e;
        assert ("%%" + e)[2..] == e;
      } else {
        assert EscapePercent(s) == [s[0]] + e;
        DropEscapesPrefix([s[0]], e);
      }
    }
    DropReferencesPlain(RemoveChar(s, '%'));
    HasPercentIn(RemoveChar(s, '%'));
    InterpolationSafePasses(EscapePercent(s));
  }

  /** Without percent signs there is no reference to delete. */
  lemma {:induction false} DropReferencesPlain(s: string)
    requires '%' !in s
    ensures DropReferences(s) == s
    decreases |s|
  {
    if s != [] {
      DropReferencesKeeps(s);
      DropReferencesPlain(s[1..]);
      assert [s[0]] + s[1..] == s;
    }
  }
}
