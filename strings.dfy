/** String helpers that stand for the JavaScript built-ins the core relies on:
    the default ordering of `Array.prototype.sort`, `split`/`join`, `trim`,
    `substring(0, n)` and the character-code sum used as a colour hash.
    A Dafny `char` is a Unicode scalar value, where a JavaScript string is a
    sequence of UTF-16 code units: the helpers agree with the built-ins on
    text inside the Basic Multilingual Plane, such as ISO dates and the
    pollen codes. */
module Strings {

  // ---------------------------------------------------------------------
  // Lexicographic order (what `Object.keys(h).sort()` uses)
  // ---------------------------------------------------------------------

  /** `a` sorts strictly before `b` when compared character by character. */
  predicate LexLess(a: string, b: string)
    decreases |a|
  {
    if a == [] then b != []
    else if b == [] then false
    else if a[0] != b[0] then a[0] < b[0]
    else LexLess(a[1..], b[1..])
  }

  lemma {:induction false} LexLessIrreflexive(a: string)
    ensures !LexLess(a, a)
  {
    if a != [] { LexLessIrreflexive(a[1..]); }
  }

  lemma {:induction false} LexLessAsymmetric(a: string, b: string)
    ensures !(LexLess(a, b) && LexLess(b, a))
  {
    if a != [] && b != [] && a[0] == b[0] { LexLessAsymmetric(a[1..], b[1..]); }
  }

  lemma {:induction false} LexLessTransitive(a: string, b: string, c: string)
    requires LexLess(a, b) && LexLess(b, c)
    ensures LexLess(a, c)
  {
    if a != [] && a[0] == b[0] && b[0] == c[0] {
      LexLessTransitive(a[1..], b[1..], c[1..]);
    }
  }

  lemma {:induction false} LexLessTotal(a: string, b: string)
    ensures a == b || LexLess(a, b) || LexLess(b, a)
  {
    if a != [] && b != [] && a[0] == b[0] {
      LexLessTotal(a[1..], b[1..]);
      assert a == [a[0]] + a[1..] && b == [b[0]] + b[1..];
    }
  }

  lemma LexLessIsStrictOrder()
    ensures forall a, b :: !(LexLess(a, b) && LexLess(b, a))
    ensures forall a, b, c :: LexLess(a, b) && LexLess(b, c) ==> LexLess(a, c)
  {
    forall a, b ensures !(LexLess(a, b) && LexLess(b, a)) { LexLessAsymmetric(a, b); }
    forall a, b, c | LexLess(a, b) && LexLess(b, c) ensures LexLess(a, c) {
      LexLessTransitive(a, b, c);
    }
  }

  predicate IsLeast(d: string, s: set<string>) {
    d in s && forall x :: x in s && x != d ==> LexLess(d, x)
  }

  lemma {:induction false} LeastExists(s: set<string>)
    requires s != {}
    ensures exists d :: IsLeast(d, s)
    decreases s
  {
    var x :| x in s;
    if s == {x} {
      assert IsLeast(x, s);
    } else {
      LeastExists(s - {x});
      var m :| IsLeast(m, s - {x});
      LexLessTotal(m, x);
      if LexLess(m, x) {
        assert IsLeast(m, s);
      } else {
        forall y | y in s && y != x ensures LexLess(x, y) {
          if y != m { LexLessTransitive(x, m, y); }
        }
        assert IsLeast(x, s);
      }
    }
  }

  /** The lexicographically smallest element of a non-empty set. */
  function Least(s: set<string>): (d: string)
    requires s != {}
    ensures IsLeast(d, s)
  {
    LeastExists(s);
    LexLessIsStrictOrder();
    var d :| IsLeast(d, s); d
  }

  ghost predicate StrictlyAscending(ds: seq<string>) {
    forall i, j :: 0 <= i < j < |ds| ==> LexLess(ds[i], ds[j])
  }

  /** The elements of `s` in ascending order: `Array.from(keys).sort()`. */
  function SortedDates(s: set<string>): (ds: seq<string>)
    ensures |ds| == |s|
    ensures forall d :: d in ds <==> d in s
    ensures StrictlyAscending(ds)
    decreases s
  {
    if s == {} then []
    else
      var d := Least(s);
      var rest := SortedDates(s - {d});
      assert forall k :: 0 <= k < |rest| ==> rest[k] in s - {d};
      [d] + rest
  }

  // ---------------------------------------------------------------------
  // split / join / trim / substring
  // ---------------------------------------------------------------------

  /** `s.split(sep)` for a one-character separator: never empty. */
  function Split(s: string, sep: char): (pieces: seq<string>)
    ensures |pieces| >= 1
    ensures forall p :: p in pieces ==> sep !in p
  {
    if s == [] then [""]
    else
      var rest := Split(s[1..], sep);
      if s[0] == sep then [""] + rest
      else [[s[0]] + rest[0]] + rest[1..]
  }

  /** `pieces.join(sep)`. */
  function Join(pieces: seq<string>, sep: char): string {
    if pieces == [] then ""
    else if |pieces| == 1 then pieces[0]
    else pieces[0] + [sep] + Join(pieces[1..], sep)
  }

  lemma JoinCons(x: string, ps: seq<string>, sep: char)
    requires ps != []
    ensures Join([x] + ps, sep) == x + [sep] + Join(ps, sep)
  {
    assert ([x] + ps)[1..] == ps;
  }

  lemma JoinHeadCons(c: char, ps: seq<string>, sep: char)
    requires ps != []
    ensures Join([[c] + ps[0]] + ps[1..], sep) == [c] + Join(ps, sep)
  {
    if |ps| > 1 {
      JoinCons([c] + ps[0], ps[1..], sep);
      JoinCons(ps[0], ps[1..], sep);
      assert [ps[0]] + ps[1..] == ps;
    }
  }

  lemma {:induction false} JoinSplit(s: string, sep: char)
    ensures Join(Split(s, sep), sep) == s
  {
    if s != [] {
      var rest := Split(s[1..], sep);
      JoinSplit(s[1..], sep);
      if s[0] == sep {
        JoinCons("", rest, sep);
      } else {
        JoinHeadCons(s[0], rest, sep);
      }
      assert s == [s[0]] + s[1..];
    }
  }

  lemma {:induction false} JoinPrefix(ps: seq<string>, sep: char, k: nat)
    requires 1 <= k < |ps|
    ensures Join(ps, sep) == Join(ps[..k], sep) + [sep] + Join(ps[k..], sep)
  {
    if k > 1 {
      JoinPrefix(ps[1..], sep, k - 1);
      assert ps[1..][..k - 1] == ps[..k][1..];
      assert ps[1..][k - 1..] == ps[k..];
    }
  }

  lemma {:induction false} SplitOfSeparatorFree(a: string, sep: char)
    requires sep !in a
    ensures Split(a, sep) == [a]
  {
    if a != [] {
      SplitOfSeparatorFree(a[1..], sep);
      assert [a[0]] + a[1..] == a;
    }
  }

  lemma {:induction false} SplitAround(a: string, b: string, sep: char)
    requires sep !in a
    ensures Split(a + [sep] + b, sep) == [a] + Split(b, sep)
  {
    if a == [] {
      assert (a + [sep] + b)[1..] == b;
    } else {
      assert (a + [sep] + b)[1..] == a[1..] + [sep] + b;
      SplitAround(a[1..], b, sep);
      assert [a[0]] + a[1..] == a;
    }
  }

  function Count(s: string, c: char): nat {
    if s == [] then 0 else (if s[0] == c then 1 else 0) + Count(s[1..], c)
  }

  lemma {:induction false} CountAppend(a: string, b: string, c: char)
    ensures Count(a + b, c) == Count(a, c) + Count(b, c)
  {
    if a == [] {
      assert a + b == b;
    } else {
      assert (a + b)[1..] == a[1..] + b;
      CountAppend(a[1..], b, c);
    }
  }

  lemma {:induction false} CountAbsent(a: string, c: char)
    ensures c !in a <==> Count(a, c) == 0
  {
    if a != [] { CountAbsent(a[1..], c); }
  }

  lemma {:induction false} CountJoin(ps: seq<string>, sep: char)
    requires |ps| >= 1 && forall p :: p in ps ==> sep !in p
    ensures Count(Join(ps, sep), sep) == |ps| - 1
  {
    CountAbsent(ps[0], sep);
    if |ps| > 1 {
      CountJoin(ps[1..], sep);
      CountAppend(ps[0], [sep], sep);
      CountAppend(ps[0] + [sep], Join(ps[1..], sep), sep);
    }
  }

  /** `s.split(sep)` has one piece more than `s` has separators. */
  lemma SplitCount(s: string, sep: char)
    ensures |Split(s, sep)| == Count(s, sep) + 1
  {
    JoinSplit(s, sep);
    CountJoin(Split(s, sep), sep);
  }

  /** The first piece of `s.split(sep)` is `s` up to its first separator. */
  lemma {:induction false} SplitHead(s: string, sep: char)
    ensures |Split(s, sep)[0]| <= |s|
    ensures Split(s, sep)[0] == s[..|Split(s, sep)[0]|]
    ensures |Split(s, sep)[0]| == |s| || s[|Split(s, sep)[0]|] == sep
  {
    if s != [] && s[0] != sep {
      SplitHead(s[1..], sep);
    }
  }

  /** The characters `String.prototype.trim` removes: the ECMAScript
      WhiteSpace and LineTerminator characters. */
  predicate IsJsSpace(c: char) {
    c == '\t' || c == '\U{000B}' || c == '\U{000C}' || c == ' ' || c == '\U{00A0}' || c == '\U{FEFF}'
    || c == '\n' || c == '\r' || c == '\U{2028}' || c == '\U{2029}'
    || c == '\U{1680}' || ('\U{2000}' <= c <= '\U{200A}') || c == '\U{202F}' || c == '\U{205F}' || c == '\U{3000}'
  }

  function TrimStart(s: string): (r: string)
    ensures |r| <= |s| && r == s[|s| - |r|..]
    ensures r == [] || !IsJsSpace(r[0])
    ensures forall i :: 0 <= i < |s| - |r| ==> IsJsSpace(s[i])
  {
    if s != [] && IsJsSpace(s[0]) then TrimStart(s[1..]) else s
  }

  function TrimEnd(s: string): (r: string)
    ensures |r| <= |s| && r == s[..|r|]
    ensures r == [] || !IsJsSpace(r[|r| - 1])
    ensures forall i :: |r| <= i < |s| ==> IsJsSpace(s[i])
  {
    if s != [] && IsJsSpace(s[|s| - 1]) then TrimEnd(s[..|s| - 1]) else s
  }

  /** `s.trim()`. */
  function Trim(s: string): string {
    TrimEnd(TrimStart(s))
  }

  lemma {:induction false} CountOfSpaces(a: string, c: char)
    requires !IsJsSpace(c)
    requires forall i :: 0 <= i < |a| ==> IsJsSpace(a[i])
    ensures Count(a, c) == 0
  {
    if a != [] {
      assert IsJsSpace(a[0]);
      CountOfSpaces(a[1..], c);
    }
  }

  lemma CountTrimStart(s: string, c: char)
    requires !IsJsSpace(c)
    ensures Count(TrimStart(s), c) == Count(s, c)
  {
    var t := TrimStart(s);
    var k := |s| - |t|;
    assert s == s[..k] + t;
    CountOfSpaces(s[..k], c);
    CountAppend(s[..k], t, c);
  }

  lemma CountTrimEnd(t: string, c: char)
    requires !IsJsSpace(c)
    ensures Count(TrimEnd(t), c) == Count(t, c)
  {
    var r := TrimEnd(t);
    assert t == r + t[|r|..];
    CountOfSpaces(t[|r|..], c);
    CountAppend(r, t[|r|..], c);
  }

  /** Trimming removes only white space, so it keeps every other character's count. */
  lemma CountTrim(s: string, c: char)
    requires !IsJsSpace(c)
    ensures Count(Trim(s), c) == Count(s, c)
  {
    CountTrimStart(s, c);
    CountTrimEnd(TrimStart(s), c);
  }

  /** `s.substring(0, n)`. */
  function Prefix(s: string, n: nat): (r: string)
    ensures |r| == if |s| < n then |s| else n
    ensures r == s[..|r|]
  {
    if |s| <= n then s else s[..n]
  }

  /** `s.split('').reduce((a, b) => a + b.charCodeAt(0), 0)`. */
  function CharCodeSum(s: string): nat {
    if s == [] then 0 else CharCodeSum(s[..|s| - 1]) + s[|s| - 1] as nat
  }
}
