/**
 * Controller names.  A name written in the routes DSL (`:blog_posts`,
 * `"high_voltage/pages"`) becomes a sequence of constant segments
 * (`["HighVoltage", "Pages"]`): every `/` starts a new namespace segment and
 * every segment is camelized.
 */
module Names {

  predicate IsLower(c: char) { 'a' <= c <= 'z' }
  predicate IsUpper(c: char) { 'A' <= c <= 'Z' }
  predicate IsDigit(c: char) { '0' <= c <= '9' }

  function Upper(c: char): (u: char)
    ensures IsLower(c) ==> IsUpper(u) && u != c
    ensures !IsLower(c) ==> u == c
  {
    if IsLower(c) then (c as int - 32) as char else c
  }

  function Lower(c: char): (l: char)
    ensures IsUpper(c) ==> IsLower(l) && Upper(l) == c
    ensures !IsUpper(c) ==> l == c
  {
    if IsUpper(c) then (c as int + 32) as char else c
  }

  /** A snake_case identifier: starts with a lower-case letter, and every `_` is followed by one. */
  predicate SnakeAt(s: string, i: nat)
    requires i < |s|
  {
    IsLower(s[i]) || IsDigit(s[i]) || (s[i] == '_' && i + 1 < |s| && IsLower(s[i + 1]))
  }

  predicate SnakeTail(s: string) {
    forall i :: 0 <= i < |s| ==> SnakeAt(s, i)
  }

  predicate IsSnake(s: string) {
    |s| > 0 && IsLower(s[0]) && SnakeTail(s)
  }

  /**
   * Camelizes `s`, starting with a capital when `capital` holds: an `_` is
   * dropped and makes the next character a capital.
   */
  function CamelFrom(s: string, capital: bool): (r: string)
    ensures |r| <= |s|
    ensures '_' !in r
    ensures forall ch :: ch in r ==> ch in s || IsUpper(ch)
  {
    if s == [] then []
    else if s[0] == '_' then CamelFrom(s[1..], true)
    else [if capital then Upper(s[0]) else s[0]] + CamelFrom(s[1..], false)
  }

  /** The camelize inflection: `blog_posts` becomes `BlogPosts`. */
  function Camelize(s: string): (r: string)
    ensures '_' !in r
    ensures |s| > 0 && IsLower(s[0]) ==> |r| > 0 && IsUpper(r[0])
  {
    CamelFrom(s, true)
  }

  /** Without underscores, only the first letter can change. */
  lemma {:induction false} CamelFromPlain(s: string, capital: bool)
    requires s != [] && '_' !in s
    ensures CamelFrom(s, capital) == [if capital then Upper(s[0]) else s[0]] + s[1..]
    decreases |s|
  {
    if |s| > 1 {
      CamelFromPlain(s[1..], false);
    } else {
      assert s[1..] == [];
    }
  }

  /** An underscore splits a name into words camelized separately: `blog_posts` is `Blog` then `Posts`. */
  lemma {:induction false} CamelFromUnderscore(x: string, y: string, capital: bool)
    ensures CamelFrom(x + "_" + y, capital) == CamelFrom(x, capital) + CamelFrom(y, true)
    decreases |x|
  {
    if x == [] {
      assert x + "_" + y == "_" + y;
      assert ("_" + y)[1..] == y;
    } else {
      assert (x + "_" + y)[0] == x[0];
      assert (x + "_" + y)[1..] == x[1..] + "_" + y;
      if x[0] == '_' {
        CamelFromUnderscore(x[1..], y, true);
      } else {
        CamelFromUnderscore(x[1..], y, false);
      }
    }
  }

  /** The underscore inflection, the inverse of Camelize: `BlogPosts` becomes `blog_posts`. */
  function Underscore(t: string): string {
    if t == [] then [] else [Lower(t[0])] + UnderscoreRest(t[1..])
  }

  function UnderscoreRest(t: string): string {
    if t == [] then []
    else (if IsUpper(t[0]) then ['_', Lower(t[0])] else [t[0]]) + UnderscoreRest(t[1..])
  }

  lemma SnakeTailDrop(s: string)
    requires |s| > 0 && SnakeTail(s)
    ensures SnakeTail(s[1..])
  {
    forall i | 0 <= i < |s[1..]| ensures SnakeAt(s[1..], i) {
      assert SnakeAt(s, i + 1);
      assert s[1..][i] == s[i + 1];
      if i + 1 < |s[1..]| {
        assert s[1..][i + 1] == s[i + 2];
      }
    }
  }

  lemma {:induction false} UnderscoreCamelFrom(s: string, capital: bool)
    requires SnakeTail(s)
    requires capital ==> |s| > 0 && IsLower(s[0])
    ensures UnderscoreRest(CamelFrom(s, capital)) == (if capital then "_" else "") + s
  {
    if s == [] {
    } else {
      SnakeTailDrop(s);
      assert SnakeAt(s, 0);
      if s[0] == '_' {
        UnderscoreCamelFrom(s[1..], true);
        assert "_" + s[1..] == s;
      } else if capital {
        UnderscoreCamelFrom(s[1..], false);
        var rest := CamelFrom(s[1..], false);
        assert CamelFrom(s, capital) == [Upper(s[0])] + rest;
        assert ([Upper(s[0])] + rest)[1..] == rest;
        assert "_" + s == ['_', s[0]] + s[1..];
      } else {
        UnderscoreCamelFrom(s[1..], false);
        var rest := CamelFrom(s[1..], false);
        assert CamelFrom(s, capital) == [s[0]] + rest;
        assert ([s[0]] + rest)[1..] == rest;
        assert s == [s[0]] + s[1..];
      }
    }
  }

  /** Camelizing a snake_case name loses nothing: Underscore gives the name back. */
  lemma {:induction false} CamelizeRoundTrip(s: string)
    requires IsSnake(s)
    ensures Underscore(Camelize(s)) == s
  {
    SnakeTailDrop(s);
    UnderscoreCamelFrom(s[1..], false);
    var rest := CamelFrom(s[1..], false);
    assert Camelize(s) == [Upper(s[0])] + rest;
    assert ([Upper(s[0])] + rest)[1..] == rest;
    assert s == [s[0]] + s[1..];
  }

  /** Two different snake_case names never camelize to the same constant name. */
  lemma CamelizeInjective(s: string, t: string)
    requires IsSnake(s) && IsSnake(t)
    requires Camelize(s) == Camelize(t)
    ensures s == t
  {
    CamelizeRoundTrip(s);
    CamelizeRoundTrip(t);
  }

  /** The index of the first occurrence of `c` in `s`. */
  function IndexOf(s: string, c: char): (i: nat)
    requires c in s
    ensures i < |s| && s[i] == c && c !in s[..i]
  {
    if s[0] == c then 0 else 1 + IndexOf(s[1..], c)
  }

  /** The first `c` in `x + [c] + y` is at `|x|` when `x` holds no `c`. */
  lemma {:induction false} IndexOfAfter(x: string, c: char, y: string)
    requires c !in x
    ensures IndexOf(x + [c] + y, c) == |x|
  {
    if x != [] {
      assert x[0] in x;
      IndexOfAfter(x[1..], c, y);
      assert (x + [c] + y)[1..] == x[1..] + [c] + y;
    }
  }

  /** Splits `s` at every `sep`; `"a/b"` gives `["a", "b"]`, `"a"` gives `["a"]`. */
  function Split(s: string, sep: char): (parts: seq<string>)
    ensures |parts| >= 1
    ensures forall p :: p in parts ==> sep !in p
    ensures |parts[0]| <= |s| && parts[0] == s[..|parts[0]|]
    decreases |s|
  {
    if sep !in s then [s]
    else
      var i := IndexOf(s, sep);
      [s[..i]] + Split(s[i + 1..], sep)
  }

  /** Joins `parts` with `sep` between consecutive parts. */
  function Join(parts: seq<string>, sep: string): string {
    if parts == [] then []
    else if |parts| == 1 then parts[0]
    else parts[0] + sep + Join(parts[1..], sep)
  }

  /** Joining the parts of a split with the separator gives back the original text. */
  lemma {:induction false} SplitJoin(s: string, sep: char)
    ensures Join(Split(s, sep), [sep]) == s
    decreases |s|
  {
    if sep in s {
      var i := IndexOf(s, sep);
      var head, rest := s[..i], s[i + 1..];
      SplitJoin(rest, sep);
      SplitCons(s, sep, i);
      JoinCons(head, Split(rest, sep), [sep]);
      SliceAround(s, i);
    }
  }

  lemma SplitCons(s: string, sep: char, i: nat)
    requires sep in s && i == IndexOf(s, sep)
    ensures Split(s, sep) == [s[..i]] + Split(s[i + 1..], sep)
  {
    var parts := Split(s, sep);
  }

  lemma JoinCons(head: string, tail: seq<string>, sep: string)
    requires tail != []
    ensures Join([head] + tail, sep) == head + sep + Join(tail, sep)
  {
    assert ([head] + tail)[1..] == tail;
  }

  lemma SliceAround(s: string, i: nat)
    requires i < |s|
    ensures s[..i] + [s[i]] + s[i + 1..] == s
  {
  }

  /** The segments of a controller or namespace name: `high_voltage/pages` gives `["HighVoltage", "Pages"]`. */
  function ControllerPath(s: string): (segs: seq<string>)
    ensures |segs| == |Split(s, '/')|
    ensures forall k :: 0 <= k < |segs| ==> segs[k] == Camelize(Split(s, '/')[k])
    ensures forall k :: 0 <= k < |segs| ==> '_' !in segs[k] && '/' !in segs[k]
    ensures '/' !in s ==> |segs| == 1
  {
    var parts := Split(s, '/');
    assert forall k :: 0 <= k < |parts| ==> '/' !in parts[k] by {
      forall k | 0 <= k < |parts| ensures '/' !in parts[k] {
        assert parts[k] in parts;
      }
    }
    seq(|parts|, k requires 0 <= k < |parts| => Camelize(parts[k]))
  }

  /** A name without `/` is one segment. */
  lemma PlainControllerPath(s: string)
    requires '/' !in s
    ensures ControllerPath(s) == [Camelize(s)]
  {
  }

  /**
   * The `/`-to-`::` mapping is lossless: when every part of two names is
   * snake_case, equal segments mean equal names.
   */
  lemma ControllerPathInjective(s: string, t: string)
    requires forall p :: p in Split(s, '/') ==> IsSnake(p)
    requires forall p :: p in Split(t, '/') ==> IsSnake(p)
    requires ControllerPath(s) == ControllerPath(t)
    ensures s == t
  {
    var ps, pt := Split(s, '/'), Split(t, '/');
    assert |ps| == |pt|;
    forall k | 0 <= k < |ps| ensures ps[k] == pt[k] {
      assert ps[k] in ps && pt[k] in pt;
      CamelizeInjective(ps[k], pt[k]);
    }
    assert ps == pt;
    SplitJoin(s, '/');
    SplitJoin(t, '/');
  }

  /** Splitting `x + [sep] + y` at `sep`, when neither part holds `sep`, gives the two parts. */
  lemma SplitTwo(x: string, sep: char, y: string)
    requires sep !in x && sep !in y
    ensures Split(x + [sep] + y, sep) == [x, y]
  {
    var s := x + [sep] + y;
    IndexOfAfter(x, sep, y);
    assert s[..|x|] == x;
    assert s[|x| + 1..] == y;
  }
}
