/**
 * The call tree of a routes file, as the upstream parser delivers it: each
 * statement is a call with an optional receiver (`map.resources` in the
 * older dialect, none in the block dialect), positional arguments, a trailing
 * options hash, and the statements of its block.
 */
module CallTree {
  import opened Wrappers

  /** An argument expression, reduced to the shapes the recognizer distinguishes. */
  datatype Value =
    | Sym(name: string)          // :posts, controller: (a label key)
    | Str(text: string)          // "posts#create", '/login'
    | Arr(items: seq<Value>)     // [:index, :show]
    | Hash(pairs: seq<Pair>)     // { :list => :get }, in the order written
    | Redirect                   // redirect("/posts/%{name}") or redirect { ... }
    | Other                      // anything else: a regexp, a number, a method call

  datatype Pair = Pair(key: Value, value: Value)

  datatype Call = Call(receiver: Option<string>, name: string, args: seq<Value>, body: seq<Call>)

  /** The number of calls in a call and its nested blocks; recursion over the tree decreases it. */
  function Size(c: Call): nat {
    1 + SizeAll(c.body)
  }

  function SizeAll(cs: seq<Call>): (n: nat)
    ensures cs != [] ==> SizeAll(cs[..|cs| - 1]) < n && Size(cs[|cs| - 1]) <= n
  {
    if cs == [] then 0 else SizeAll(cs[..|cs| - 1]) + Size(cs[|cs| - 1])
  }

  lemma {:induction false} SizeBound(cs: seq<Call>, i: nat)
    requires i < |cs|
    ensures Size(cs[i]) <= SizeAll(cs)
    decreases |cs|
  {
    if i < |cs| - 1 {
      SizeBound(cs[..|cs| - 1], i);
    }
  }

  /** The trailing options hash of a call (Ruby's bare hash argument), empty when there is none. */
  function Options(c: Call): (own: seq<Pair>)
    ensures own != [] ==> c.args != [] && c.args[|c.args| - 1] == Hash(own)
    ensures c.args != [] && c.args[|c.args| - 1].Hash? ==> Hash(own) == c.args[|c.args| - 1]
  {
    if c.args != [] && c.args[|c.args| - 1].Hash? then c.args[|c.args| - 1].pairs else []
  }

  /** The arguments before the trailing options hash. */
  function Positional(c: Call): (ps: seq<Value>)
    ensures |ps| <= |c.args|
    ensures ps == c.args[..|ps|]
    ensures |ps| == |c.args| - (if c.args != [] && c.args[|c.args| - 1].Hash? then 1 else 0)
  {
    if c.args != [] && c.args[|c.args| - 1].Hash? then c.args[..|c.args| - 1] else c.args
  }

  /** The value of option `key` (a symbol key, `:key =>` or `key:`), the first one written when repeated. */
  function Lookup(key: string, pairs: seq<Pair>): (r: Option<Value>)
    ensures r.None? <==> forall i :: 0 <= i < |pairs| ==> pairs[i].key != Sym(key)
    ensures r.Some? ==> exists i :: 0 <= i < |pairs| && pairs[i] == Pair(Sym(key), r.value)
                                    && forall j :: 0 <= j < i ==> pairs[j].key != Sym(key)
  {
    if pairs == [] then None
    else if pairs[0].key == Sym(key) then Some(pairs[0].value)
    else
      var r := Lookup(key, pairs[1..]);
      assert r.Some? ==> exists i :: 0 <= i < |pairs[1..]| && pairs[1..][i] == Pair(Sym(key), r.value)
                                      && forall j :: 0 <= j < i ==> pairs[1..][j].key != Sym(key);
      assert r.Some? ==> exists i :: 0 <= i < |pairs| && pairs[i] == Pair(Sym(key), r.value)
                                      && forall j :: 0 <= j < i ==> pairs[j].key != Sym(key) by {
        if r.Some? {
          var i :| 0 <= i < |pairs[1..]| && pairs[1..][i] == Pair(Sym(key), r.value)
                   && forall j :: 0 <= j < i ==> pairs[1..][j].key != Sym(key);
          assert pairs[i + 1] == Pair(Sym(key), r.value);
          forall j | 0 <= j < i + 1 ensures pairs[j].key != Sym(key) {
            if j > 0 {
              assert pairs[j] == pairs[1..][j - 1];
            }
          }
        }
      }
      r
  }

  /** The name a symbol or string spells, if the value is one. */
  function Word(v: Value): (w: Option<string>)
    ensures w.Some? <==> v.Sym? || v.Str?
    ensures v.Sym? ==> w == Some(v.name)
    ensures v.Str? ==> w == Some(v.text)
  {
    match v
    case Sym(n) => Some(n)
    case Str(t) => Some(t)
    case _ => None
  }

  function OptionWord(v: Option<Value>): Option<string> {
    if v.Some? then Word(v.value) else None
  }

  /** The names spelled by the symbols and strings among `vs`, in order; other values are skipped. */
  function Words(vs: seq<Value>): (ws: seq<string>)
    ensures |ws| <= |vs|
    ensures (forall v :: v in vs ==> v.Sym?) ==> |ws| == |vs| && forall k :: 0 <= k < |vs| ==> ws[k] == vs[k].name
  {
    if vs == [] then []
    else (if Word(vs[0]).Some? then [Word(vs[0]).value] else []) + Words(vs[1..])
  }

  /** The keys of a hash, in the order written. */
  function Keys(pairs: seq<Pair>): (ks: seq<Value>)
    ensures |ks| == |pairs| && forall k :: 0 <= k < |pairs| ==> ks[k] == pairs[k].key
  {
    seq(|pairs|, k requires 0 <= k < |pairs| => pairs[k].key)
  }
}
