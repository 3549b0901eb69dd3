/**
 * The action-set synthesizer: which actions a `resources` / `resource`
 * declaration expands to, given its `:only` / `:except` filter and its
 * member and collection extensions.
 */
module Actions {

  /** `resources` declares a plural resource, `resource` a singular one. */
  datatype Kind = Plural | Singular

  const PluralActions: seq<string> := ["index", "show", "new", "create", "edit", "update", "destroy"]

  /** The standard actions in their fixed order; a singular resource has no `index`. */
  function Standard(k: Kind): (r: seq<string>)
    ensures k == Plural ==> |r| == 7
    ensures k == Singular ==> |r| == 6 && "index" !in r
    ensures forall a :: a in r ==> a in PluralActions
  {
    if k == Plural then PluralActions else PluralActions[1..]
  }

  /**
   * The filter on the standard actions:  no option, `:only => [..]`,
   * `:except => [..]`, or a sentinel (`:only => :none`, `:except => :all`)
   * that keeps none of them.
   */
  datatype Filter = Unfiltered | Only(names: seq<string>) | Except(names: seq<string>) | NoActions

  /** The elements of `std`, in their order, whose membership in `names` equals `keep`. */
  function Select(std: seq<string>, names: seq<string>, keep: bool): (r: seq<string>)
    ensures |r| <= |std|
    ensures forall a :: a in r <==> a in std && (a in names) == keep
  {
    if std == [] then []
    else (if (std[0] in names) == keep then [std[0]] else []) + Select(std[1..], names, keep)
  }

  /** The standard actions that survive the filter. */
  function Filtered(std: seq<string>, f: Filter): seq<string> {
    match f
    case Unfiltered => std
    case Only(names) => Select(std, names, true)
    case Except(names) => Select(std, names, false)
    case NoActions => []
  }

  /** Whether the filter lets standard action `a` through. */
  predicate Keeps(f: Filter, a: string) {
    match f
    case Unfiltered => true
    case Only(names) => a in names
    case Except(names) => a !in names
    case NoActions => false
  }

  /** An action survives the filter exactly when it is standard and the filter lets it through. */
  lemma FilteredKeeps(std: seq<string>, f: Filter)
    ensures forall a :: a in Filtered(std, f) <==> a in std && Keeps(f, a)
  {
  }

  /**
   * The actions a resource declaration expands to: the filtered standard
   * actions, then the member actions, then the collection actions, each group
   * in the order written.
   */
  function Synthesize(k: Kind, f: Filter, member: seq<string>, collection: seq<string>): (r: seq<string>)
    ensures |r| == |Filtered(Standard(k), f)| + |member| + |collection|
    ensures IsSubsequence(r[..|r| - |member| - |collection|], Standard(k))
    ensures forall a :: a in r[..|r| - |member| - |collection|] <==> a in Standard(k) && Keeps(f, a)
    ensures r[|r| - |member| - |collection|..|r| - |collection|] == member
    ensures r[|r| - |collection|..] == collection
  {
    FilteredIsSubsequence(Standard(k), f);
    FilteredKeeps(Standard(k), f);
    var std := Filtered(Standard(k), f);
    var r := std + member + collection;
    assert r[..|std|] == std;
    assert r[|std|..|std| + |member|] == member;
    r
  }

  /** `a` keeps the order of `b` and takes some of its elements. */
  predicate IsSubsequence(a: seq<string>, b: seq<string>) {
    if a == [] then true
    else if b == [] then false
    else if a[0] == b[0] then IsSubsequence(a[1..], b[1..])
    else IsSubsequence(a, b[1..])
  }

  /** A subsequence of the tail of `b` is a subsequence of `b`. */
  lemma {:induction false} SubsequenceOfTail(a: seq<string>, b: seq<string>)
    requires b != [] && IsSubsequence(a, b[1..])
    ensures IsSubsequence(a, b)
    decreases |a| + |b|
  {
    if a != [] && a[0] == b[0] {
      TailOfSubsequence(a, b[1..]);
    }
  }

  /** Dropping the first element of a subsequence keeps it a subsequence. */
  lemma {:induction false} TailOfSubsequence(a: seq<string>, b: seq<string>)
    requires a != [] && IsSubsequence(a, b)
    ensures IsSubsequence(a[1..], b)
    decreases |a| + |b|
  {
    if a[0] == b[0] {
      if a[1..] != [] {
        SubsequenceOfTail(a[1..], b);
      }
    } else {
      TailOfSubsequence(a, b[1..]);
      if a[1..] != [] {
        SubsequenceOfTail(a[1..], b);
      }
    }
  }

  /** The standard actions kept by a filter are a subsequence of the standard order. */
  lemma {:induction false} SelectIsSubsequence(std: seq<string>, names: seq<string>, keep: bool)
    ensures IsSubsequence(Select(std, names, keep), std)
  {
    if std != [] {
      SelectIsSubsequence(std[1..], names, keep);
      var rest := Select(std[1..], names, keep);
      if (std[0] in names) == keep {
        assert Select(std, names, keep) == [std[0]] + rest;
        assert ([std[0]] + rest)[1..] == rest;
      } else {
        assert Select(std, names, keep) == rest;
        SubsequenceOfTail(rest, std);
      }
    }
  }

  lemma FilteredIsSubsequence(std: seq<string>, f: Filter)
    ensures IsSubsequence(Filtered(std, f), std)
  {
    match f
    case Unfiltered => SelfSubsequence(std);
    case Only(names) => SelectIsSubsequence(std, names, true);
    case Except(names) => SelectIsSubsequence(std, names, false);
    case NoActions =>
  }

  lemma {:induction false} SelfSubsequence(s: seq<string>)
    ensures IsSubsequence(s, s)
  {
    if s != [] {
      SelfSubsequence(s[1..]);
    }
  }

  /** `:only` keeps exactly the listed standard actions, and `:except` exactly the unlisted ones. */
  lemma FilterMembership(k: Kind, names: seq<string>, a: string)
    ensures a in Filtered(Standard(k), Only(names)) <==> a in Standard(k) && a in names
    ensures a in Filtered(Standard(k), Except(names)) <==> a in Standard(k) && a !in names
  {
  }

  /** The order in which `:only` lists its actions does not matter: the standard order wins. */
  lemma {:induction false} OnlyIgnoresOrder(std: seq<string>, names: seq<string>, names': seq<string>)
    requires forall a :: a in names <==> a in names'
    ensures Filtered(std, Only(names)) == Filtered(std, Only(names'))
  {
    if std != [] {
      OnlyIgnoresOrder(std[1..], names, names');
    }
  }

  /** `:only => xs` and `:except => xs` split the standard actions between them. */
  lemma {:induction false} OnlyExceptPartition(std: seq<string>, names: seq<string>)
    ensures |Filtered(std, Only(names))| + |Filtered(std, Except(names))| == |std|
  {
    if std != [] {
      OnlyExceptPartition(std[1..], names);
    }
  }

  /** A singular resource has exactly the plural actions other than `index`, in the same order. */
  lemma SingularIsPluralWithoutIndex()
    ensures Standard(Singular) == Filtered(Standard(Plural), Except(["index"]))
  {
    var p := Standard(Plural);
    assert p == ["index"] + p[1..];
    assert Select(p[1..], ["index"], false) == p[1..] by {
      SelectAllKept(p[1..], ["index"]);
    }
  }

  lemma {:induction false} SelectAllKept(std: seq<string>, names: seq<string>)
    requires forall a :: a in std ==> a !in names
    ensures Select(std, names, false) == std
  {
    if std != [] {
      SelectAllKept(std[1..], names);
    }
  }
}
