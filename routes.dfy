/**
 * Routes and the route registry.  A route pairs a controller, given as its
 * constant segments (`["Admin", "Test", "Posts"]`), with an action, which is a
 * name or the wildcard of a path that carries a dynamic `:action` segment.
 */
module Routes {
  import opened Names

  datatype Action = Named(name: string) | AnyAction

  datatype Route = Route(controller: seq<string>, action: Action)

  function ActionText(a: Action): (t: string)
    ensures a.AnyAction? ==> t == "*"
    ensures a.Named? ==> t == a.name
  {
    match a
    case Named(n) => n
    case AnyAction => "*"
  }

  /** The text form the rule checks read: `Admin::Test::PostsController#index`, `InternalController#*`. */
  function Render(r: Route): string {
    Join(r.controller, "::") + "Controller#" + ActionText(r.action)
  }

  function RenderAll(rs: seq<Route>): (ts: seq<string>)
    ensures |ts| == |rs|
    ensures forall k :: 0 <= k < |rs| ==> ts[k] == Render(rs[k])
  {
    seq(|rs|, k requires 0 <= k < |rs| => Render(rs[k]))
  }

  /** A route whose text form can be read back: segments are non-empty and hold no `:` or `#`. */
  predicate WellFormed(r: Route) {
    && |r.controller| > 0
    && (forall seg :: seg in r.controller ==> |seg| > 0 && ':' !in seg && '#' !in seg)
    && (r.action.Named? ==> r.action.name != "*" && '#' !in r.action.name)
  }

  lemma JoinWithout(parts: seq<string>, sep: string, c: char)
    requires c !in sep
    requires forall p :: p in parts ==> c !in p
    ensures c !in Join(parts, sep)
  {
    if |parts| > 1 {
      JoinWithout(parts[1..], sep, c);
    }
  }

  /** Text split at the first `c`: the parts before it and after it are determined. */
  lemma SplitAtFirst(x1: string, x2: string, c: char, y1: string, y2: string)
    requires c !in x1 && c !in x2
    requires x1 + [c] + y1 == x2 + [c] + y2
    ensures x1 == x2 && y1 == y2
  {
    var s := x1 + [c] + y1;
    IndexOfAfter(x1, c, y1);
    IndexOfAfter(x2, c, y2);
    assert x1 == s[..|x1|] == x2;
    assert y1 == s[|x1| + 1..] == y2;
  }

  /** Joining with `::` is lossless for non-empty segments without `:`. */
  lemma {:induction false} JoinInjective(a: seq<string>, b: seq<string>)
    requires |a| > 0 && |b| > 0
    requires forall p :: p in a ==> |p| > 0 && ':' !in p
    requires forall p :: p in b ==> |p| > 0 && ':' !in p
    requires Join(a, "::") == Join(b, "::")
    ensures a == b
    decreases |a|
  {
    assert a[0] in a && b[0] in b;
    if |a| > 1 && |b| > 1 {
      var ta, tb := Join(a[1..], "::"), Join(b[1..], "::");
      JoinStep(a);
      JoinStep(b);
      SplitAtFirst(a[0], b[0], ':', ":" + ta, ":" + tb);
      assert ta == (":" + ta)[1..];
      assert tb == (":" + tb)[1..];
      JoinInjective(a[1..], b[1..]);
      assert a == [a[0]] + a[1..] && b == [b[0]] + b[1..];
    }
  }

  lemma JoinStep(a: seq<string>)
    requires |a| > 1
    ensures Join(a, "::") == a[0] + [':'] + (":" + Join(a[1..], "::"))
  {
  }

  /** The text form is the controller part, then `#`, then the action; only the `#` separates them. */
  lemma RenderSplit(r: Route)
    requires WellFormed(r)
    ensures Render(r) == (Join(r.controller, "::") + "Controller") + ['#'] + ActionText(r.action)
    ensures '#' !in Join(r.controller, "::") + "Controller"
  {
    JoinWithout(r.controller, "::", '#');
  }

  /** Distinct well-formed routes have distinct text forms, so the registry's text view loses nothing. */
  lemma RenderInjective(r1: Route, r2: Route)
    requires WellFormed(r1) && WellFormed(r2)
    requires Render(r1) == Render(r2)
    ensures r1 == r2
  {
    var j1, j2 := Join(r1.controller, "::"), Join(r2.controller, "::");
    var t1, t2 := ActionText(r1.action), ActionText(r2.action);
    RenderSplit(r1);
    RenderSplit(r2);
    SplitAtFirst(j1 + "Controller", j2 + "Controller", '#', t1, t2);
    assert j1 == (j1 + "Controller")[..|j1|];
    assert j2 == (j2 + "Controller")[..|j2|];
    JoinInjective(r1.controller, r2.controller);
  }

  /**
   * The route registry: the ordered collection of every route the recognizer
   * emits.  It only grows while a routes file is processed; nothing is
   * removed or merged, so repeated routes coexist.
   */
  class Registry {
    var routes: seq<Route>

    constructor ()
      ensures routes == []
    {
      routes := [];
    }

    /** Adds one route at the end. */
    method Append(r: Route)
      modifies this
      ensures routes == old(routes) + [r]
    {
      routes := routes + [r];
    }

    /** Empties the registry before a new analysis run. */
    method Reset()
      modifies this
      ensures routes == []
    {
      routes := [];
    }

    /** The most recently emitted route. */
    function Last(): (r: Route)
      reads this
      requires routes != []
      ensures r in routes && r == routes[|routes| - 1]
    {
      routes[|routes| - 1]
    }
  }
}
