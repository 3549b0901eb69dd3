/**
 * What the recognizer promises, stated over its specification `Emit`:
 * routes appear in declaration order, frames are scoped to their blocks,
 * resource declarations expand to their synthesized actions, and the
 * no-route shapes emit nothing.
 */
module Facts {
  import opened Wrappers
  import opened Names
  import opened Routes
  import opened Actions
  import opened CallTree
  import opened Scopes
  import opened Dispatch

  // ---------------------------------------------------------------- one call, by shape

  /** The mapping shapes: verbs, `connect`, `root` and named routes. */
  predicate IsMapping(c: Call) {
    ShapeOf(c).Verb? || ShapeOf(c).Direct? || ShapeOf(c).NamedRoute?
  }

  lemma EmitCallResources(c: Call, fr: seq<Frame>)
    requires ShapeOf(c).Resources?
    ensures EmitCall(c, fr) == EmitNames(c, ShapeOf(c).kind, ResourceNames(c), fr)
  {
    match ShapeOf(c)
    case Resources(k) =>
  }

  lemma EmitCallMapping(c: Call, fr: seq<Frame>)
    requires IsMapping(c)
    ensures EmitCall(c, fr) == AsSeq(Mapping(c, fr, ShapeOf(c) == Verb)) + Emit(c.body, fr)
  {
    match ShapeOf(c)
    case Verb =>
    case Direct =>
    case NamedRoute =>
  }

  /** The routes of the last base name come after those of the names before it: its actions, then its block. */
  lemma EmitNamesStep(c: Call, k: Kind, names: seq<string>, fr: seq<Frame>, ctrl: seq<string>)
    requires names != [] && ctrl == ResourceController(names[|names| - 1], Options(c), fr)
    ensures EmitNames(c, k, names, fr)
         == EmitNames(c, k, names[..|names| - 1], fr)
            + RoutesFor(ctrl, ResourceActions(k, Options(c), fr))
            + Emit(c.body, fr + [ResourceFrame(ctrl)])
  {
  }

  /** A block-opening call emits its block's routes under the frame it pushes. */
  lemma EmitCallBlock(c: Call, fr: seq<Frame>)
    requires ShapeOf(c).Namespace? || ShapeOf(c).Scope? || ShapeOf(c).WithOptions?
    ensures EmitCall(c, fr) == Emit(c.body, fr + [FrameOf(c)])
  {
    match ShapeOf(c)
    case Namespace(_) =>
    case Scope =>
    case WithOptions =>
  }

  /**
   * `scope ... do ... end` runs its block under a scope frame holding its
   * `:module` (a controller prefix) and its `:controller` (a default for the
   * direct routes inside).
   */
  lemma ScopeBlock(c: Call, fr: seq<Frame>)
    requires c.name == "scope"
    ensures EmitCall(c, fr)
         == Emit(c.body, fr + [ScopeFrame(OptionWord(Lookup("module", Options(c))), Lookup("controller", Options(c)))])
  {
    assert ShapeOf(c) == Scope;
    EmitCallBlock(c, fr);
  }

  /** A call the recognizer does not know emits only its block's routes, under the same stack. */
  lemma EmitCallUnrecognized(c: Call, fr: seq<Frame>)
    requires ShapeOf(c) == Unrecognized
    ensures EmitCall(c, fr) == Emit(c.body, fr)
  {
  }

  /** Taking one more call of a run adds that call's routes at the end. */
  lemma EmitPrefix(cs: seq<Call>, i: nat, fr: seq<Frame>)
    requires i < |cs|
    ensures Emit(cs[..i + 1], fr) == Emit(cs[..i], fr) + EmitCall(cs[i], fr)
  {
    var pre := cs[..i + 1];
    assert pre[..|pre| - 1] == cs[..i];
    assert pre[|pre| - 1] == cs[i];
    EmitLast(pre, fr);
  }

  /** Taking one more base name adds that name's actions and block at the end. */
  lemma EmitNamesPrefix(c: Call, k: Kind, names: seq<string>, i: nat, fr: seq<Frame>, ctrl: seq<string>)
    requires i < |names| && ctrl == ResourceController(names[i], Options(c), fr)
    ensures EmitNames(c, k, names[..i + 1], fr)
         == EmitNames(c, k, names[..i], fr)
            + (RoutesFor(ctrl, ResourceActions(k, Options(c), fr)) + Emit(c.body, fr + [ResourceFrame(ctrl)]))
  {
    var pre := names[..i + 1];
    assert pre[..|pre| - 1] == names[..i];
    assert pre[|pre| - 1] == names[i];
    EmitNamesStep(c, k, pre, fr, ctrl);
    var done := EmitNames(c, k, names[..i], fr);
    var routes := RoutesFor(ctrl, ResourceActions(k, Options(c), fr));
    var block := Emit(c.body, fr + [ResourceFrame(ctrl)]);
    Regroup(done, routes, block, done + routes, routes + block);
  }

  /** The routes of one base name whose block is empty. */
  lemma EmitOneName(c: Call, k: Kind, names: seq<string>, fr: seq<Frame>)
    requires names != [] && c.body == []
    ensures EmitNames(c, k, names, fr)
         == EmitNames(c, k, names[..|names| - 1], fr)
            + RoutesFor(ResourceController(names[|names| - 1], Options(c), fr), ResourceActions(k, Options(c), fr))
  {
    var ctrl := ResourceController(names[|names| - 1], Options(c), fr);
    assert Emit(c.body, fr + [ResourceFrame(ctrl)]) == [];
  }

  // ---------------------------------------------------------------- order and scoping

  /** The last call's routes come after those of the calls before it. */
  lemma EmitLast(cs: seq<Call>, fr: seq<Frame>)
    requires cs != []
    ensures Emit(cs, fr) == Emit(cs[..|cs| - 1], fr) + EmitCall(cs[|cs| - 1], fr)
  {
  }

  /** Appending to a run of calls: the routes of its last call come after the others'. */
  lemma EmitSnoc(a: seq<Call>, b: seq<Call>, fr: seq<Frame>)
    requires b != []
    ensures Emit(a + b, fr) == Emit(a + b[..|b| - 1], fr) + EmitCall(b[|b| - 1], fr)
  {
    var ab := a + b;
    assert ab[..|ab| - 1] == a + b[..|b| - 1];
    assert ab[|ab| - 1] == b[|b| - 1];
    EmitLast(ab, fr);
  }

  lemma Regroup(x: seq<Route>, y: seq<Route>, z: seq<Route>, xy: seq<Route>, yz: seq<Route>)
    requires xy == x + y && yz == y + z
    ensures xy + z == x + yz
  {
  }

  /** The routes of two runs of calls are those of the first run followed by those of the second. */
  lemma {:induction false} EmitConcat(a: seq<Call>, b: seq<Call>, fr: seq<Frame>)
    ensures Emit(a + b, fr) == Emit(a, fr) + Emit(b, fr)
    decreases |b|
  {
    if b == [] {
      assert a + b == a;
    } else {
      var n := |b| - 1;
      EmitSnoc(a, b, fr);
      EmitConcat(a, b[..n], fr);
      EmitLast(b, fr);
      Regroup(Emit(a, fr), Emit(b[..n], fr), EmitCall(b[n], fr), Emit(a + b[..n], fr), Emit(b, fr));
    }
  }

  lemma EmitSingle(c: Call, fr: seq<Frame>)
    ensures Emit([c], fr) == EmitCall(c, fr)
  {
    assert [c][..0] == [];
  }

  /**
   * A call that emits one route, written after any other calls (a closed
   * `resources` among them), is the registry's last route, whatever came
   * before: it is never folded into an earlier resource.
   */
  lemma LaterCallNotFolded(before: seq<Call>, c: Call, fr: seq<Frame>, r: Route)
    requires EmitCall(c, fr) == [r]
    ensures Emit(before + [c], fr) == Emit(before, fr) + [r]
    ensures Emit(before + [c], fr)[|Emit(before + [c], fr)| - 1] == r
  {
    EmitConcat(before, [c], fr);
    EmitSingle(c, fr);
  }

  /** The calls after `c` run under the same stack as `c`: nothing `c` opens reaches them. */
  lemma EmitFirst(c: Call, rest: seq<Call>, fr: seq<Frame>)
    ensures Emit([c] + rest, fr) == EmitCall(c, fr) + Emit(rest, fr)
  {
    EmitConcat([c], rest, fr);
    EmitSingle(c, fr);
  }

  /**
   * A `namespace`, `scope` or `with_options` frame reaches only the calls in
   * its block: the calls after it see the stack as it was before.
   */
  lemma BlockFrameScoped(c: Call, rest: seq<Call>, fr: seq<Frame>)
    requires ShapeOf(c).Namespace? || ShapeOf(c).Scope? || ShapeOf(c).WithOptions?
    ensures Emit([c] + rest, fr) == Emit(c.body, fr + [FrameOf(c)]) + Emit(rest, fr)
  {
    EmitFirst(c, rest, fr);
  }

  /** `collection do ... end` and `member do ... end` add their calls in place, under the same stack. */
  lemma ExtensionBlockTransparent(c: Call, fr: seq<Frame>)
    requires c.name == "collection" || c.name == "member"
    requires c.args == []
    ensures EmitCall(c, fr) == Emit(c.body, fr)
  {
    assert Positional(c) == [];
    assert ShapeOf(c) == Unrecognized;
  }

  // ---------------------------------------------------------------- resource declarations

  /** Without a block, each base name gets the full synthesized action set, so the count multiplies. */
  lemma {:induction false} ResourceNamesCount(c: Call, k: Kind, names: seq<string>, fr: seq<Frame>)
    requires c.body == []
    ensures |EmitNames(c, k, names, fr)| == |names| * |ResourceActions(k, Options(c), fr)|
    decreases |names|
  {
    if names != [] {
      var n := |names| - 1;
      ResourceNamesCount(c, k, names[..n], fr);
      EmitOneName(c, k, names, fr);
      assert |names| * |ResourceActions(k, Options(c), fr)|
          == n * |ResourceActions(k, Options(c), fr)| + |ResourceActions(k, Options(c), fr)|;
    }
  }

  /** `resources :posts, :users` emits twice the routes of `resources :posts`. */
  lemma ResourceRouteCount(c: Call, fr: seq<Frame>)
    requires ShapeOf(c).Resources? && c.body == []
    ensures |EmitCall(c, fr)| == |ResourceNames(c)| * |ResourceActions(ShapeOf(c).kind, Options(c), fr)|
  {
    EmitCallResources(c, fr);
    ResourceNamesCount(c, ShapeOf(c).kind, ResourceNames(c), fr);
  }

  /** One base name without a block: its actions on its controller, in order. */
  lemma OneResource(c: Call, fr: seq<Frame>, name: string)
    requires ShapeOf(c).Resources? && c.body == [] && ResourceNames(c) == [name]
    ensures EmitCall(c, fr)
         == RoutesFor(ResourceController(name, Options(c), fr), ResourceActions(ShapeOf(c).kind, Options(c), fr))
  {
    EmitCallResources(c, fr);
    EmitOneName(c, ShapeOf(c).kind, [name], fr);
    assert [name][..0] == [];
  }

  /** The keyword that declares a resource of kind `k`. */
  function KindName(k: Kind): string {
    if k == Plural then "resources" else "resource"
  }

  lemma ActionsInOrder(k: Kind, own: seq<Pair>, fr: seq<Frame>)
    ensures ResourceActions(k, own, fr)
         == Filtered(Standard(k), ResourceFilter(own, fr))
            + ExtensionNames(Setting("member", own, fr, false))
            + ExtensionNames(Setting("collection", own, fr, false))
  {
  }

  /** Options a resource declaration neither gives nor inherits leave the standard actions whole. */
  lemma UnfilteredActions(k: Kind, own: seq<Pair>, fr: seq<Frame>)
    requires forall f :: f in fr ==> !f.OptionsFrame?
    requires Lookup("only", own).None? && Lookup("except", own).None?
    requires Lookup("member", own).None? && Lookup("collection", own).None?
    ensures ResourceActions(k, own, fr) == Standard(k)
  {
    NoInheritedResourceOptions("only", fr);
    NoInheritedResourceOptions("except", fr);
    NoInheritedResourceOptions("member", fr);
    NoInheritedResourceOptions("collection", fr);
    assert ResourceFilter(own, fr) == Unfiltered;
    ActionsInOrder(k, own, fr);
  }

  /**
   * Without inherited defaults, a resource's controller is the stack's
   * prefix, then its own `:module` segments, then its own `:controller` when
   * given and its base name otherwise.
   */
  lemma OwnController(name: string, own: seq<Pair>, fr: seq<Frame>)
    requires forall f :: f in fr ==> !f.OptionsFrame?
    ensures var base := OptionWord(Lookup("controller", own));
            ResourceController(name, own, fr)
              == Prefix(fr) + ModuleSegments(Lookup("module", own))
                 + ControllerPath(if base.Some? then base.value else name)
  {
    NoInheritedResourceOptions("controller", fr);
    NoInheritedResourceOptions("module", fr);
    assert Setting("module", own, fr, false) == Lookup("module", own);
    assert Setting("controller", own, fr, false) == Lookup("controller", own);
  }

  /** A one-name resource declaration without options or block: its routes are its actions on its controller. */
  lemma BareResourceCall(k: Kind, receiver: Option<string>, name: string, fr: seq<Frame>)
    ensures EmitCall(Call(receiver, KindName(k), [Sym(name)], []), fr)
         == RoutesFor(ResourceController(name, [], fr), ResourceActions(k, [], fr))
  {
    var c := Call(receiver, KindName(k), [Sym(name)], []);
    assert Options(c) == [];
    assert Positional(c) == [Sym(name)];
    assert ShapeOf(c) == Resources(k);
    assert ResourceNames(c) == [name];
    OneResource(c, fr, name);
  }

  /** A one-name resource declaration with options and no block: its routes are its actions on its controller. */
  lemma OneResourceCall(k: Kind, receiver: Option<string>, name: string, own: seq<Pair>, fr: seq<Frame>)
    ensures EmitCall(Call(receiver, KindName(k), [Sym(name), Hash(own)], []), fr)
         == RoutesFor(ResourceController(name, own, fr), ResourceActions(k, own, fr))
  {
    var c := Call(receiver, KindName(k), [Sym(name), Hash(own)], []);
    assert Options(c) == own;
    assert Positional(c) == [Sym(name)];
    assert ShapeOf(c) == Resources(k);
    assert ResourceNames(c) == [name];
    OneResource(c, fr, name);
  }

  /** `:controller` and `:module` leave the action set alone. */
  lemma NamingOptionActions(k: Kind, key: string, v: Value, fr: seq<Frame>)
    requires key == "controller" || key == "module"
    requires forall f :: f in fr ==> !f.OptionsFrame?
    ensures ResourceActions(k, [Pair(Sym(key), v)], fr) == Standard(k)
  {
    UnfilteredActions(k, [Pair(Sym(key), v)], fr);
  }

  lemma ControllerOptionController(name: string, ctrl: Value, base: string, fr: seq<Frame>)
    requires Word(ctrl) == Some(base)
    requires forall f :: f in fr ==> !f.OptionsFrame?
    ensures ResourceController(name, [Pair(Sym("controller"), ctrl)], fr) == Prefix(fr) + ControllerPath(base)
  {
    var own := [Pair(Sym("controller"), ctrl)];
    OwnController(name, own, fr);
    assert Lookup("controller", own) == Some(ctrl);
    assert Lookup("module", own) == None;
  }

  lemma ModuleOptionController(name: string, m: string, fr: seq<Frame>)
    requires forall f :: f in fr ==> !f.OptionsFrame?
    ensures ResourceController(name, [Pair(Sym("module"), Str(m))], fr) == Prefix(fr) + ControllerPath(m) + ControllerPath(name)
  {
    var own := [Pair(Sym("module"), Str(m))];
    OwnController(name, own, fr);
    assert Lookup("module", own) == Some(Str(m));
    assert Lookup("controller", own) == None;
  }

  /**
   * With no options and no inherited defaults, `resources :x` emits the seven
   * standard actions on `X` in their fixed order, and `resource :x` the six
   * without `index`, both under the enclosing namespaces.
   */
  lemma PlainResource(k: Kind, receiver: Option<string>, name: string, fr: seq<Frame>)
    requires forall f :: f in fr ==> !f.OptionsFrame?
    ensures EmitCall(Call(receiver, KindName(k), [Sym(name)], []), fr)
         == RoutesFor(Prefix(fr) + ControllerPath(name), Standard(k))
  {
    BareResourceCall(k, receiver, name, fr);
    UnfilteredActions(k, [], fr);
    OwnController(name, [], fr);
  }

  /** An explicit `:controller` replaces the base name: `resources :posts, :controller => :blog_posts` routes to `BlogPosts`. */
  lemma ExplicitController(k: Kind, receiver: Option<string>, name: string, ctrl: Value, base: string, fr: seq<Frame>)
    requires Word(ctrl) == Some(base)
    requires forall f :: f in fr ==> !f.OptionsFrame?
    ensures EmitCall(Call(receiver, KindName(k), [Sym(name), Hash([Pair(Sym("controller"), ctrl)])], []), fr)
         == RoutesFor(Prefix(fr) + ControllerPath(base), Standard(k))
  {
    OneResourceCall(k, receiver, name, [Pair(Sym("controller"), ctrl)], fr);
    NamingOptionActions(k, "controller", ctrl, fr);
    ControllerOptionController(name, ctrl, base, fr);
  }

  /** A resource's own `:module` adds its segments after the enclosing prefix: `:module => "admin"` gives `Admin::Discussions`. */
  lemma ModuleOption(k: Kind, receiver: Option<string>, name: string, m: string, fr: seq<Frame>)
    requires forall f :: f in fr ==> !f.OptionsFrame?
    ensures EmitCall(Call(receiver, KindName(k), [Sym(name), Hash([Pair(Sym("module"), Str(m))])], []), fr)
         == RoutesFor(Prefix(fr) + ControllerPath(m) + ControllerPath(name), Standard(k))
  {
    OneResourceCall(k, receiver, name, [Pair(Sym("module"), Str(m))], fr);
    NamingOptionActions(k, "module", Str(m), fr);
    ModuleOptionController(name, m, fr);
  }

  /**
   * `:only => [..]` keeps the listed standard actions and `:except => [..]`
   * the others, both in the standard order.
   */
  lemma FilterOptions(k: Kind, v: Value, fr: seq<Frame>)
    requires forall f :: f in fr ==> !f.OptionsFrame?
    ensures ResourceActions(k, [Pair(Sym("only"), v)], fr) == Filtered(Standard(k), OnlyFilter(v))
    ensures ResourceActions(k, [Pair(Sym("except"), v)], fr) == Filtered(Standard(k), ExceptFilter(v))
  {
    OnlyOption(k, v, fr);
    ExceptOption(k, v, fr);
  }

  /** The sentinels: `:only => :none` and `:except => :all` keep no action. */
  lemma SentinelActions(k: Kind, fr: seq<Frame>)
    requires forall f :: f in fr ==> !f.OptionsFrame?
    ensures ResourceActions(k, [Pair(Sym("only"), Sym("none"))], fr) == []
    ensures ResourceActions(k, [Pair(Sym("except"), Sym("all"))], fr) == []
  {
    OnlyOption(k, Sym("none"), fr);
    ExceptOption(k, Sym("all"), fr);
    assert OnlyFilter(Sym("none")) == NoActions;
    assert ExceptFilter(Sym("all")) == NoActions;
  }

  lemma OnlyOption(k: Kind, v: Value, fr: seq<Frame>)
    requires forall f :: f in fr ==> !f.OptionsFrame?
    ensures ResourceActions(k, [Pair(Sym("only"), v)], fr) == Filtered(Standard(k), OnlyFilter(v))
  {
    var own := [Pair(Sym("only"), v)];
    NoExtensions(k, own, fr);
    assert Lookup("only", own) == Some(v);
  }

  lemma ExceptOption(k: Kind, v: Value, fr: seq<Frame>)
    requires forall f :: f in fr ==> !f.OptionsFrame?
    ensures ResourceActions(k, [Pair(Sym("except"), v)], fr) == Filtered(Standard(k), ExceptFilter(v))
  {
    var own := [Pair(Sym("except"), v)];
    NoExtensions(k, own, fr);
    ExceptAlone(own, v, fr);
  }

  lemma ExceptAlone(own: seq<Pair>, v: Value, fr: seq<Frame>)
    requires forall f :: f in fr ==> !f.OptionsFrame?
    requires own == [Pair(Sym("except"), v)]
    ensures ResourceFilter(own, fr) == ExceptFilter(v)
  {
    NoInheritedResourceOptions("only", fr);
    assert Lookup("only", own).None? && Lookup("except", own) == Some(v);
  }

  /** Without `:member` and `:collection`, given or inherited, the actions are just the filtered standard ones. */
  lemma NoExtensions(k: Kind, own: seq<Pair>, fr: seq<Frame>)
    requires forall f :: f in fr ==> !f.OptionsFrame?
    requires Lookup("member", own).None? && Lookup("collection", own).None?
    ensures ResourceActions(k, own, fr) == Filtered(Standard(k), ResourceFilter(own, fr))
  {
    NoInheritedResourceOptions("member", fr);
    NoInheritedResourceOptions("collection", fr);
    ActionsInOrder(k, own, fr);
    var std := Filtered(Standard(k), ResourceFilter(own, fr));
    assert std + [] + [] == std;
  }

  /** A sentinel filter with no extensions: every base name emits nothing. */
  lemma {:induction false} SentinelNamesEmitNothing(c: Call, k: Kind, names: seq<string>, fr: seq<Frame>)
    requires c.body == [] && ResourceActions(k, Options(c), fr) == []
    ensures EmitNames(c, k, names, fr) == []
    decreases |names|
  {
    if names != [] {
      SentinelNamesEmitNothing(c, k, names[..|names| - 1], fr);
      EmitOneName(c, k, names, fr);
    }
  }

  /** `resources :posts, :only => :none` and `resource :posts, :except => :all` emit no route at all. */
  lemma SentinelEmitsNothing(k: Kind, receiver: Option<string>, names: seq<Value>, sentinel: Pair, fr: seq<Frame>)
    requires sentinel == Pair(Sym("only"), Sym("none")) || sentinel == Pair(Sym("except"), Sym("all"))
    requires forall v :: v in names ==> v.Sym?
    requires forall f :: f in fr ==> !f.OptionsFrame?
    ensures EmitCall(Call(receiver, KindName(k), names + [Hash([sentinel])], []), fr) == []
  {
    var c := Call(receiver, KindName(k), names + [Hash([sentinel])], []);
    assert Options(c) == [sentinel];
    assert ShapeOf(c) == Resources(k);
    SentinelActions(k, fr);
    EmitCallResources(c, fr);
    SentinelNamesEmitNothing(c, k, ResourceNames(c), fr);
  }

  /**
   * Extensions given as options come after the filtered standard actions,
   * member actions before collection actions even when `:collection` is
   * written first.
   */
  lemma ExtensionOptions(k: Kind, only: Value, collection: Value, member: Value, fr: seq<Frame>)
    requires forall f :: f in fr ==> !f.OptionsFrame?
    ensures ResourceActions(k, [Pair(Sym("only"), only), Pair(Sym("collection"), collection), Pair(Sym("member"), member)], fr)
         == Filtered(Standard(k), OnlyFilter(only)) + NamesIn(member) + NamesIn(collection)
  {
    var own := [Pair(Sym("only"), only), Pair(Sym("collection"), collection), Pair(Sym("member"), member)];
    assert Setting("only", own, fr, false) == Some(only) by {
      assert Lookup("only", own) == Some(only);
    }
    assert Setting("member", own, fr, false) == Some(member) by {
      assert own[1..][1..] == [Pair(Sym("member"), member)];
      assert Lookup("member", own[1..]) == Some(member);
    }
    assert Setting("collection", own, fr, false) == Some(collection) by {
      assert own[1..] == [Pair(Sym("collection"), collection), Pair(Sym("member"), member)];
      assert Lookup("collection", own) == Some(collection);
    }
    ActionsInOrder(k, own, fr);
  }

  /** The hash form `:member => { :create => :post }` lists the same actions as the array form `:member => [:create]`. */
  lemma HashFormIsArrayForm(pairs: seq<Pair>)
    ensures NamesIn(Hash(pairs)) == NamesIn(Arr(Keys(pairs)))
  {
  }

  // ---------------------------------------------------------------- resource blocks

  /**
   * Inside a resource block, `get :list, :on => :collection`, `post :stop` or
   * `put :update` in a `member` block is one route on the enclosing
   * resource's controller, emitted where it is written.
   */
  lemma ResourceBlockAction(c: Call, fr: seq<Frame>, rc: seq<string>, a: string)
    requires CurrentResource(fr) == Some(rc)
    requires ShapeOf(c) == Verb && c.body == []
    requires Positional(c) != [] && Positional(c)[0] == Sym(a)
    requires PathTarget(Options(c)).None? && !HasRedirect(Options(c))
    ensures EmitCall(c, fr) == [Route(rc, Named(a))]
  {
  }

  /**
   * A one-name resource's block runs under a resource frame after the
   * resource's own routes; with `EmitFirst`, the calls after it run under the
   * stack as it was, so they never see that resource.
   */
  lemma ResourceBlock(c: Call, k: Kind, fr: seq<Frame>, name: string, ctrl: seq<string>)
    requires ShapeOf(c) == Resources(k) && ResourceNames(c) == [name]
    requires ctrl == ResourceController(name, Options(c), fr)
    ensures EmitCall(c, fr) == RoutesFor(ctrl, ResourceActions(k, Options(c), fr)) + Emit(c.body, fr + [ResourceFrame(ctrl)])
  {
    EmitCallResources(c, fr);
    EmitNamesStep(c, k, [name], fr, ctrl);
    FirstName(c, k, fr, name);
    DropEmpty(EmitNames(c, k, [name], fr), EmitNames(c, k, [name][..0], fr),
              RoutesFor(ctrl, ResourceActions(k, Options(c), fr)), Emit(c.body, fr + [ResourceFrame(ctrl)]));
  }

  lemma FirstName(c: Call, k: Kind, fr: seq<Frame>, name: string)
    ensures EmitNames(c, k, [name][..0], fr) == []
  {
    assert [name][..0] == [];
  }

  lemma DropEmpty(e: seq<Route>, e0: seq<Route>, a: seq<Route>, b: seq<Route>)
    requires e == e0 + a + b && e0 == []
    ensures e == a + b
  {
  }

  // ---------------------------------------------------------------- direct routes

  /** `"ctrl#action"` with both parts present names exactly that controller and action. */
  lemma TargetRouteSplit(ctrl: string, action: string, own: seq<Pair>, fr: seq<Frame>)
    requires ctrl != "" && action != "" && '#' !in ctrl && '#' !in action
    ensures TargetRoute(ctrl + "#" + action, own, fr) == Some(Route(Resolve(ctrl, own, fr, true), Named(action)))
  {
    SplitTwo(ctrl, '#', action);
    assert ctrl + "#" + action == ctrl + ['#'] + action;
  }

  /** A mapping emits its route, if any, followed by the routes of its block. */
  lemma MappingRoute(c: Call, fr: seq<Frame>, r: Route)
    requires IsMapping(c) && c.body == []
    requires Mapping(c, fr, true) == Some(r) && Mapping(c, fr, false) == Some(r)
    ensures EmitCall(c, fr) == [r]
  {
    EmitCallMapping(c, fr);
  }

  /** `"path" => "ctrl#action"` emits exactly that route; `/` in the controller becomes `::`. */
  lemma TargetSplit(c: Call, fr: seq<Frame>, ctrl: string, action: string)
    requires IsMapping(c) && c.body == [] && !HasRedirect(Options(c))
    requires ActionTarget(c) == Some(Str(ctrl + "#" + action))
    requires ctrl != "" && action != "" && '#' !in ctrl && '#' !in action
    ensures EmitCall(c, fr) == [Route(Resolve(ctrl, Options(c), fr, true), Named(action))]
  {
    TargetRouteSplit(ctrl, action, Options(c), fr);
    TargetMapping(c, fr, ctrl + "#" + action, true);
    TargetMapping(c, fr, ctrl + "#" + action, false);
    MappingRoute(c, fr, Route(Resolve(ctrl, Options(c), fr, true), Named(action)));
  }

  lemma TargetMapping(c: Call, fr: seq<Frame>, t: string, pathAlone: bool)
    requires !HasRedirect(Options(c)) && ActionTarget(c) == Some(Str(t))
    ensures Mapping(c, fr, pathAlone) == TargetRoute(t, Options(c), fr)
  {
  }

  /** The same through `:to =>`: `get "/login", to: 'sessions#new'`. */
  lemma ToOption(c: Call, fr: seq<Frame>, ctrl: string, action: string)
    requires IsMapping(c) && c.body == [] && !HasRedirect(Options(c))
    requires ActionTarget(c).None?
    requires Setting("to", Options(c), fr, true) == Some(Str(ctrl + "#" + action))
    requires ctrl != "" && action != "" && '#' !in ctrl && '#' !in action
    ensures EmitCall(c, fr) == [Route(Resolve(ctrl, Options(c), fr, true), Named(action))]
  {
    TargetRouteSplit(ctrl, action, Options(c), fr);
    ToMapping(c, fr, ctrl + "#" + action, true);
    ToMapping(c, fr, ctrl + "#" + action, false);
    MappingRoute(c, fr, Route(Resolve(ctrl, Options(c), fr, true), Named(action)));
  }

  lemma ToMapping(c: Call, fr: seq<Frame>, t: string, pathAlone: bool)
    requires !HasRedirect(Options(c)) && ActionTarget(c).None?
    requires Setting("to", Options(c), fr, true) == Some(Str(t))
    ensures Mapping(c, fr, pathAlone) == TargetRoute(t, Options(c), fr)
  {
  }

  /** `:controller` and `:action` options, the call's own or inherited from `with_options` or `scope`, give one route. */
  lemma ControllerActionOptions(c: Call, fr: seq<Frame>, ctrl: Value, action: Value)
    requires IsMapping(c) && c.body == [] && !HasRedirect(Options(c))
    requires ActionTarget(c).None? && !Setting("to", Options(c), fr, true).Some?
    requires Setting("controller", Options(c), fr, true) == Some(ctrl) && (ctrl.Sym? || ctrl.Str?)
    requires Setting("action", Options(c), fr, true) == Some(action) && (action.Sym? || action.Str?)
    ensures EmitCall(c, fr) == [Route(Resolve(Word(ctrl).value, Options(c), fr, true), Named(Word(action).value))]
  {
    ControllerActionMapping(c, fr, ctrl, action, true);
    ControllerActionMapping(c, fr, ctrl, action, false);
    MappingRoute(c, fr, Route(Resolve(Word(ctrl).value, Options(c), fr, true), Named(Word(action).value)));
  }

  lemma ControllerActionMapping(c: Call, fr: seq<Frame>, ctrl: Value, action: Value, pathAlone: bool)
    requires !HasRedirect(Options(c))
    requires ActionTarget(c).None? && Setting("to", Options(c), fr, true).None?
    requires Setting("controller", Options(c), fr, true) == Some(ctrl) && (ctrl.Sym? || ctrl.Str?)
    requires Setting("action", Options(c), fr, true) == Some(action) && (action.Sym? || action.Str?)
    ensures Mapping(c, fr, pathAlone) == Some(Route(Resolve(Word(ctrl).value, Options(c), fr, true), Named(Word(action).value)))
  {
  }

  /**
   * `get '/' => :show` outside any resource block: the action is the symbol,
   * and the controller is the call's own or inherited `:controller`, for
   * instance the `controller:` of an enclosing `scope`.
   */
  lemma SymbolTarget(c: Call, fr: seq<Frame>, a: string, ctrl: Value)
    requires IsMapping(c) && c.body == [] && !HasRedirect(Options(c))
    requires ActionTarget(c) == Some(Sym(a)) && CurrentResource(fr).None?
    requires Setting("controller", Options(c), fr, true) == Some(ctrl) && (ctrl.Sym? || ctrl.Str?)
    ensures EmitCall(c, fr) == [Route(Resolve(Word(ctrl).value, Options(c), fr, true), Named(a))]
  {
    SymbolMapping(c, fr, a, ctrl, true);
    SymbolMapping(c, fr, a, ctrl, false);
    MappingRoute(c, fr, Route(Resolve(Word(ctrl).value, Options(c), fr, true), Named(a)));
  }

  lemma SymbolMapping(c: Call, fr: seq<Frame>, a: string, ctrl: Value, pathAlone: bool)
    requires !HasRedirect(Options(c))
    requires ActionTarget(c) == Some(Sym(a)) && CurrentResource(fr).None?
    requires Setting("controller", Options(c), fr, true) == Some(ctrl) && (ctrl.Sym? || ctrl.Str?)
    ensures Mapping(c, fr, pathAlone) == Some(Route(Resolve(Word(ctrl).value, Options(c), fr, true), Named(a)))
  {
  }

  /** The same outside any resource block and without a controller, given or inherited: no route. */
  lemma SymbolWithoutControllerEmitsNothing(c: Call, fr: seq<Frame>, a: string)
    requires IsMapping(c) && c.body == [] && !HasRedirect(Options(c))
    requires ActionTarget(c) == Some(Sym(a)) && CurrentResource(fr).None?
    requires Setting("controller", Options(c), fr, true).None?
    ensures EmitCall(c, fr) == []
  {
    assert Mapping(c, fr, ShapeOf(c) == Verb).None?;
    EmitCallMapping(c, fr);
  }

  /** A path with a dynamic `:action` segment, a controller and no action gives the wildcard route `Ctrl#*`. */
  lemma WildcardAction(c: Call, fr: seq<Frame>, ctrl: Value)
    requires IsMapping(c) && c.body == [] && !HasRedirect(Options(c))
    requires ActionTarget(c).None? && Setting("to", Options(c), fr, true).None?
    requires Setting("controller", Options(c), fr, true) == Some(ctrl) && (ctrl.Sym? || ctrl.Str?)
    requires Setting("action", Options(c), fr, true).None?
    requires HasActionSegment(PathOf(c))
    ensures EmitCall(c, fr) == [Route(Resolve(Word(ctrl).value, Options(c), fr, true), AnyAction)]
  {
    WildcardMapping(c, fr, ctrl, true);
    WildcardMapping(c, fr, ctrl, false);
    MappingRoute(c, fr, Route(Resolve(Word(ctrl).value, Options(c), fr, true), AnyAction));
  }

  lemma WildcardMapping(c: Call, fr: seq<Frame>, ctrl: Value, pathAlone: bool)
    requires !HasRedirect(Options(c))
    requires ActionTarget(c).None? && Setting("to", Options(c), fr, true).None?
    requires Setting("controller", Options(c), fr, true) == Some(ctrl) && (ctrl.Sym? || ctrl.Str?)
    requires Setting("action", Options(c), fr, true).None?
    requires HasActionSegment(PathOf(c))
    ensures Mapping(c, fr, pathAlone) == Some(Route(Resolve(Word(ctrl).value, Options(c), fr, true), AnyAction))
  {
  }

  /** An `:action` segment anywhere in a path is found, whatever precedes or follows it. */
  lemma {:induction false} ActionSegmentAnywhere(head: string, tail: string)
    ensures HasActionSegment(head + ":action" + tail)
    decreases |head|
  {
    var path := head + ":action" + tail;
    if head == [] {
      assert path[..7] == ":action";
    } else {
      ActionSegmentAnywhere(head[1..], tail);
      assert path[1..] == head[1..] + ":action" + tail;
    }
  }

  /** A plain identifier has no `/` in it. */
  lemma IdentHasNoSlash(s: string)
    requires IsIdent(s)
    ensures '/' !in s && s[0] != '/'
  {
  }

  /** `'posts/show'` and `'/posts/show'` split into controller and action. */
  lemma PathRouteSplit(ctrl: string, action: string, own: seq<Pair>, fr: seq<Frame>)
    requires IsIdent(ctrl) && IsIdent(action)
    ensures PathRoute(ctrl + "/" + action, own, fr) == Some(Route(Resolve(ctrl, own, fr, true), Named(action)))
  {
    IdentHasNoSlash(ctrl);
    IdentHasNoSlash(action);
    SplitTwo(ctrl, '/', action);
    assert ctrl + "/" + action == ctrl + ['/'] + action;
  }

  /** `get 'posts/show'`: a bare two-segment path names the controller and the action. */
  lemma PathAlone(c: Call, fr: seq<Frame>, ctrl: string, action: string)
    requires ShapeOf(c) == Verb && c.body == [] && Options(c) == []
    requires Positional(c) == [Str(ctrl + "/" + action)]
    requires IsIdent(ctrl) && IsIdent(action)
    requires Inherited("to", fr, true).None? && Inherited("controller", fr, true).None?
    ensures EmitCall(c, fr) == [Route(Resolve(ctrl, [], fr, true), Named(action))]
  {
    PathAloneMapping(c, fr, ctrl + "/" + action);
    PathRouteSplit(ctrl, action, [], fr);
    VerbRoute(c, fr, Route(Resolve(ctrl, [], fr, true), Named(action)));
  }

  lemma PathAloneMapping(c: Call, fr: seq<Frame>, path: string)
    requires ShapeOf(c) == Verb && Options(c) == [] && Positional(c) == [Str(path)]
    requires Inherited("to", fr, true).None? && Inherited("controller", fr, true).None?
    ensures Mapping(c, fr, true) == PathRoute(path, [], fr)
  {
    PathOnly(c, path);
    assert !HasRedirect(Options(c));
  }

  lemma PathOnly(c: Call, path: string)
    requires Options(c) == [] && Positional(c) == [Str(path)]
    ensures PathOf(c) == path && ActionTarget(c).None?
  {
  }

  /** A verb without a block emits just its mapping's route. */
  lemma VerbRoute(c: Call, fr: seq<Frame>, r: Route)
    requires ShapeOf(c) == Verb && c.body == [] && Mapping(c, fr, true) == Some(r)
    ensures EmitCall(c, fr) == [r]
  {
    EmitCallMapping(c, fr);
  }

  // ---------------------------------------------------------------- no route

  /** Any mapping whose target is a `redirect(...)`, argument or block form, emits nothing. */
  lemma RedirectEmitsNothing(c: Call, fr: seq<Frame>)
    requires IsMapping(c) && c.body == [] && HasRedirect(Options(c))
    ensures EmitCall(c, fr) == []
  {
  }

  /** A `"ctrl#action"` target with nothing before the `#` (`'#index'`) is malformed and emits nothing. */
  lemma EmptyControllerEmitsNothing(c: Call, fr: seq<Frame>, t: string)
    requires IsMapping(c) && c.body == []
    requires ActionTarget(c) == Some(Str(t)) && |t| > 0 && t[0] == '#'
    ensures EmitCall(c, fr) == []
  {
  }

  /**
   * The default catch-all `match ':controller(/:action(/:id(.:format)))'`,
   * and any bare path whose controller segment is dynamic, emits nothing
   * when the stack inherits no `to:` or `:controller` default.
   */
  lemma DynamicControllerEmitsNothing(c: Call, fr: seq<Frame>, path: string)
    requires ShapeOf(c) == Verb && c.body == [] && Options(c) == []
    requires Positional(c) == [Str(path)]
    requires |path| > 0 && path[0] == ':'
    requires Inherited("to", fr, true).None? && Inherited("controller", fr, true).None?
    ensures EmitCall(c, fr) == []
  {
    PathAloneMapping(c, fr, path);
    DynamicPathNoRoute(path, fr);
    EmitCallMapping(c, fr);
  }

  /** A bare path whose first segment starts with `:` names no controller. */
  lemma DynamicPathNoRoute(path: string, fr: seq<Frame>)
    requires |path| > 0 && path[0] == ':'
    ensures PathRoute(path, [], fr).None?
  {
    var parts := Split(path, '/');
    assert parts[0] == path[..|parts[0]|];
    if |parts[0]| > 0 {
      assert parts[0][0] == ':';
      assert !IsIdent(parts[0]);
    }
  }
}
