/**
 * The recognizer's meaning: which routes, in which order, a sequence of
 * routes-DSL calls emits under a stack of frames.  `Emit` is the
 * specification the imperative recognizer is proved against.
 */
module Dispatch {
  import opened Wrappers
  import opened Names
  import opened Routes
  import opened Actions
  import opened CallTree
  import opened Scopes

  /** The call shapes the recognizer tells apart, decided by the call's name and argument shapes only. */
  datatype Shape =
    | Resources(kind: Kind)      // resources / resource
    | Namespace(name: string)    // namespace :admin do ... end
    | Scope                      // scope "/admin" do ... end, scope :module => "admin" do ... end
    | WithOptions                // with_options(:controller => ..) do |x| ... end
    | Verb                       // get / post / put / delete / match
    | Direct                     // connect / root
    | NamedRoute                 // map.login '/player/login', :controller => .., :action => ..
    | Unrecognized               // anything else: draw, collection, member, helpers

  const Verbs: set<string> := {"get", "post", "put", "delete", "match"}

  /** The first positional name of a call, if it is a symbol or a string. */
  function FirstWord(c: Call): Option<string> {
    if Positional(c) != [] then Word(Positional(c)[0]) else None
  }

  function ShapeOf(c: Call): Shape {
    if c.name == "resources" then Resources(Plural)
    else if c.name == "resource" then Resources(Singular)
    else if c.name == "namespace" && FirstWord(c).Some? then Namespace(FirstWord(c).value)
    else if c.name == "scope" then Scope
    else if c.name == "with_options" then WithOptions
    else if c.name in Verbs then Verb
    else if c.name == "connect" || c.name == "root" then Direct
    else if c.receiver.Some? && Positional(c) != [] && Positional(c)[0].Str? then NamedRoute
    else Unrecognized
  }

  // ---------------------------------------------------------------- controllers

  /** The segments an optional `:module` adds. */
  function ModuleSegments(m: Option<Value>): seq<string> {
    match OptionWord(m)
    case Some(name) => ControllerPath(name)
    case None => []
  }

  /** The fully qualified controller of `base`: the stack's prefix, then the `:module` segments, then `base` itself. */
  function Resolve(base: string, own: seq<Pair>, fr: seq<Frame>, direct: bool): (ctrl: seq<string>)
    ensures |Prefix(fr)| + |ControllerPath(base)| <= |ctrl|
    ensures ctrl[..|Prefix(fr)|] == Prefix(fr)
    ensures ctrl[|ctrl| - |ControllerPath(base)|..] == ControllerPath(base)
  {
    var pre := Prefix(fr) + ModuleSegments(Setting("module", own, fr, direct));
    assert (pre + ControllerPath(base))[..|Prefix(fr)|] == Prefix(fr);
    pre + ControllerPath(base)
  }

  // ---------------------------------------------------------------- resources

  /** The base names of a resource declaration: its positional symbols and strings. */
  function ResourceNames(c: Call): seq<string> {
    Words(Positional(c))
  }

  /** The action names an option value lists: array items, hash keys, or a single name. */
  function NamesIn(v: Value): seq<string> {
    match v
    case Arr(items) => Words(items)
    case Hash(pairs) => Words(Keys(pairs))
    case Sym(n) => [n]
    case Str(t) => [t]
    case _ => []
  }

  function ExtensionNames(v: Option<Value>): seq<string> {
    if v.Some? then NamesIn(v.value) else []
  }

  function OnlyFilter(v: Value): Filter {
    if v == Sym("none") then NoActions else if v == Sym("all") then Unfiltered else Only(NamesIn(v))
  }

  function ExceptFilter(v: Value): Filter {
    if v == Sym("all") then NoActions else if v == Sym("none") then Unfiltered else Except(NamesIn(v))
  }

  /** `:only` decides when present; otherwise `:except`; otherwise nothing is filtered. */
  function ResourceFilter(own: seq<Pair>, fr: seq<Frame>): Filter {
    match Setting("only", own, fr, false)
    case Some(v) => OnlyFilter(v)
    case None =>
      match Setting("except", own, fr, false)
      case Some(v) => ExceptFilter(v)
      case None => Unfiltered
  }

  function ResourceActions(k: Kind, own: seq<Pair>, fr: seq<Frame>): seq<string> {
    Synthesize(k, ResourceFilter(own, fr),
               ExtensionNames(Setting("member", own, fr, false)),
               ExtensionNames(Setting("collection", own, fr, false)))
  }

  /** The controller of one base name: the explicit `:controller` when given, else the name. */
  function ResourceController(name: string, own: seq<Pair>, fr: seq<Frame>): seq<string> {
    var base := OptionWord(Setting("controller", own, fr, false));
    Resolve(if base.Some? then base.value else name, own, fr, false)
  }

  /** One route per action, all on `ctrl`, in the order of `actions`. */
  function RoutesFor(ctrl: seq<string>, actions: seq<string>): (rs: seq<Route>)
    ensures |rs| == |actions|
    ensures forall k :: 0 <= k < |rs| ==> rs[k] == Route(ctrl, Named(actions[k]))
  {
    if actions == [] then []
    else RoutesFor(ctrl, actions[..|actions| - 1]) + [Route(ctrl, Named(actions[|actions| - 1]))]
  }

  /** One more action adds its route at the end. */
  lemma RoutesForPrefix(ctrl: seq<string>, actions: seq<string>, j: nat)
    requires j < |actions|
    ensures RoutesFor(ctrl, actions[..j + 1]) == RoutesFor(ctrl, actions[..j]) + [Route(ctrl, Named(actions[j]))]
  {
    var pre := actions[..j + 1];
    assert pre[..|pre| - 1] == actions[..j];
  }

  // ---------------------------------------------------------------- direct routes

  /** Some option of the call is a `redirect(...)`. */
  predicate HasRedirect(own: seq<Pair>) {
    exists i :: 0 <= i < |own| && own[i].value == Redirect
  }

  /** The target of the first `"path" => target` pair, the one keyed by a string. */
  function PathTarget(own: seq<Pair>): (t: Option<Value>)
    ensures t.Some? ==> exists i :: 0 <= i < |own| && own[i].key.Str? && own[i].value == t.value
    ensures t.None? ==> forall i :: 0 <= i < |own| ==> !own[i].key.Str?
  {
    if own == [] then None
    else if own[0].key.Str? then Some(own[0].value)
    else
      var t := PathTarget(own[1..]);
      assert t.Some? ==> exists i :: 0 <= i < |own[1..]| && own[1..][i].key.Str? && own[1..][i].value == t.value;
      assert t.Some? ==> exists i :: 0 <= i < |own| && own[i].key.Str? && own[i].value == t.value by {
        if t.Some? {
          var i :| 0 <= i < |own[1..]| && own[1..][i].key.Str? && own[1..][i].value == t.value;
          assert own[i + 1] == own[1..][i];
        }
      }
      t
  }

  /** The action a call names directly: `"path" => :show`, or a leading symbol as in `post :stop`. */
  function ActionTarget(c: Call): Option<Value> {
    var t := PathTarget(Options(c));
    if t.Some? then t
    else if Positional(c) != [] && Positional(c)[0].Sym? then Some(Positional(c)[0])
    else None
  }

  /** The path a call maps: its first positional string, or empty. */
  function PathOf(c: Call): string {
    if Positional(c) != [] && Positional(c)[0].Str? then Positional(c)[0].text else ""
  }

  /** The path has a dynamic `:action` segment. */
  predicate HasActionSegment(path: string) {
    |path| >= 7 && (path[..7] == ":action" || HasActionSegment(path[1..]))
  }

  /** A plain identifier: letters, digits and `_`, at least one. */
  predicate IsIdent(s: string) {
    |s| > 0 && forall i :: 0 <= i < |s| ==> IsLower(s[i]) || IsUpper(s[i]) || IsDigit(s[i]) || s[i] == '_'
  }

  /** `"ctrl#action"`: no route when there is no `#`, or the controller or action part is empty. */
  function TargetRoute(t: string, own: seq<Pair>, fr: seq<Frame>): (r: Option<Route>)
    ensures r.Some? ==> '#' in t && r.value.action.Named? && r.value.action.name != "" && '#' !in r.value.action.name
    ensures |t| > 0 && t[0] == '#' ==> r.None?
  {
    var parts := Split(t, '#');
    assert |t| > 0 && t[0] == '#' ==> IndexOf(t, '#') == 0;
    if |parts| < 2 || parts[0] == "" || parts[1] == "" then None
    else
      assert parts[1] in parts;
      Some(Route(Resolve(parts[0], own, fr, true), Named(parts[1])))
  }

  /** `get 'posts/show'`: a path of two plain segments names the controller and the action. */
  function PathRoute(path: string, own: seq<Pair>, fr: seq<Frame>): (r: Option<Route>)
    ensures r.Some? ==> r.value.action.Named? && IsIdent(r.value.action.name)
  {
    var p := if |path| > 0 && path[0] == '/' then path[1..] else path;
    var parts := Split(p, '/');
    if |parts| == 2 && IsIdent(parts[0]) && IsIdent(parts[1])
    then Some(Route(Resolve(parts[0], own, fr, true), Named(parts[1])))
    else None
  }

  /**
   * The route of a direct mapping (`get`, `post`, `put`, `delete`, `match`,
   * `connect`, `root`, a named route), if any.  `pathAlone` allows the
   * `get 'posts/show'` form.
   */
  function Mapping(c: Call, fr: seq<Frame>, pathAlone: bool): Option<Route> {
    var own := Options(c);
    if HasRedirect(own) then None
    else match ActionTarget(c)
      case Some(Str(t)) => TargetRoute(t, own, fr)
      case Some(Sym(a)) =>
        (match CurrentResource(fr)
         case Some(rc) => Some(Route(rc, Named(a)))
         case None =>
           (match OptionWord(Setting("controller", own, fr, true))
            case Some(ctrl) => Some(Route(Resolve(ctrl, own, fr, true), Named(a)))
            case None => None))
      case Some(_) => None
      case None =>
        match Setting("to", own, fr, true)
        case Some(Str(t)) => TargetRoute(t, own, fr)
        case _ =>
          match OptionWord(Setting("controller", own, fr, true))
          case Some(ctrl) =>
            (match OptionWord(Setting("action", own, fr, true))
             case Some(a) => Some(Route(Resolve(ctrl, own, fr, true), Named(a)))
             case None =>
               if HasActionSegment(PathOf(c)) then Some(Route(Resolve(ctrl, own, fr, true), AnyAction)) else None)
          case None =>
            if pathAlone then PathRoute(PathOf(c), own, fr) else None
  }

  function AsSeq(r: Option<Route>): (rs: seq<Route>)
    ensures |rs| <= 1
    ensures r.Some? ==> rs == [r.value]
    ensures r.None? ==> rs == []
  {
    if r.Some? then [r.value] else []
  }

  /** The frame a block-opening call pushes. */
  function FrameOf(c: Call): Frame {
    match ShapeOf(c)
    case Namespace(n) => NamespaceFrame(n)
    case Scope =>
      var own := Options(c);
      ScopeFrame(OptionWord(Lookup("module", own)), Lookup("controller", own))
    case _ => OptionsFrame(Options(c))
  }

  // ---------------------------------------------------------------- the traversal

  /** The routes of the calls `cs`, in order, each call under the same stack `fr`. */
  function Emit(cs: seq<Call>, fr: seq<Frame>): seq<Route>
    decreases SizeAll(cs), 3
  {
    if cs == [] then [] else Emit(cs[..|cs| - 1], fr) + EmitCall(cs[|cs| - 1], fr)
  }

  /** The routes of one call and its block. */
  function EmitCall(c: Call, fr: seq<Frame>): seq<Route>
    decreases Size(c), 2
  {
    match ShapeOf(c)
    case Resources(k) => EmitNames(c, k, ResourceNames(c), fr)
    case Namespace(_) => Emit(c.body, fr + [FrameOf(c)])
    case Scope => Emit(c.body, fr + [FrameOf(c)])
    case WithOptions => Emit(c.body, fr + [FrameOf(c)])
    case Verb => AsSeq(Mapping(c, fr, true)) + Emit(c.body, fr)
    case Direct => AsSeq(Mapping(c, fr, false)) + Emit(c.body, fr)
    case NamedRoute => AsSeq(Mapping(c, fr, false)) + Emit(c.body, fr)
    case Unrecognized => Emit(c.body, fr)
  }

  /** Each base name in turn: its actions, then its block under a resource frame. */
  function EmitNames(c: Call, k: Kind, names: seq<string>, fr: seq<Frame>): seq<Route>
    decreases Size(c), 1, |names|
  {
    if names == [] then []
    else
      var ctrl := ResourceController(names[|names| - 1], Options(c), fr);
      EmitNames(c, k, names[..|names| - 1], fr)
        + RoutesFor(ctrl, ResourceActions(k, Options(c), fr))
        + Emit(c.body, fr + [ResourceFrame(ctrl)])
  }
}
