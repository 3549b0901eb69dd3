/**
 * Whole routes files from the examples of route_prepare_spec.rb, with the
 * routes each must produce.  Each case is the call tree of a small file and
 * the exact routes `Emit` gives for it, in order.
 */
module Cases {
  import opened Wrappers
  import opened Names
  import opened Routes
  import opened Actions
  import opened CallTree
  import opened Scopes
  import opened Dispatch
  import opened Facts

  /** The outer `Rails.application.routes.draw do ... end` of a block-dialect file. */
  function Draw(body: seq<Call>): Call {
    Call(Some("RailsBestPracticesCom::Application.routes"), "draw", [], body)
  }

  /** A routes file holding `body` emits the routes of `body` from an empty stack. */
  lemma DrawFile(body: seq<Call>)
    ensures Emit([Draw(body)], []) == Emit(body, [])
  {
    EmitSingle(Draw(body), []);
    assert ShapeOf(Draw(body)) == Unrecognized;
    EmitCallUnrecognized(Draw(body), []);
  }

  /** A file of one call emits that call's routes. */
  lemma OneCallFile(c: Call)
    ensures Emit([Draw([c])], []) == EmitCall(c, [])
  {
    DrawFile([c]);
    EmitSingle(c, []);
  }

  /** The outer `ActionController::Routing::Routes.draw do |map| ... end` of an older-dialect file. */
  function MapDraw(body: seq<Call>): Call {
    Call(Some("ActionController::Routing::Routes"), "draw", [], body)
  }

  /** An older-dialect file of one call emits that call's routes. */
  lemma OneMapCallFile(c: Call)
    ensures Emit([MapDraw([c])], []) == EmitCall(c, [])
  {
    var d := MapDraw([c]);
    EmitSingle(d, []);
    assert ShapeOf(d) == Unrecognized;
    EmitCallUnrecognized(d, []);
    EmitSingle(c, []);
  }

  /** At the top of a file, without `:module`, a controller is its own path. */
  lemma TopLevelResolve(base: string, own: seq<Pair>, fr: seq<Frame>)
    requires fr == [] && Lookup("module", own).None?
    ensures Resolve(base, own, fr, true) == ControllerPath(base)
  {
    assert Prefix(fr) == [];
  }

  /** The single lower-case words of the example files, with their camelized forms. */
  predicate KnownWord(w: string, cap: string) {
    || (w == "posts" && cap == "Posts")
    || (w == "admin" && cap == "Admin")
    || (w == "test" && cap == "Test")
    || (w == "votes" && cap == "Votes")
    || (w == "internal" && cap == "Internal")
    || (w == "sprints" && cap == "Sprints")
    || (w == "sessions" && cap == "Sessions")
    || (w == "session" && cap == "Session")
    || (w == "discussions" && cap == "Discussions")
    || (w == "comments" && cap == "Comments")
    || (w == "users" && cap == "Users")
  }

  /** A word without underscores, camelized from a capital: `admin` gives `Admin`. */
  lemma CapitalWord(w: string, cap: string)
    requires KnownWord(w, cap)
    ensures w != [] && '_' !in w && '/' !in w
    ensures CamelFrom(w, true) == cap
  {
    CapitalOf(w, cap);
  }

  lemma CapitalOf(w: string, cap: string)
    requires w != [] && IsLower(w[0]) && cap == [Upper(w[0])] + w[1..]
    requires forall i :: 0 <= i < |w| ==> IsLower(w[i])
    ensures '_' !in w && '/' !in w
    ensures CamelFrom(w, true) == cap
  {
    assert forall ch :: ch in w ==> IsLower(ch);
    CamelFromPlain(w, true);
  }

  /** A single word is one controller segment: `posts` gives `Posts`. */
  lemma WordController(w: string, cap: string)
    requires KnownWord(w, cap)
    ensures ControllerPath(w) == [cap]
  {
    CapitalWord(w, cap);
    PlainControllerPath(w);
  }

  /** `resources :posts` at the top of a file, as a call. */
  function PostsCall(): Call {
    Call(None, KindName(Plural), [Sym("posts")], [])
  }

  lemma PostsRoutes()
    ensures EmitCall(PostsCall(), []) == RoutesFor(["Posts"], PluralActions)
  {
    PlainResource(Plural, None, "posts", []);
    WordController("posts", "Posts");
    assert Prefix([]) + ControllerPath("posts") == ["Posts"];
  }

  /** `resources :posts`: the seven standard actions on `PostsController`, in order. */
  lemma ResourcesPosts()
    ensures Emit([Draw([Call(None, "resources", [Sym("posts")], [])])], [])
         == RoutesFor(["Posts"], ["index", "show", "new", "create", "edit", "update", "destroy"])
  {
    assert Call(None, "resources", [Sym("posts")], []) == PostsCall();
    DrawFile([PostsCall()]);
    EmitSingle(PostsCall(), []);
    PostsRoutes();
  }

  /** `resources :posts, :users`: fourteen routes. */
  lemma ResourcesPostsUsers()
    ensures |Emit([Draw([Call(None, "resources", [Sym("posts"), Sym("users")], [])])], [])| == 14
  {
    var c := Call(None, "resources", [Sym("posts"), Sym("users")], []);
    OneCallFile(c);
    TwoNamesShape(c);
    TwoNamesCount(c, []);
  }

  lemma TwoNamesShape(c: Call)
    requires c == Call(None, "resources", [Sym("posts"), Sym("users")], [])
    ensures ShapeOf(c) == Resources(Plural) && c.body == [] && Options(c) == []
    ensures ResourceNames(c) == ["posts", "users"]
  {
    assert Positional(c) == [Sym("posts"), Sym("users")];
  }

  lemma TwoNamesCount(c: Call, fr: seq<Frame>)
    requires ShapeOf(c) == Resources(Plural) && c.body == [] && Options(c) == []
    requires |ResourceNames(c)| == 2 && fr == []
    ensures |EmitCall(c, fr)| == 14
  {
    ResourceRouteCount(c, fr);
    UnfilteredActions(Plural, [], fr);
  }

  /** The text form of a `PostsController` route. */
  lemma PostsText(a: string, t: string)
    requires t == "PostsController#" + a
    ensures Render(Route(["Posts"], Named(a))) == t
  {
    assert Join(["Posts"], "::") == "Posts";
  }

  /** The seven standard `PostsController` routes, as text. */
  lemma PostsTexts()
    ensures RenderAll(RoutesFor(["Posts"], ["index", "show", "new", "create", "edit", "update", "destroy"]))
         == ["PostsController#index", "PostsController#show", "PostsController#new", "PostsController#create",
             "PostsController#edit", "PostsController#update", "PostsController#destroy"]
  {
    PostsText("index", "PostsController#index");
    PostsText("show", "PostsController#show");
    PostsText("new", "PostsController#new");
    PostsText("create", "PostsController#create");
    PostsText("edit", "PostsController#edit");
    PostsText("update", "PostsController#update");
    PostsText("destroy", "PostsController#destroy");
  }

  /** `resources :posts`, as text: what the registry prints. */
  lemma ResourcesPostsText()
    ensures RenderAll(Emit([Draw([Call(None, "resources", [Sym("posts")], [])])], []))
         == ["PostsController#index", "PostsController#show", "PostsController#new", "PostsController#create",
             "PostsController#edit", "PostsController#update", "PostsController#destroy"]
  {
    ResourcesPosts();
    PostsTexts();
  }

  /** `resource :posts`: the six singular actions, without `index`. */
  lemma ResourcePosts()
    ensures Emit([Draw([Call(None, "resource", [Sym("posts")], [])])], [])
         == RoutesFor(["Posts"], ["show", "new", "create", "edit", "update", "destroy"])
  {
    var c := Call(None, KindName(Singular), [Sym("posts")], []);
    OneCallFile(c);
    PlainResource(Singular, None, "posts", []);
    WordController("posts", "Posts");
    assert Prefix([]) + ControllerPath("posts") == ["Posts"];
  }

  /** `resources :posts, :only => :none`: no route at all. */
  lemma OnlyNone()
    ensures Emit([Draw([Call(None, "resources", [Sym("posts"), Hash([Pair(Sym("only"), Sym("none"))])], [])])], []) == []
  {
    var c := Call(None, "resources", [Sym("posts"), Hash([Pair(Sym("only"), Sym("none"))])], []);
    OneCallFile(c);
    OnlyNoneCall(c);
  }

  lemma OnlyNoneCall(c: Call)
    requires c == Call(None, "resources", [Sym("posts"), Hash([Pair(Sym("only"), Sym("none"))])], [])
    ensures EmitCall(c, []) == []
  {
    assert [Sym("posts")] + [Hash([Pair(Sym("only"), Sym("none"))])] == c.args;
    SentinelEmitsNothing(Plural, None, [Sym("posts")], Pair(Sym("only"), Sym("none")), []);
  }

  /** `namespace :n do ... end`. */
  function NamespaceCall(n: string, body: seq<Call>): Call {
    Call(None, "namespace", [Sym(n)], body)
  }

  lemma NamespaceRoutes(n: string, body: seq<Call>, fr: seq<Frame>)
    ensures EmitCall(NamespaceCall(n, body), fr) == Emit(body, fr + [NamespaceFrame(n)])
  {
    var c := NamespaceCall(n, body);
    assert Positional(c) == [Sym(n)];
    assert ShapeOf(c) == Namespace(n);
    EmitCallBlock(c, fr);
  }

  /** A block of one call emits that call's routes. */
  lemma OneCallBlock(c: Call, fr: seq<Frame>)
    ensures Emit([c], fr) == EmitCall(c, fr)
  {
    EmitSingle(c, fr);
  }

  /** A namespace around one call: that call's routes under the pushed frame. */
  lemma NamespaceAround(n: string, c: Call, fr: seq<Frame>)
    ensures EmitCall(NamespaceCall(n, [c]), fr) == EmitCall(c, fr + [NamespaceFrame(n)])
  {
    NamespaceRoutes(n, [c], fr);
    OneCallBlock(c, fr + [NamespaceFrame(n)]);
  }

  /** `:only => [:index]` keeps just `index`. */
  lemma OnlyIndex(fr: seq<Frame>)
    requires forall f :: f in fr ==> !f.OptionsFrame?
    ensures ResourceActions(Plural, [Pair(Sym("only"), Arr([Sym("index")]))], fr) == ["index"]
  {
    OnlyOption(Plural, Arr([Sym("index")]), fr);
    OnlyIndexFilter();
    FilteredIndex();
  }

  lemma OnlyIndexFilter()
    ensures OnlyFilter(Arr([Sym("index")])) == Only(["index"])
  {
    assert Words([Sym("index")]) == ["index"];
  }

  lemma FilteredIndex()
    ensures Filtered(Standard(Plural), Only(["index"])) == ["index"]
  {
    SelectIndex();
  }

  lemma SelectIndex()
    ensures Select(PluralActions, ["index"], true) == ["index"]
  {
    var p := PluralActions;
    assert p[0] == "index";
    SelectNoneKept(p[1..], ["index"]);
  }

  lemma {:induction false} SelectNoneKept(std: seq<string>, names: seq<string>)
    requires forall a :: a in std ==> a !in names
    ensures Select(std, names, true) == []
  {
    if std != [] {
      SelectNoneKept(std[1..], names);
    }
  }

  /** `resources :name, :only => [:index]` */
  function IndexCall(name: string): Call {
    Call(None, "resources", [Sym(name), Hash([Pair(Sym("only"), Arr([Sym("index")]))])], [])
  }

  /** Under a stack without `with_options`, `resources :name, :only => [:index]` gives just the prefixed `index` route. */
  lemma IndexRoutes(name: string, fr: seq<Frame>)
    requires forall f :: f in fr ==> !f.OptionsFrame?
    ensures EmitCall(IndexCall(name), fr) == [Route(Prefix(fr) + ControllerPath(name), Named("index"))]
  {
    var own := [Pair(Sym("only"), Arr([Sym("index")]))];
    OneResourceCall(Plural, None, name, own, fr);
    OnlyIndex(fr);
    OwnController(name, own, fr);
    assert Lookup("controller", own).None? && Lookup("module", own).None?;
  }

  /** `resources :posts, :only => [:index]` */
  function PostsIndexCall(): Call {
    IndexCall("posts")
  }

  lemma PostsIndexRoutes(fr: seq<Frame>)
    requires forall f :: f in fr ==> !f.OptionsFrame?
    ensures EmitCall(PostsIndexCall(), fr) == [Route(Prefix(fr) + ["Posts"], Named("index"))]
  {
    IndexRoutes("posts", fr);
    WordController("posts", "Posts");
  }

  /** `namespace :admin do namespace :test do resources :posts, :only => [:index] end end`. */
  function NestedNamespaceFile(): Call {
    Draw([NamespaceCall("admin", [NamespaceCall("test", [PostsIndexCall()])])])
  }

  /** Nested namespaces prefix the controller outermost first: `Admin::Test::PostsController#index`. */
  lemma NestedNamespace()
    ensures Emit([NestedNamespaceFile()], []) == [Route(["Admin", "Test", "Posts"], Named("index"))]
  {
    var inner := NamespaceCall("test", [PostsIndexCall()]);
    OneCallFile(NamespaceCall("admin", [inner]));
    OuterNamespace(inner);
    InnerNamespace([NamespaceFrame("admin")]);
  }

  lemma OuterNamespace(inner: Call)
    ensures EmitCall(NamespaceCall("admin", [inner]), []) == EmitCall(inner, [NamespaceFrame("admin")])
  {
    NamespaceAround("admin", inner, []);
    assert [] + [NamespaceFrame("admin")] == [NamespaceFrame("admin")];
  }

  lemma InnerNamespace(outer: seq<Frame>)
    requires outer == [NamespaceFrame("admin")]
    ensures EmitCall(NamespaceCall("test", [PostsIndexCall()]), outer)
            == [Route(["Admin", "Test", "Posts"], Named("index"))]
  {
    NamespaceAround("test", PostsIndexCall(), outer);
    PostsUnderAdminTest(outer, outer + [NamespaceFrame("test")]);
  }

  lemma PostsUnderAdminTest(outer: seq<Frame>, fr: seq<Frame>)
    requires outer == [NamespaceFrame("admin")] && fr == outer + [NamespaceFrame("test")]
    ensures EmitCall(PostsIndexCall(), fr) == [Route(["Admin", "Test", "Posts"], Named("index"))]
  {
    assert forall f :: f in fr ==> f.NamespaceFrame?;
    PostsIndexRoutes(fr);
    AdminTestPrefix(outer, fr);
  }

  lemma AdminTestPrefix(outer: seq<Frame>, fr: seq<Frame>)
    requires outer == [NamespaceFrame("admin")] && fr == outer + [NamespaceFrame("test")]
    ensures Prefix(fr) + ["Posts"] == ["Admin", "Test", "Posts"]
  {
    assert fr[..1] == outer;
    PrefixSingle(NamespaceFrame("admin"));
    WordController("admin", "Admin");
    WordController("test", "Test");
  }

  // ---------------------------------------------------------------- scope

  /** `scope :module => "admin" do resources :posts, :only => [:index] end` */
  function ScopeModuleCall(): Call {
    Call(None, "scope", [Hash([Pair(Sym("module"), Str("admin"))])], [IndexCall("posts")])
  }

  /** `resources :discussions, :only => [:index], :module => "admin"` */
  function DiscussionsCall(): Call {
    Call(None, "resources", [Sym("discussions"), Hash(DiscussionsOptions())], [])
  }

  function DiscussionsOptions(): seq<Pair> {
    [Pair(Sym("only"), Arr([Sym("index")])), Pair(Sym("module"), Str("admin"))]
  }

  /** `scope "/admin" do resources :comments, :only => [:index] end` */
  function ScopePathCall(): Call {
    Call(None, "scope", [Str("/admin")], [IndexCall("comments")])
  }

  /** `scope "/:username", controller: :users do get '/' => :show end` */
  function ScopeUsersCall(): Call {
    Call(None, "scope", [Str("/:username"), Hash([Pair(Sym("controller"), Sym("users"))])], [ShowCall()])
  }

  /** `get '/' => :show` */
  function ShowCall(): Call {
    Call(None, "get", [Hash([Pair(Str("/"), Sym("show"))])], [])
  }

  function ScopeFile(): Call {
    Draw([ScopeModuleCall(), DiscussionsCall(), ScopePathCall(), ScopeUsersCall()])
  }

  /**
   * `scope :module` and a resource's own `:module` prefix `Admin`, a scope
   * with only a path adds nothing, and a scope's `controller:` is the
   * controller of the route inside it.
   */
  lemma ScopeRoutes()
    ensures Emit([ScopeFile()], [])
         == [Route(["Admin", "Posts"], Named("index")), Route(["Admin", "Discussions"], Named("index")),
             Route(["Comments"], Named("index")), Route(["Users"], Named("show"))]
  {
    var a, b, c, d := ScopeModuleCall(), DiscussionsCall(), ScopePathCall(), ScopeUsersCall();
    DrawFile([a, b, c, d]);
    ScopeModuleRoutes(a, []);
    DiscussionsRoutes(b, DiscussionsOptions());
    ScopePathRoutes(c, []);
    ScopeUsersRoutes(d, []);
    FourRoutes(a, b, c, d, [], Route(["Admin", "Posts"], Named("index")), Route(["Admin", "Discussions"], Named("index")),
               Route(["Comments"], Named("index")), Route(["Users"], Named("show")));
  }

  /** The routes of the scope file as the recognizer writes them. */
  lemma ScopeTexts()
    ensures RenderAll(Emit([ScopeFile()], []))
         == ["Admin::PostsController#index", "Admin::DiscussionsController#index",
             "CommentsController#index", "UsersController#show"]
  {
    ScopeRoutes();
    ScopeRouteTexts();
  }

  lemma ScopeRouteTexts()
    ensures RenderAll([Route(["Admin", "Posts"], Named("index")), Route(["Admin", "Discussions"], Named("index")),
                       Route(["Comments"], Named("index")), Route(["Users"], Named("show"))])
         == ["Admin::PostsController#index", "Admin::DiscussionsController#index",
             "CommentsController#index", "UsersController#show"]
  {
    RenderModule("Admin", "Posts", "index", "Admin::PostsController#index");
    DiscussionsText();
    PlainRouteTexts();
    RenderFour(Route(["Admin", "Posts"], Named("index")), Route(["Admin", "Discussions"], Named("index")),
               Route(["Comments"], Named("index")), Route(["Users"], Named("show")),
               "Admin::PostsController#index", "Admin::DiscussionsController#index",
               "CommentsController#index", "UsersController#show");
  }

  lemma DiscussionsText()
    ensures Render(Route(["Admin", "Discussions"], Named("index"))) == "Admin::DiscussionsController#index"
  {
    RenderModule("Admin", "Discussions", "index", "Admin::DiscussionsController#index");
  }

  lemma PlainRouteTexts()
    ensures Render(Route(["Comments"], Named("index"))) == "CommentsController#index"
    ensures Render(Route(["Users"], Named("show"))) == "UsersController#show"
  {
    RenderPlain("Comments", "index", "CommentsController#index");
    RenderPlain("Users", "show", "UsersController#show");
  }

  lemma RenderFour(ra: Route, rb: Route, rc: Route, rd: Route, ta: string, tb: string, tc: string, td: string)
    requires Render(ra) == ta && Render(rb) == tb && Render(rc) == tc && Render(rd) == td
    ensures RenderAll([ra, rb, rc, rd]) == [ta, tb, tc, td]
  {
  }

  lemma RenderModule(m: string, c: string, a: string, t: string)
    requires t == m + "::" + c + "Controller#" + a
    ensures Render(Route([m, c], Named(a))) == t
  {
    assert [m, c][1..] == [c];
    assert Join([m, c], "::") == m + "::" + c;
  }

  lemma RenderPlain(c: string, a: string, t: string)
    requires t == c + "Controller#" + a
    ensures Render(Route([c], Named(a))) == t
  {
  }

  /** Four sibling calls of one route each give those routes, in order. */
  lemma FourRoutes(a: Call, b: Call, c: Call, d: Call, fr: seq<Frame>, ra: Route, rb: Route, rc: Route, rd: Route)
    requires EmitCall(a, fr) == [ra] && EmitCall(b, fr) == [rb] && EmitCall(c, fr) == [rc] && EmitCall(d, fr) == [rd]
    ensures Emit([a, b, c, d], fr) == [ra, rb, rc, rd]
  {
    FourCalls(a, b, c, d);
    FourRouteList(ra, rb, rc, rd);
    EmitFirst(a, [b, c, d], fr);
    EmitFirst(b, [c, d], fr);
    EmitFirst(c, [d], fr);
    EmitSingle(d, fr);
  }

  lemma FourCalls(a: Call, b: Call, c: Call, d: Call)
    ensures [a, b, c, d] == [a] + [b, c, d] && [b, c, d] == [b] + [c, d] && [c, d] == [c] + [d]
  {
  }

  lemma FourRouteList(ra: Route, rb: Route, rc: Route, rd: Route)
    ensures [ra, rb, rc, rd] == [ra] + ([rb] + ([rc] + [rd]))
  {
  }

  lemma ScopeModuleRoutes(c: Call, fr: seq<Frame>)
    requires c == ScopeModuleCall() && fr == []
    ensures EmitCall(c, fr) == [Route(["Admin", "Posts"], Named("index"))]
  {
    ScopeBlock(c, fr);
    ScopeModuleFrame(c, Options(c));
    var inner := [ScopeFrame(Some("admin"), None)];
    assert fr + [ScopeFrame(Some("admin"), None)] == inner;
    OneCallBlock(IndexCall("posts"), inner);
    AdminPostsUnderScope(ScopeFrame(Some("admin"), None), inner);
  }

  lemma ScopeModuleFrame(c: Call, own: seq<Pair>)
    requires c == ScopeModuleCall() && own == Options(c)
    ensures OptionWord(Lookup("module", own)) == Some("admin") && Lookup("controller", own).None?
  {
    assert own == [Pair(Sym("module"), Str("admin"))];
  }

  lemma AdminPostsUnderScope(f: Frame, inner: seq<Frame>)
    requires f == ScopeFrame(Some("admin"), None) && inner == [f]
    ensures EmitCall(IndexCall("posts"), inner) == [Route(["Admin", "Posts"], Named("index"))]
  {
    WordController("admin", "Admin");
    WordController("posts", "Posts");
    IndexUnderModule("admin", "Admin", "posts", "Posts", f, inner);
  }

  /** `resources :name, :only => [:index]` inside `scope :module => m`. */
  lemma IndexUnderModule(m: string, capM: string, name: string, cap: string, f: Frame, inner: seq<Frame>)
    requires f == ScopeFrame(Some(m), None) && inner == [f]
    requires ControllerPath(m) == [capM] && ControllerPath(name) == [cap]
    ensures EmitCall(IndexCall(name), inner) == [Route([capM, cap], Named("index"))]
  {
    ModuleSegments(m, capM, f);
    PairList(capM, cap);
    IndexUnderFrame(name, cap, f, inner, [capM], [capM, cap]);
  }

  lemma ModuleSegments(m: string, capM: string, f: Frame)
    requires f == ScopeFrame(Some(m), None) && ControllerPath(m) == [capM]
    ensures FrameSegments(f) == [capM]
  {
  }

  lemma SingleList(x: string)
    ensures [] + [x] == [x]
  {
  }

  lemma PairList(x: string, y: string)
    ensures [x] + [y] == [x, y]
  {
  }

  /** `resources :name, :only => [:index]` inside one block that is no `with_options`. */
  lemma IndexUnderFrame(name: string, cap: string, f: Frame, inner: seq<Frame>, pre: seq<string>, path: seq<string>)
    requires inner == [f] && !f.OptionsFrame? && FrameSegments(f) == pre && ControllerPath(name) == [cap]
    requires path == pre + [cap]
    ensures EmitCall(IndexCall(name), inner) == [Route(path, Named("index"))]
  {
    IndexRoutes(name, inner);
    PrefixSingle(f);
  }

  lemma DiscussionsRoutes(c: Call, own: seq<Pair>)
    requires c == DiscussionsCall() && own == DiscussionsOptions()
    ensures EmitCall(c, []) == [Route(["Admin", "Discussions"], Named("index"))]
  {
    OneResourceCall(Plural, None, "discussions", own, []);
    DiscussionsActions(own, []);
    DiscussionsController(own, []);
  }

  lemma DiscussionsActions(own: seq<Pair>, fr: seq<Frame>)
    requires own == DiscussionsOptions() && fr == []
    ensures ResourceActions(Plural, own, fr) == ["index"]
  {
    assert Lookup("member", own).None? && Lookup("collection", own).None?;
    NoExtensions(Plural, own, fr);
    assert Lookup("only", own) == Some(Arr([Sym("index")]));
    OnlyIndexFilter();
    FilteredIndex();
  }

  lemma DiscussionsController(own: seq<Pair>, fr: seq<Frame>)
    requires own == DiscussionsOptions() && fr == []
    ensures ResourceController("discussions", own, fr) == ["Admin", "Discussions"]
  {
    DiscussionsLookups(own);
    WordController("admin", "Admin");
    WordController("discussions", "Discussions");
    ModuleController("discussions", "Discussions", "admin", "Admin", own, fr);
  }

  lemma DiscussionsLookups(own: seq<Pair>)
    requires own == DiscussionsOptions()
    ensures Lookup("controller", own).None? && Lookup("module", own) == Some(Str("admin"))
  {
    assert own[0].key == Sym("only") && own[1] == Pair(Sym("module"), Str("admin"));
  }

  /** At the top of a file, a resource's own `:module` comes before its name. */
  lemma ModuleController(name: string, cap: string, m: string, capM: string, own: seq<Pair>, fr: seq<Frame>)
    requires fr == [] && Lookup("controller", own).None? && Lookup("module", own) == Some(Str(m))
    requires ControllerPath(m) == [capM] && ControllerPath(name) == [cap]
    ensures ResourceController(name, own, fr) == [capM, cap]
  {
    OwnController(name, own, fr);
    assert Prefix(fr) == [];
  }

  lemma ScopePathRoutes(c: Call, fr: seq<Frame>)
    requires c == ScopePathCall() && fr == []
    ensures EmitCall(c, fr) == [Route(["Comments"], Named("index"))]
  {
    ScopeBlock(c, fr);
    assert Options(c) == [];
    var inner := [ScopeFrame(None, None)];
    assert fr + [ScopeFrame(None, None)] == inner;
    OneCallBlock(IndexCall("comments"), inner);
    CommentsUnderScope(ScopeFrame(None, None), inner);
  }

  lemma CommentsUnderScope(f: Frame, inner: seq<Frame>)
    requires f == ScopeFrame(None, None) && inner == [f]
    ensures EmitCall(IndexCall("comments"), inner) == [Route(["Comments"], Named("index"))]
  {
    WordController("comments", "Comments");
    IndexUnderPlainScope("comments", "Comments", f, inner);
  }

  /** `resources :name, :only => [:index]` inside a `scope` that sets no module. */
  lemma IndexUnderPlainScope(name: string, cap: string, f: Frame, inner: seq<Frame>)
    requires f == ScopeFrame(None, None) && inner == [f] && ControllerPath(name) == [cap]
    ensures EmitCall(IndexCall(name), inner) == [Route([cap], Named("index"))]
  {
    SingleList(cap);
    IndexUnderFrame(name, cap, f, inner, [], [cap]);
  }

  lemma ScopeUsersRoutes(c: Call, fr: seq<Frame>)
    requires c == ScopeUsersCall() && fr == []
    ensures EmitCall(c, fr) == [Route(["Users"], Named("show"))]
  {
    ScopeBlock(c, fr);
    assert Options(c) == [Pair(Sym("controller"), Sym("users"))];
    var inner := [ScopeFrame(None, Some(Sym("users")))];
    assert fr + [ScopeFrame(None, Some(Sym("users")))] == inner;
    OneCallBlock(ShowCall(), inner);
    ShowUnderScope(ShowCall(), Options(ShowCall()), inner);
  }

  lemma ShowUnderScope(c: Call, own: seq<Pair>, inner: seq<Frame>)
    requires c == ShowCall() && own == Options(c) && inner == [ScopeFrame(None, Some(Sym("users")))]
    ensures EmitCall(c, inner) == [Route(["Users"], Named("show"))]
  {
    ShowShape(c, own);
    ScopeControllerDefault([], None, Sym("users"));
    assert [] + [ScopeFrame(None, Some(Sym("users")))] == inner;
    SymbolTarget(c, inner, "show", Sym("users"));
    UsersResolve(own, inner);
  }

  lemma ShowShape(c: Call, own: seq<Pair>)
    requires c == ShowCall() && own == Options(c)
    ensures IsMapping(c) && c.body == [] && !HasRedirect(own)
    ensures ActionTarget(c) == Some(Sym("show"))
    ensures Lookup("controller", own).None? && Lookup("module", own).None?
  {
    assert ShapeOf(c) == Verb;
    assert own == [Pair(Str("/"), Sym("show"))];
  }

  lemma UsersResolve(own: seq<Pair>, inner: seq<Frame>)
    requires Lookup("module", own).None? && inner == [ScopeFrame(None, Some(Sym("users")))]
    ensures Resolve("users", own, inner, true) == ["Users"]
  {
    assert Inherited("module", inner, true).None?;
    PrefixIgnoresPlainFrames([], ScopeFrame(None, Some(Sym("users"))));
    assert [] + [ScopeFrame(None, Some(Sym("users")))] == inner;
    WordController("users", "Users");
  }

  // ---------------------------------------------------------------- connect

  /** `map.connect 'vote', :controller => "votes", :action => "create", :method => :post` */
  function ConnectVoteCall(): Call {
    Call(Some("map"), "connect", [Str("vote"), Hash(VoteOptions())], [])
  }

  function VoteOptions(): seq<Pair> {
    [Pair(Sym("controller"), Str("votes")), Pair(Sym("action"), Str("create")), Pair(Sym("method"), Sym("post"))]
  }

  /** `connect` with `:controller` and `:action` gives `VotesController#create`. */
  lemma ConnectVote()
    ensures Emit([MapDraw([ConnectVoteCall()])], []) == [Route(["Votes"], Named("create"))]
  {
    OneMapCallFile(ConnectVoteCall());
    ConnectVoteRoute(ConnectVoteCall(), VoteOptions());
  }

  lemma ConnectVoteRoute(c: Call, own: seq<Pair>)
    requires c == ConnectVoteCall() && own == VoteOptions()
    ensures EmitCall(c, []) == [Route(["Votes"], Named("create"))]
  {
    ConnectShape(c, own);
    VoteSettings(own);
    ControllerActionOptions(c, [], Str("votes"), Str("create"));
    VotesResolve(own);
  }

  lemma ConnectShape(c: Call, own: seq<Pair>)
    requires c == ConnectVoteCall() && own == VoteOptions()
    ensures IsMapping(c) && c.body == [] && Options(c) == own
    ensures ActionTarget(c).None? && !HasRedirect(own)
  {
    assert Positional(c) == [Str("vote")];
    assert ShapeOf(c) == Direct;
    assert forall i :: 0 <= i < |own| ==> !own[i].key.Str? && own[i].value != Redirect;
  }

  lemma VoteSettings(own: seq<Pair>)
    requires own == VoteOptions()
    ensures Setting("to", own, [], true).None?
    ensures Setting("controller", own, [], true) == Some(Str("votes"))
    ensures Setting("action", own, [], true) == Some(Str("create"))
    ensures Setting("module", own, [], true).None?
  {
    assert own[0].key == Sym("controller") && own[1].key == Sym("action") && own[2].key == Sym("method");
  }

  lemma VotesResolve(own: seq<Pair>)
    requires Setting("module", own, [], true).None?
    ensures Resolve("votes", own, [], true) == ["Votes"]
  {
    TopLevelResolve("votes", own, []);
    WordController("votes", "Votes");
  }

  // map.connect 'internal/:action/*whatever', :controller => "internal"
  function ConnectInternalCall(): Call {
    Call(Some("map"), "connect", [Str("internal/:action/*whatever"), Hash([Pair(Sym("controller"), Str("internal"))])], [])
  }

  /** A path with `:action` and no `:action` option serves every action: `InternalController#*`. */
  lemma ConnectAllActions()
    ensures Emit([MapDraw([ConnectInternalCall()])], []) == [Route(["Internal"], AnyAction)]
  {
    OneMapCallFile(ConnectInternalCall());
    ConnectInternalRoute(ConnectInternalCall(), [Pair(Sym("controller"), Str("internal"))]);
  }

  lemma ConnectInternalRoute(c: Call, own: seq<Pair>)
    requires c == ConnectInternalCall() && own == [Pair(Sym("controller"), Str("internal"))]
    ensures EmitCall(c, []) == [Route(["Internal"], AnyAction)]
  {
    InternalShape(c, own);
    InternalPathHasAction(PathOf(c));
    WildcardAction(c, [], Str("internal"));
    InternalResolve(own);
  }

  lemma InternalPathHasAction(path: string)
    requires path == "internal/:action/*whatever"
    ensures HasActionSegment(path)
  {
    ActionSegmentAnywhere("internal/", "/*whatever");
    assert "internal/" + ":action" + "/*whatever" == path;
  }

  lemma InternalShape(c: Call, own: seq<Pair>)
    requires c == ConnectInternalCall() && own == [Pair(Sym("controller"), Str("internal"))]
    ensures IsMapping(c) && c.body == [] && Options(c) == own && !HasRedirect(own)
    ensures ActionTarget(c).None? && PathOf(c) == "internal/:action/*whatever"
    ensures Setting("to", own, [], true).None? && Setting("action", own, [], true).None?
    ensures Setting("controller", own, [], true) == Some(Str("internal"))
    ensures Setting("module", own, [], true).None?
  {
    assert Positional(c) == [Str("internal/:action/*whatever")];
    assert ShapeOf(c) == Direct;
    assert own[0].value != Redirect;
  }

  lemma InternalResolve(own: seq<Pair>)
    requires Setting("module", own, [], true).None?
    ensures Resolve("internal", own, [], true) == ["Internal"]
  {
    TopLevelResolve("internal", own, []);
    WordController("internal", "Internal");
  }

  // ---------------------------------------------------------------- direct routes

  /** `post '/posts' => 'posts#create'` */
  function PostCreateCall(): Call {
    Call(None, "post", [Hash([Pair(Str("/posts"), Str("posts#create"))])], [])
  }

  /** A `"path" => "ctrl#action"` mapping gives `PostsController#create`. */
  lemma DirectPost()
    ensures Emit([Draw([PostCreateCall()])], []) == [Route(["Posts"], Named("create"))]
  {
    OneCallFile(PostCreateCall());
    PostCreateRoute(PostCreateCall(), [Pair(Str("/posts"), Str("posts#create"))], "posts", "create");
  }

  lemma PostCreateRoute(c: Call, own: seq<Pair>, ctrl: string, action: string)
    requires c == PostCreateCall() && own == [Pair(Str("/posts"), Str("posts#create"))]
    requires ctrl == "posts" && action == "create"
    ensures EmitCall(c, []) == [Route(["Posts"], Named(action))]
  {
    PostCreateShape(c, own);
    TargetSplit(c, [], ctrl, action);
    PostsResolve(own);
  }

  lemma PostCreateShape(c: Call, own: seq<Pair>)
    requires c == PostCreateCall() && own == [Pair(Str("/posts"), Str("posts#create"))]
    ensures IsMapping(c) && c.body == [] && Options(c) == own && !HasRedirect(own)
    ensures ActionTarget(c) == Some(Str("posts" + "#" + "create"))
  {
    assert ShapeOf(c) == Verb;
    assert own[0].value != Redirect;
    assert "posts" + "#" + "create" == "posts#create";
  }

  /** A `"path" => target` option is no `:module`. */
  lemma PostsResolve(own: seq<Pair>)
    requires forall i :: 0 <= i < |own| ==> !own[i].key.Sym?
    ensures Resolve("posts", own, [], true) == ["Posts"]
  {
    assert Lookup("module", own).None?;
    TopLevelResolve("posts", own, []);
    WordController("posts", "Posts");
  }

  /** `get 'posts/show'` */
  function GetShowCall(): Call {
    Call(None, "get", [Str("posts/show")], [])
  }

  /** A bare two-segment path names controller and action: `PostsController#show`. */
  lemma GetPathAlone()
    ensures Emit([Draw([GetShowCall()])], []) == [Route(["Posts"], Named("show"))]
  {
    OneCallFile(GetShowCall());
    GetShowRoute(GetShowCall(), []);
  }

  lemma GetShowRoute(c: Call, fr: seq<Frame>)
    requires c == GetShowCall() && fr == []
    ensures EmitCall(c, fr) == [Route(["Posts"], Named("show"))]
  {
    GetShowShape(c);
    PostsShowIdents("posts", "show");
    PathAlone(c, fr, "posts", "show");
    PostsResolve([]);
  }

  lemma GetShowShape(c: Call)
    requires c == GetShowCall()
    ensures ShapeOf(c) == Verb && c.body == [] && Options(c) == []
    ensures Positional(c) == [Str("posts" + "/" + "show")]
  {
    assert "posts" + "/" + "show" == "posts/show";
  }

  lemma PostsShowIdents(ctrl: string, action: string)
    requires ctrl == "posts" && action == "show"
    ensures IsIdent(ctrl) && IsIdent(action)
  {
    assert forall i :: 0 <= i < |ctrl| ==> IsLower(ctrl[i]);
    assert forall i :: 0 <= i < |action| ==> IsLower(action[i]);
  }

  // ---------------------------------------------------------------- no route

  /** `match ':controller(/:action(/:id(.:format)))'` */
  function DefaultRouteCall(): Call {
    Call(None, "match", [Str(":controller(/:action(/:id(.:format)))")], [])
  }

  /** The catch-all default route names no controller and emits nothing. */
  lemma DefaultRoute()
    ensures Emit([Draw([DefaultRouteCall()])], []) == []
  {
    OneCallFile(DefaultRouteCall());
    DefaultRouteEmpty(DefaultRouteCall(), ":controller(/:action(/:id(.:format)))");
  }

  lemma DefaultRouteEmpty(c: Call, path: string)
    requires c == DefaultRouteCall() && path == ":controller(/:action(/:id(.:format)))"
    ensures EmitCall(c, []) == []
  {
    assert ShapeOf(c) == Verb && Options(c) == [] && Positional(c) == [Str(path)];
    assert path[0] == ':';
    DynamicControllerEmitsNothing(c, [], path);
  }

  /** `match "/stories/:name" => redirect(...)` and `match "/stories" => redirect { ... }` */
  function RedirectCall(path: string): Call {
    Call(None, "match", [Hash([Pair(Str(path), Redirect)])], [])
  }

  /** Redirects emit nothing. */
  lemma Redirects()
    ensures Emit([Draw([RedirectCall("/stories/:name"), RedirectCall("/stories")])], []) == []
  {
    var a, b := RedirectCall("/stories/:name"), RedirectCall("/stories");
    DrawFile([a, b]);
    RedirectEmpty("/stories/:name", []);
    RedirectEmpty("/stories", []);
    EmitFirst(a, [b], []);
    EmitSingle(b, []);
  }

  lemma RedirectEmpty(path: string, fr: seq<Frame>)
    ensures EmitCall(RedirectCall(path), fr) == []
  {
    var c := RedirectCall(path);
    assert ShapeOf(c) == Verb;
    assert Options(c)[0].value == Redirect;
    RedirectEmitsNothing(c, fr);
  }

  /** `match ':controller/:action' => '#index', :as => :auto_complete` */
  function WrongRouteCall(): Call {
    Call(None, "match", [Hash([Pair(Str(":controller/:action"), Str("#index")), Pair(Sym("as"), Sym("auto_complete"))])], [])
  }

  /** A target with nothing before `#` emits nothing. */
  lemma WrongRoute()
    ensures Emit([Draw([WrongRouteCall()])], []) == []
  {
    OneCallFile(WrongRouteCall());
    WrongRouteEmpty(WrongRouteCall(), "#index");
  }

  lemma WrongRouteEmpty(c: Call, t: string)
    requires c == WrongRouteCall() && t == "#index"
    ensures EmitCall(c, []) == []
  {
    assert ShapeOf(c) == Verb;
    assert PathTarget(Options(c)) == Some(Str(t));
    EmptyControllerEmitsNothing(c, [], t);
  }

  // ---------------------------------------------------------------- order

  /** `rs` ends with `r`. */
  predicate LastIs(rs: seq<Route>, r: Route) {
    rs != [] && rs[|rs| - 1] == r
  }

  /** `post "sprints/stop"` */
  function SprintsStopCall(): Call {
    Call(None, "post", [Str("sprints/stop")], [])
  }

  /** `resources :posts` followed by `post "sprints/stop"`: the last route is `SprintsController#stop`, not a `posts` action. */
  lemma NotFolded()
    ensures var rs := Emit([Draw([PostsCall(), SprintsStopCall()])], []);
            rs != [] && rs[|rs| - 1] == Route(["Sprints"], Named("stop"))
  {
    NotFoldedAt(PostsCall(), SprintsStopCall(), Route(["Sprints"], Named("stop")));
  }

  lemma NotFoldedAt(posts: Call, stop: Call, r: Route)
    requires stop == SprintsStopCall() && r == Route(["Sprints"], Named("stop"))
    ensures LastIs(Emit([Draw([posts, stop])], []), r)
  {
    DrawFile([posts, stop]);
    SprintsStopRoute(stop, []);
    assert [posts, stop] == [posts] + [stop];
    LaterCallNotFolded([posts], stop, [], r);
  }

  lemma SprintsStopRoute(c: Call, fr: seq<Frame>)
    requires c == SprintsStopCall() && fr == []
    ensures EmitCall(c, fr) == [Route(["Sprints"], Named("stop"))]
  {
    SprintsStopShape(c);
    SprintsStopIdents("sprints", "stop");
    PathAlone(c, fr, "sprints", "stop");
    SprintsResolve();
  }

  lemma SprintsStopShape(c: Call)
    requires c == SprintsStopCall()
    ensures ShapeOf(c) == Verb && c.body == [] && Options(c) == []
    ensures Positional(c) == [Str("sprints" + "/" + "stop")]
  {
    assert "sprints" + "/" + "stop" == "sprints/stop";
  }

  lemma SprintsStopIdents(ctrl: string, action: string)
    requires ctrl == "sprints" && action == "stop"
    ensures IsIdent(ctrl) && IsIdent(action)
  {
    assert forall i :: 0 <= i < |ctrl| ==> IsLower(ctrl[i]);
    assert forall i :: 0 <= i < |action| ==> IsLower(action[i]);
  }

  lemma SprintsResolve()
    ensures Resolve("sprints", [], [], true) == ["Sprints"]
  {
    TopLevelResolve("sprints", [], []);
    WordController("sprints", "Sprints");
  }

  /** `resources :posts do resources :comments; post :stop end` */
  function NestedPostsCall(): Call {
    Call(None, "resources", [Sym("posts")], [Call(None, "resources", [Sym("comments")], []), StopCall()])
  }

  /** `post :stop` */
  function StopCall(): Call {
    Call(None, "post", [Sym("stop")], [])
  }

  /** A verb inside a resource block, after a nested resource, lands on the enclosing resource: the last route is `PostsController#stop`. */
  lemma CustomizeNested()
    ensures var rs := Emit([Draw([NestedPostsCall()])], []);
            rs != [] && rs[|rs| - 1] == Route(["Posts"], Named("stop"))
  {
    NestedPostsShape(NestedPostsCall(), "posts");
    CustomizeNestedAt(NestedPostsCall(), ["Posts"], Route(["Posts"], Named("stop")));
  }

  lemma CustomizeNestedAt(c: Call, ctrl: seq<string>, r: Route)
    requires ShapeOf(c) == Resources(Plural) && ResourceNames(c) == ["posts"] && Options(c) == []
    requires |c.body| == 2 && c.body[1] == StopCall()
    requires ctrl == ["Posts"] && r == Route(ctrl, Named("stop"))
    ensures LastIs(Emit([Draw([c])], []), r)
  {
    OneCallFile(c);
    var fr := [ResourceFrame(ctrl)];
    NestedPostsBlock(c, [], ctrl, fr);
    StopInPosts(c.body, ctrl, fr, r);
    LastOfConcat(RoutesFor(ctrl, PluralActions), Emit(c.body, fr), r);
  }

  lemma LastOfConcat(head: seq<Route>, tail: seq<Route>, r: Route)
    requires LastIs(tail, r)
    ensures LastIs(head + tail, r)
  {
  }

  lemma NestedPostsBlock(c: Call, top: seq<Frame>, ctrl: seq<string>, fr: seq<Frame>)
    requires ShapeOf(c) == Resources(Plural) && ResourceNames(c) == ["posts"] && Options(c) == []
    requires top == [] && ctrl == ["Posts"] && fr == [ResourceFrame(ctrl)]
    ensures EmitCall(c, top) == RoutesFor(ctrl, PluralActions) + Emit(c.body, fr)
  {
    NestedPostsNaming(c, Options(c), top, ctrl);
    assert top + [ResourceFrame(ctrl)] == fr;
    BlockWith(c, Plural, top, "posts", ctrl, PluralActions, fr);
  }

  /** A one-name resource block whose controller and actions are known. */
  lemma BlockWith(c: Call, k: Kind, top: seq<Frame>, name: string, ctrl: seq<string>, acts: seq<string>, fr: seq<Frame>)
    requires ShapeOf(c) == Resources(k) && ResourceNames(c) == [name]
    requires ctrl == ResourceController(name, Options(c), top) && ResourceActions(k, Options(c), top) == acts
    requires fr == top + [ResourceFrame(ctrl)]
    ensures EmitCall(c, top) == RoutesFor(ctrl, acts) + Emit(c.body, fr)
  {
    ResourceBlock(c, k, top, name, ctrl);
  }

  lemma NestedPostsShape(c: Call, name: string)
    requires c == NestedPostsCall() && name == "posts"
    ensures ShapeOf(c) == Resources(Plural) && ResourceNames(c) == [name] && Options(c) == []
    ensures |c.body| == 2 && c.body[1] == StopCall()
  {
    assert Positional(c) == [Sym("posts")];
  }

  lemma NestedPostsNaming(c: Call, own: seq<Pair>, top: seq<Frame>, ctrl: seq<string>)
    requires own == [] && top == [] && ctrl == ["Posts"]
    ensures ResourceController("posts", own, top) == ctrl
    ensures ResourceActions(Plural, own, top) == PluralActions
  {
    OwnController("posts", own, top);
    assert Prefix(top) == [];
    WordController("posts", "Posts");
    UnfilteredActions(Plural, own, top);
  }

  lemma StopInPosts(body: seq<Call>, ctrl: seq<string>, fr: seq<Frame>, r: Route)
    requires |body| == 2 && body[1] == StopCall() && fr == [ResourceFrame(ctrl)]
    requires r == Route(ctrl, Named("stop"))
    ensures LastIs(Emit(body, fr), r)
  {
    StopAfterComments(body[0], body[1], ctrl, fr, r);
    assert body == [body[0], body[1]];
  }

  lemma StopAfterComments(comments: Call, stop: Call, ctrl: seq<string>, fr: seq<Frame>, r: Route)
    requires stop == StopCall() && fr == [ResourceFrame(ctrl)]
    requires r == Route(ctrl, Named("stop"))
    ensures LastIs(Emit([comments, stop], fr), r)
  {
    StopAction(stop, ctrl, fr, r);
    assert [comments, stop] == [comments] + [stop];
    LaterCallNotFolded([comments], stop, fr, r);
  }

  lemma StopAction(c: Call, ctrl: seq<string>, fr: seq<Frame>, r: Route)
    requires c == StopCall() && fr == [ResourceFrame(ctrl)]
    requires r == Route(ctrl, Named("stop"))
    ensures EmitCall(c, fr) == [r]
  {
    CurrentResourcePush([], ctrl);
    assert [] + [ResourceFrame(ctrl)] == fr;
    assert ShapeOf(c) == Verb && Options(c) == [] && Positional(c) == [Sym("stop")];
    ResourceBlockAction(c, fr, ctrl, "stop");
  }

  // ---------------------------------------------------------------- named routes

  /** `map.login '/player/login', :controller => 'sessions', :action => 'new', :conditions => { :method => :get }` */
  function LoginCall(): Call {
    Call(Some("map"), "login", [Str("/player/login"), Hash(LoginOptions())], [])
  }

  function LoginOptions(): seq<Pair> {
    [Pair(Sym("controller"), Str("sessions")), Pair(Sym("action"), Str("new")),
     Pair(Sym("conditions"), Hash([Pair(Sym("method"), Sym("get"))]))]
  }

  /** A named route with `:controller` and `:action` gives `SessionsController#new`. */
  lemma NamedLogin()
    ensures Emit([MapDraw([LoginCall()])], []) == [Route(["Sessions"], Named("new"))]
  {
    OneMapCallFile(LoginCall());
    LoginRoute(LoginCall(), LoginOptions(), "sessions");
  }

  lemma LoginRoute(c: Call, own: seq<Pair>, ctrl: string)
    requires c == LoginCall() && own == LoginOptions() && ctrl == "sessions"
    ensures EmitCall(c, []) == [Route(["Sessions"], Named("new"))]
  {
    LoginShape(c, own);
    ControllerActionOptions(c, [], Str(ctrl), Str("new"));
    TopLevelResolve(ctrl, own, []);
    WordController("sessions", "Sessions");
  }

  lemma LoginShape(c: Call, own: seq<Pair>)
    requires c == LoginCall() && own == LoginOptions()
    ensures IsMapping(c) && c.body == [] && Options(c) == own && !HasRedirect(own)
    ensures ActionTarget(c).None? && Lookup("module", own).None?
    ensures Setting("to", own, [], true).None?
    ensures Setting("controller", own, [], true) == Some(Str("sessions"))
    ensures Setting("action", own, [], true) == Some(Str("new"))
  {
    assert Positional(c) == [Str("/player/login")];
    assert ShapeOf(c) == NamedRoute;
    assert own[0].key == Sym("controller") && own[1].key == Sym("action") && own[2].key == Sym("conditions");
    assert forall i :: 0 <= i < |own| ==> !own[i].key.Str? && own[i].value != Redirect;
  }

  /** `session.login '/login', :action => 'new', :method => :get` */
  function SessionLoginCall(): Call {
    Call(Some("session"), "login", [Str("/login"), Hash([Pair(Sym("action"), Str("new")), Pair(Sym("method"), Sym("get"))])], [])
  }

  /** `map.with_options(:controller => "admin_session") do |session| ... end` */
  function WithSessionCall(): Call {
    Call(Some("map"), "with_options", [Hash([Pair(Sym("controller"), Str("admin_session"))])], [SessionLoginCall()])
  }

  /** `with_options` supplies the controller of the named route inside it: `AdminSessionController#new`. */
  lemma NamedRouteWithOptions()
    ensures Emit([MapDraw([WithSessionCall()])], []) == [Route(["AdminSession"], Named("new"))]
  {
    OneMapCallFile(WithSessionCall());
    var defaults := [Pair(Sym("controller"), Str("admin_session"))];
    WithSessionBlock(WithSessionCall(), defaults, [OptionsFrame(defaults)]);
    SessionLoginRoute(SessionLoginCall(), defaults, [OptionsFrame(defaults)], "admin_session");
  }

  lemma WithSessionBlock(c: Call, defaults: seq<Pair>, fr: seq<Frame>)
    requires c == WithSessionCall() && defaults == [Pair(Sym("controller"), Str("admin_session"))]
    requires fr == [OptionsFrame(defaults)]
    ensures EmitCall(c, []) == EmitCall(SessionLoginCall(), fr)
  {
    assert ShapeOf(c) == WithOptions && Options(c) == defaults;
    assert FrameOf(c) == OptionsFrame(defaults);
    EmitCallBlock(c, []);
    assert [] + [OptionsFrame(defaults)] == fr;
    EmitSingle(SessionLoginCall(), fr);
  }

  lemma SessionLoginRoute(c: Call, defaults: seq<Pair>, fr: seq<Frame>, ctrl: string)
    requires c == SessionLoginCall() && defaults == [Pair(Sym("controller"), Str("admin_session"))]
    requires fr == [OptionsFrame(defaults)] && ctrl == "admin_session"
    ensures EmitCall(c, fr) == [Route(["AdminSession"], Named("new"))]
  {
    SessionLoginShape(c, defaults, fr, ctrl);
    ControllerActionOptions(c, fr, Str(ctrl), Str("new"));
    SessionResolve(Options(c), defaults, fr, ctrl);
  }

  lemma SessionLoginShape(c: Call, defaults: seq<Pair>, fr: seq<Frame>, ctrl: string)
    requires c == SessionLoginCall() && defaults == [Pair(Sym("controller"), Str(ctrl))]
    requires fr == [OptionsFrame(defaults)]
    ensures IsMapping(c) && c.body == [] && !HasRedirect(Options(c)) && ActionTarget(c).None?
    ensures Setting("to", Options(c), fr, true).None?
    ensures Setting("controller", Options(c), fr, true) == Some(Str(ctrl))
    ensures Setting("action", Options(c), fr, true) == Some(Str("new"))
  {
    var own := Options(c);
    assert own == [Pair(Sym("action"), Str("new")), Pair(Sym("method"), Sym("get"))];
    assert Positional(c) == [Str("/login")];
    assert ShapeOf(c) == NamedRoute;
    assert forall i :: 0 <= i < |own| ==> !own[i].key.Str? && own[i].value != Redirect;
    assert Lookup("to", own).None? && Lookup("controller", own).None?;
    OneFrameInherits("to", fr, defaults);
    OneFrameInherits("controller", fr, defaults);
  }

  lemma OneFrameInherits(key: string, fr: seq<Frame>, defaults: seq<Pair>)
    requires fr == [OptionsFrame(defaults)]
    ensures Inherited(key, fr, true) == Lookup(key, defaults)
  {
    InheritedPush(key, [], OptionsFrame(defaults), true);
    assert [] + [OptionsFrame(defaults)] == fr;
  }

  lemma SessionResolve(own: seq<Pair>, defaults: seq<Pair>, fr: seq<Frame>, ctrl: string)
    requires own == [Pair(Sym("action"), Str("new")), Pair(Sym("method"), Sym("get"))]
    requires defaults == [Pair(Sym("controller"), Str(ctrl))] && fr == [OptionsFrame(defaults)]
    requires ctrl == "admin_session"
    ensures Resolve(ctrl, own, fr, true) == ["AdminSession"]
  {
    assert Lookup("module", own).None?;
    OneFrameInherits("module", fr, defaults);
    PrefixSingle(OptionsFrame(defaults));
    AdminSessionController(ctrl, "admin", "session");
  }

  /** `admin_session` camelizes word by word to `AdminSession`. */
  lemma AdminSessionController(s: string, x: string, y: string)
    requires x == "admin" && y == "session" && s == "admin_session"
    ensures ControllerPath(s) == ["AdminSession"]
  {
    AdminSessionSplit(s, x, y);
    PlainControllerPath(s);
    AdminSessionCamel(x, y, "AdminSession");
  }

  lemma AdminSessionSplit(s: string, x: string, y: string)
    requires x == "admin" && y == "session" && s == "admin_session"
    ensures s == x + "_" + y && '/' !in s
  {
  }

  lemma AdminSessionCamel(x: string, y: string, t: string)
    requires x == "admin" && y == "session" && t == "AdminSession"
    ensures CamelFrom(x + "_" + y, true) == t
  {
    CamelFromUnderscore(x, y, true);
    CapitalWord(x, "Admin");
    CapitalWord(y, "Session");
    assert "Admin" + "Session" == t;
  }

}
