# Route recognizer of the rails_best_practices prepare step

rails_best_practices runs a prepare pass over `config/routes.rb` before its
rule checks.  The pass walks the routes file and records every route as a
`Controller#action` pair.  Checks such as "restrict auto-generated routes"
compare controller actions against this list.  The pass understands both
routes dialects:

- the older `ActionController::Routing::Routes.draw do |map| map.resources ... end`;
- the block dialect `Application.routes.draw do resources ... end`.

This project models that recognizer.  Its input is the call tree the Ruby
parser would deliver.  Its output is the ordered registry of routes.

Modules:

- `CallTree` holds the input: calls with an optional receiver, positional
  arguments, a trailing options hash and a block.
- `Names` holds the camelize inflection and the `/` to `::` controller path,
  with their round-trip and injectivity lemmas.
- `Actions` is the action-set synthesizer.  It expands `resources` to seven
  standard actions and `resource` to six.  It applies `:only` and `:except`,
  including the `:none` and `:all` sentinels, and appends the member and
  collection extensions.
- `Scopes` is the frame stack opened by `namespace`, `scope`, `with_options`
  and resource blocks.  It gives the controller prefix, inherited option
  defaults and the enclosing resource.
- `Dispatch` is the controller resolver and mapping interpreter.  It also
  defines `Emit`, the reference definition of which routes a run of calls
  produces, in order.
- `Facts` proves what `Emit` promises: composition, scoping, counts, filters,
  the direct-mapping forms and the cases that give no route.
- `Routes` holds the route value, its text form (`Admin::Test::PostsController#index`,
  `InternalController#*`) and the `Registry` object that routes are appended to.
- `Recognizer` is the stateful walker.  It keeps a stack of frames, pushes
  one per block and pops it at the block's end, and appends to the
  registry.  Every walking method is proved to append exactly what `Emit`
  specifies and to restore the stack.
- `Cases` states the outcome of the individual examples in route_prepare_spec.rb
  as lemmas about `Emit`.  `Recognizer.Prepare` makes them hold for the
  registry too.

## Model

| member | source | states |
|---|---|---|
| Names.Camelize | spec/rails_best_practices/prepares/route_prepare_spec.rb:31-41 | the camelized name holds no `_`, and a name starting with a lower-case letter yields one starting with an upper-case letter (`blog_posts` to `BlogPosts`) |
| Names.CamelFromUnderscore | spec/rails_best_practices/prepares/route_prepare_spec.rb:31-41 | an `_` splits a name into words camelized separately, each later word capitalised |
| Names.CamelFromPlain | spec/rails_best_practices/prepares/route_prepare_spec.rb:274-284 | a name without `_` only has its first letter changed (`posts` to `Posts`) |
| Names.CamelizeRoundTrip | spec/rails_best_practices/prepares/route_prepare_spec.rb:297-307 | Underscore undoes Camelize on every snake_case name, so no controller name is lost |
| Names.CamelizeInjective | spec/rails_best_practices/prepares/route_prepare_spec.rb:297-307 | two different snake_case names never give the same camelized name |
| Names.Split | spec/rails_best_practices/prepares/route_prepare_spec.rb:519-533 | a split has at least one part, no part holds the separator, and the first part is a prefix of the text |
| Names.SplitJoin | spec/rails_best_practices/prepares/route_prepare_spec.rb:519-533 | joining the parts of a split with the separator gives the original text back (round trip) |
| Names.SplitTwo | spec/rails_best_practices/prepares/route_prepare_spec.rb:519-533 | `x/y` with no `/` in either part splits into exactly `[x, y]` |
| Names.ControllerPath | spec/rails_best_practices/prepares/route_prepare_spec.rb:126-139 | one camelized segment per `/`-separated part of a controller name; no segment holds `_` or `/`, and a name without `/` is a single segment |
| Names.PlainControllerPath | spec/rails_best_practices/prepares/route_prepare_spec.rb:274-284 | a controller name without `/` is one camelized segment |
| Names.ControllerPathInjective | spec/rails_best_practices/prepares/route_prepare_spec.rb:519-533 | different snake_case controller paths give different segment lists |
| Routes.RenderSplit | spec/rails_best_practices/prepares/route_prepare_spec.rb:8-18 | the text form is the `::`-joined controller plus `Controller`, a single `#`, then the action |
| Routes.JoinInjective | spec/rails_best_practices/prepares/route_prepare_spec.rb:126-139 | joining non-empty, colon-free segments with `::` is lossless |
| Routes.RenderInjective | spec/rails_best_practices/prepares/route_prepare_spec.rb:8-18 | distinct well-formed routes print differently, so the text view loses nothing |
| Routes.Registry.constructor | spec/rails_best_practices/prepares/route_prepare_spec.rb:8-18 | a new registry holds no route |
| Routes.Registry.Append | spec/rails_best_practices/prepares/route_prepare_spec.rb:617-627 | appends exactly one route at the end and keeps every earlier route |
| Routes.Registry.Reset | spec/rails_best_practices/prepares/route_prepare_spec.rb:8-18 | empties the registry before another routes file is prepared |
| CallTree.Positional | spec/rails_best_practices/prepares/route_prepare_spec.rb:20-29 | the arguments before the options hash: a prefix of the argument list that leaves out exactly the trailing hash, if there is one |
| CallTree.Lookup | spec/rails_best_practices/prepares/route_prepare_spec.rb:31-41 | an option is missing exactly when no pair has its key, and otherwise is the value of the first pair with it |
| CallTree.Words | spec/rails_best_practices/prepares/route_prepare_spec.rb:20-29 | the names of all-symbol arguments, one per argument and in order (`resources :posts, :users`) |
| Actions.Standard | spec/rails_best_practices/prepares/route_prepare_spec.rb:143-153 | seven standard actions for `resources`; six for `resource`, without `index` |
| Actions.Select | spec/rails_best_practices/prepares/route_prepare_spec.rb:43-65 | keeps exactly the standard actions whose membership in the list matches the filter kind, in the standard order |
| Actions.Synthesize | spec/rails_best_practices/prepares/route_prepare_spec.rb:89-111 | the filtered standard actions, in standard order, then the member actions, then the collection actions; an action is in the leading block exactly when it is standard and the filter keeps it |
| Actions.FilteredKeeps | spec/rails_best_practices/prepares/route_prepare_spec.rb:43-65 | an action survives a filter exactly when it is standard and the filter lets it through (both directions) |
| Actions.FilterMembership | spec/rails_best_practices/prepares/route_prepare_spec.rb:43-65 | `:only` keeps exactly the listed standard actions and `:except` exactly the unlisted ones (both directions) |
| Actions.OnlyIgnoresOrder | spec/rails_best_practices/prepares/route_prepare_spec.rb:309-319 | the order of the `:only` list does not change the result; the standard order wins |
| Actions.OnlyExceptPartition | spec/rails_best_practices/prepares/route_prepare_spec.rb:43-65 | `:only => xs` and `:except => xs` together account for every standard action exactly once |
| Actions.FilteredIsSubsequence | spec/rails_best_practices/prepares/route_prepare_spec.rb:43-65 | a filtered action list keeps the standard order |
| Actions.SelectIsSubsequence | spec/rails_best_practices/prepares/route_prepare_spec.rb:321-331 | `:only` and `:except` lists are subsequences of the standard order |
| Actions.SingularIsPluralWithoutIndex | spec/rails_best_practices/prepares/route_prepare_spec.rb:143-153 | the singular action list is the plural one with `:except => [:index]` |
| Scopes.PrefixPush | spec/rails_best_practices/prepares/route_prepare_spec.rb:483-496 | opening a block appends its segments after the enclosing prefix |
| Scopes.PrefixConcat | spec/rails_best_practices/prepares/route_prepare_spec.rb:483-496 | the prefix of a stack is the outer part's prefix followed by the inner part's |
| Scopes.NestedNamespaces | spec/rails_best_practices/prepares/route_prepare_spec.rb:483-496 | `namespace :admin` around `namespace :test` prefixes `Admin` then `Test` |
| Scopes.PrefixIgnoresPlainFrames | spec/rails_best_practices/prepares/route_prepare_spec.rb:498-516 | a scope without `:module`, `with_options` and a resource block leave the controller prefix unchanged |
| Scopes.ScopeModulePrefix | spec/rails_best_practices/prepares/route_prepare_spec.rb:498-516 | `scope :module => m` appends the camelized segments of `m` to the controller prefix (`Admin::PostsController`) |
| Scopes.Inherited | spec/rails_best_practices/prepares/route_prepare_spec.rb:246-257 | an inherited default is missing exactly when no frame supplies it; otherwise it is the default of the innermost frame that does |
| Scopes.NoInheritedResourceOptions | spec/rails_best_practices/prepares/route_prepare_spec.rb:498-516 | without `with_options` frames a resource declaration inherits no option, so a scope's `controller:` does not reach it |
| Scopes.InheritedPush | spec/rails_best_practices/prepares/route_prepare_spec.rb:246-257 | a new frame's default shadows the outer ones, and a frame without one leaves them visible |
| Scopes.CurrentResource | spec/rails_best_practices/prepares/route_prepare_spec.rb:448-468 | there is no enclosing resource exactly when no frame is a resource block; otherwise it is the controller of the innermost resource frame |
| Scopes.CurrentResourcePush | spec/rails_best_practices/prepares/route_prepare_spec.rb:603-615 | inside a resource block the enclosing resource is that block's, however deep the outer nesting |
| Scopes.ScopeControllerDefault | spec/rails_best_practices/prepares/route_prepare_spec.rb:498-516 | inside `scope controller: c` a direct route's controller defaults to `c`, while resource declarations keep what they inherited before |
| Dispatch.Resolve | spec/rails_best_practices/prepares/route_prepare_spec.rb:498-516 | the resolved controller starts with the stack's namespace and module prefix and ends with the camelized base name |
| Dispatch.RoutesFor | spec/rails_best_practices/prepares/route_prepare_spec.rb:8-18 | one route per action, all on the same controller, in the order of the actions |
| Dispatch.PathTarget | spec/rails_best_practices/prepares/route_prepare_spec.rb:519-533 | the target of a `"path" => target` pair, present exactly when some option key is a string |
| Dispatch.TargetRoute | spec/rails_best_practices/prepares/route_prepare_spec.rb:629-638 | a `ctrl#action` target gives a named, non-empty action; a target starting with `#` gives no route |
| Dispatch.PathRoute | spec/rails_best_practices/prepares/route_prepare_spec.rb:519-533 | a bare path route always names an identifier action |
| Facts.EmitConcat | spec/rails_best_practices/prepares/route_prepare_spec.rb:617-627 | the routes of two runs of calls are the first run's routes followed by the second's |
| Facts.EmitFirst | spec/rails_best_practices/prepares/route_prepare_spec.rb:617-627 | the calls after a call run under the same stack as that call |
| Facts.BlockFrameScoped | spec/rails_best_practices/prepares/route_prepare_spec.rb:483-496 | a namespace, scope or `with_options` frame reaches only the calls in its block, not the siblings after it |
| Facts.LaterCallNotFolded | spec/rails_best_practices/prepares/route_prepare_spec.rb:617-627 | a later sibling's route is appended after everything before it and becomes the last route |
| Facts.ScopeBlock | spec/rails_best_practices/prepares/route_prepare_spec.rb:498-516 | a `scope` emits exactly its block's routes, under one more frame carrying its `:module` and `controller:` |
| Facts.ExtensionBlockTransparent | spec/rails_best_practices/prepares/route_prepare_spec.rb:448-468 | `collection do` and `member do` blocks add their calls in place under the enclosing resource |
| Facts.ResourceNamesCount | spec/rails_best_practices/prepares/route_prepare_spec.rb:20-29 | without a block each base name gets the full action set, so the count is names times actions |
| Facts.ResourceRouteCount | spec/rails_best_practices/prepares/route_prepare_spec.rb:155-164 | `resources :posts, :users` emits the action count twice; the same for `resource` |
| Facts.UnfilteredActions | spec/rails_best_practices/prepares/route_prepare_spec.rb:8-18 | outside `with_options`, with no `:only`, `:except`, `:member` or `:collection` the actions are the standard list |
| Facts.PlainResource | spec/rails_best_practices/prepares/route_prepare_spec.rb:143-153 | outside `with_options`, `resources :name` (either dialect) emits the standard actions on the prefixed, camelized controller |
| Facts.OwnController | spec/rails_best_practices/prepares/route_prepare_spec.rb:31-41 | outside `with_options`, a resource's controller is the prefix, then its `:module`, then its `:controller` or its own name |
| Facts.ExplicitController | spec/rails_best_practices/prepares/route_prepare_spec.rb:31-41 | outside `with_options`, an explicit `:controller` replaces the base name: `:controller => :blog_posts` gives `BlogPosts` |
| Facts.ModuleOption | spec/rails_best_practices/prepares/route_prepare_spec.rb:498-516 | outside `with_options`, a resource's own `:module` adds its segments between the enclosing prefix and the name |
| Facts.FilterOptions | spec/rails_best_practices/prepares/route_prepare_spec.rb:43-65 | outside `with_options`, `:only` and `:except` filter the standard list of either resource kind |
| Facts.OnlyOption | spec/rails_best_practices/prepares/route_prepare_spec.rb:402-412 | outside `with_options`, `:only` alone filters the standard list |
| Facts.ExceptOption | spec/rails_best_practices/prepares/route_prepare_spec.rb:414-424 | outside `with_options`, `:except` alone filters the standard list |
| Facts.SentinelActions | spec/rails_best_practices/prepares/route_prepare_spec.rb:67-87 | outside `with_options`, `:only => :none` and `:except => :all` leave no action |
| Facts.SentinelEmitsNothing | spec/rails_best_practices/prepares/route_prepare_spec.rb:190-210 | outside `with_options`, `resources`/`resource` with a sentinel filter emits no route for any number of names |
| Facts.ExtensionOptions | spec/rails_best_practices/prepares/route_prepare_spec.rb:89-99 | outside `with_options`, `:only`, `:collection` and `:member` give the filtered standard actions, then member, then collection actions |
| Facts.HashFormIsArrayForm | spec/rails_best_practices/prepares/route_prepare_spec.rb:101-111 | the hash form `:member => { :create => :post }` lists the same actions as the array form |
| Facts.ResourceBlockAction | spec/rails_best_practices/prepares/route_prepare_spec.rb:448-468 | a verb naming an action inside a resource block gives that action on the enclosing resource |
| Facts.ResourceBlock | spec/rails_best_practices/prepares/route_prepare_spec.rb:603-615 | a one-name resource with a block emits its actions, then its block's routes under its resource frame |
| Facts.TargetRouteSplit | spec/rails_best_practices/prepares/route_prepare_spec.rb:519-533 | `"ctrl#action"` with both parts non-empty names exactly that controller and action |
| Facts.TargetSplit | spec/rails_best_practices/prepares/route_prepare_spec.rb:519-556 | a `"path" => "ctrl#action"` mapping emits exactly that route |
| Facts.ToOption | spec/rails_best_practices/prepares/route_prepare_spec.rb:535-578 | `to: 'ctrl#action'`, as in `get "/login", to: 'sessions#new'` and `root :to => 'home#index'`, emits exactly that route |
| Facts.ControllerActionOptions | spec/rails_best_practices/prepares/route_prepare_spec.rb:213-222 | `:controller` and `:action`, given or inherited from `with_options` or `scope`, emit one route |
| Facts.SymbolTarget | spec/rails_best_practices/prepares/route_prepare_spec.rb:498-516 | outside a resource block, `get path => :action` with a controller given or inherited from a scope emits exactly that controller's action |
| Facts.SymbolWithoutControllerEmitsNothing | spec/rails_best_practices/prepares/route_prepare_spec.rb:498-516 | outside a resource block, a symbol target with no controller given or inherited emits no route |
| Facts.WildcardAction | spec/rails_best_practices/prepares/route_prepare_spec.rb:558-567 | a path with an `:action` segment, a controller and no `:action` option emits `Ctrl#*` |
| Facts.ActionSegmentAnywhere | spec/rails_best_practices/prepares/route_prepare_spec.rb:224-233 | an `:action` segment is found wherever it sits in the path |
| Facts.PathRouteSplit | spec/rails_best_practices/prepares/route_prepare_spec.rb:519-533 | `'ctrl/action'` and `'/ctrl/action'` split into controller and action |
| Facts.PathAlone | spec/rails_best_practices/prepares/route_prepare_spec.rb:519-533 | `get 'posts/show'` alone emits `PostsController#show`, with the stack's prefix |
| Facts.RedirectEmitsNothing | spec/rails_best_practices/prepares/route_prepare_spec.rb:591-601 | any mapping whose target is a redirect emits no route |
| Facts.EmptyControllerEmitsNothing | spec/rails_best_practices/prepares/route_prepare_spec.rb:629-638 | a `'#index'` target names no controller and emits no route |
| Facts.DynamicControllerEmitsNothing | spec/rails_best_practices/prepares/route_prepare_spec.rb:580-589 | when the stack inherits no `to:` or `:controller` default, a bare path starting with a dynamic `:controller` segment emits no route |
| Recognizer.Recognizer.constructor | spec/rails_best_practices/prepares/route_prepare_spec.rb:8-18 | a recognizer starts with an empty stack, writing to the given registry |
| Recognizer.Recognizer.Prepare | spec/rails_best_practices/prepares/route_prepare_spec.rb:8-18 | preparing a routes file appends exactly its specified routes, in order, and leaves the stack empty |
| Recognizer.Recognizer.Push | spec/rails_best_practices/prepares/route_prepare_spec.rb:483-496 | opening a block pushes one frame |
| Recognizer.Recognizer.Pop | spec/rails_best_practices/prepares/route_prepare_spec.rb:483-496 | closing a block restores the stack from before it |
| Recognizer.Recognizer.Record | spec/rails_best_practices/prepares/route_prepare_spec.rb:355-364 | a mapping appends its route if it has one and nothing otherwise |
| Recognizer.Recognizer.AppendRoutes | spec/rails_best_practices/prepares/route_prepare_spec.rb:8-18 | appends one route per synthesized action, in order |
| Recognizer.Recognizer.Walk | spec/rails_best_practices/prepares/route_prepare_spec.rb:617-627 | sibling calls append their routes in source order, and the stack comes back unchanged |
| Recognizer.Recognizer.Visit | spec/rails_best_practices/prepares/route_prepare_spec.rb:448-468 | one call appends exactly its specified routes, and the stack comes back unchanged |
| Recognizer.Recognizer.VisitBlock | spec/rails_best_practices/prepares/route_prepare_spec.rb:483-496 | a block-opening call runs its block under one more frame and pops it at the end |
| Recognizer.Recognizer.VisitMapping | spec/rails_best_practices/prepares/route_prepare_spec.rb:519-533 | a mapping appends its route, then its block's routes |
| Recognizer.Recognizer.VisitResource | spec/rails_best_practices/prepares/route_prepare_spec.rb:20-29 | each base name appends its actions and then its block's routes, name after name |
| Recognizer.Recognizer.VisitName | spec/rails_best_practices/prepares/route_prepare_spec.rb:470-481 | one base name appends its actions, then its block's routes under its resource frame |
| Cases.ResourcesPosts | spec/rails_best_practices/prepares/route_prepare_spec.rb:274-284 | `resources :posts` gives the seven `PostsController` actions in the standard order |
| Cases.ResourcesPostsText | spec/rails_best_practices/prepares/route_prepare_spec.rb:274-284 | the same as the strings `PostsController#index` through `PostsController#destroy` |
| Cases.ResourcesPostsUsers | spec/rails_best_practices/prepares/route_prepare_spec.rb:286-295 | `resources :posts, :users` gives fourteen routes |
| Cases.ResourcePosts | spec/rails_best_practices/prepares/route_prepare_spec.rb:379-389 | `resource :posts` gives the six singular actions, without `index` |
| Cases.OnlyNone | spec/rails_best_practices/prepares/route_prepare_spec.rb:333-342 | `resources :posts, :only => :none` gives no route |
| Cases.NestedNamespace | spec/rails_best_practices/prepares/route_prepare_spec.rb:483-496 | nested namespaces give exactly `Admin::Test::PostsController#index` |
| Cases.ScopeRoutes | spec/rails_best_practices/prepares/route_prepare_spec.rb:498-516 | the scope example gives exactly four routes, in order: `index` on `Admin::Posts`, `index` on `Admin::Discussions`, `index` on `Comments`, `show` on `Users` |
| Cases.ScopeTexts | spec/rails_best_practices/prepares/route_prepare_spec.rb:498-516 | the same as the strings `Admin::PostsController#index`, `Admin::DiscussionsController#index`, `CommentsController#index`, `UsersController#show` |
| Cases.ConnectVote | spec/rails_best_practices/prepares/route_prepare_spec.rb:213-222 | `map.connect` with `:controller` and `:action` gives exactly `VotesController#create` |
| Cases.ConnectAllActions | spec/rails_best_practices/prepares/route_prepare_spec.rb:224-233 | `map.connect 'internal/:action/*whatever'` gives exactly `InternalController#*` |
| Cases.DirectPost | spec/rails_best_practices/prepares/route_prepare_spec.rb:519-533 | `post '/posts' => 'posts#create'` gives exactly `PostsController#create` |
| Cases.GetPathAlone | spec/rails_best_practices/prepares/route_prepare_spec.rb:519-533 | `get 'posts/show'` gives exactly `PostsController#show` |
| Cases.DefaultRoute | spec/rails_best_practices/prepares/route_prepare_spec.rb:580-589 | the catch-all `match ':controller(/:action(/:id(.:format)))'` gives no route |
| Cases.Redirects | spec/rails_best_practices/prepares/route_prepare_spec.rb:591-601 | two redirect mappings give no route |
| Cases.WrongRoute | spec/rails_best_practices/prepares/route_prepare_spec.rb:629-638 | a `'#index'` target gives no route |
| Cases.NotFolded | spec/rails_best_practices/prepares/route_prepare_spec.rb:617-627 | after `resources :posts`, a sibling `post "sprints/stop"` makes `SprintsController#stop` the last route |
| Cases.CustomizeNested | spec/rails_best_practices/prepares/route_prepare_spec.rb:603-615 | a `post :stop` after a nested resource makes `PostsController#stop` the last route |
| Cases.NamedLogin | spec/rails_best_practices/prepares/route_prepare_spec.rb:235-244 | `map.login` with `:controller` and `:action` gives exactly `SessionsController#new` |
| Cases.NamedRouteWithOptions | spec/rails_best_practices/prepares/route_prepare_spec.rb:246-257 | `with_options :controller => 'admin_session'` supplies the controller: `AdminSessionController#new` |

## Left out

- The Ruby parser and the lexer.  The model starts from the call tree, with
  argument expressions reduced to symbols, strings, arrays, hashes, redirects
  and "other".
- `lib/rails_best_practices/prepares/route_prepare.rb` is not part of this
  model.  The modelled behaviour is what the examples in
  `spec/rails_best_practices/prepares/route_prepare_spec.rb` fix.
- HTTP verbs play no part in a recorded route.  The model also ignores
  `:method`, `:conditions`, `via:`, `as:` and the route name of a named
  route.
- Regular-expression constraints, and every inflection other than camelize.
  Resource names are not singularised or pluralised, which matches the
  tests: `resource :posts` gives `PostsController`.
- The process-wide route list is an explicit `Registry` object that the
  caller passes to the recognizer.  `Reset` stands for clearing it between
  runs.
- The `:none` and `:all` sentinels drop the standard actions only.  Member
  and collection extensions given beside a sentinel are still appended.  No
  test decides this case.
- A multi-name resource with a block (`resources :a, :b do ... end`) walks
  its block once per name.  No test covers it.
- Some examples are covered only by the general lemmas, with no concrete
  case lemma:
  - explicit controller and `:only`/`:except` lists: `Facts.ExplicitController`, `Facts.FilterOptions`;
  - verbs in resource blocks: `Facts.ResourceBlockAction`, `Facts.ExtensionBlockTransparent`;
  - `to:` and `root :to =>`: `Facts.ToOption`;
  - `match '/auth/:provider/callback' => 'authentications#create'`: `Facts.TargetSplit`;
  - `match` with an `:action` path segment: `Facts.WildcardAction`;
  - rails2 nested `map.resources :posts do |post| post.resources :comments end`,
    14 routes: `Facts.ResourceBlock`, `Facts.ResourceNamesCount`;
  - `map.resource :posts, :users`, 12 routes: `Facts.ResourceRouteCount`;
  - rails2 `map.stop` after `map.resources :posts`: `Facts.LaterCallNotFolded`,
    `Facts.ControllerActionOptions`;
  - the five direct routes, among them `HighVoltage::PagesController#show`:
    `Facts.TargetSplit`, `Facts.PathAlone`; of these `Cases.GetPathAlone` and
    `Cases.DirectPost` are worked out as cases.
- Names.Camelize: only upper-cases the first letter of each `_`-separated
  word and keeps the rest as written, so `foo_BAR` gives `FooBAR` where the
  Rails inflector lower-cases the rest and gives `FooBar`.  Every controller
  name in the examples is lower-case, where the two agree.
- CallTree.Lookup: when an options hash repeats a key, the first pair
  wins; a Ruby hash literal keeps the last one.  No example repeats a key.
- Dispatch.HasActionSegment: finds `:action` anywhere in the path, so
  `:actions` or `:action_id` also count as an action segment.  No example
  has such a segment.
- Facts.PathAlone: stated only for the case where the stack inherits no
  `to:` or `:controller` default, because no test places a bare path under
  one.
