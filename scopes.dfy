/**
 * The scope stack: the lexical frames opened by `namespace`, `scope`,
 * `with_options` and resource blocks, outermost first.  A frame affects only
 * the calls inside its block.
 */
module Scopes {
  import opened Wrappers
  import opened Names
  import opened CallTree

  datatype Frame =
    | NamespaceFrame(name: string)                          // namespace :admin do ... end
    | ScopeFrame(moduleName: Option<string>, controllerDefault: Option<Value>)  // scope "/admin", :module => .., :controller => ..
    | OptionsFrame(defaults: seq<Pair>)                     // with_options(:controller => ..) do |x| ... end
    | ResourceFrame(controller: seq<string>)                // the block of a resources / resource call

  /** The controller-prefix segments one frame contributes. */
  function FrameSegments(f: Frame): (segs: seq<string>)
    ensures f.OptionsFrame? || f.ResourceFrame? ==> segs == []
    ensures f.ScopeFrame? && f.moduleName.None? ==> segs == []
    ensures f.NamespaceFrame? ==> segs == ControllerPath(f.name)
    ensures f.ScopeFrame? && f.moduleName.Some? ==> segs == ControllerPath(f.moduleName.value)
  {
    match f
    case NamespaceFrame(n) => ControllerPath(n)
    case ScopeFrame(m, _) => if m.Some? then ControllerPath(m.value) else []
    case _ => []
  }

  /** The controller prefix of the stack: the segments of every namespace and module frame, outermost first. */
  function Prefix(fr: seq<Frame>): seq<string> {
    if fr == [] then [] else Prefix(fr[..|fr| - 1]) + FrameSegments(fr[|fr| - 1])
  }

  /** Pushing a frame appends its segments to the prefix. */
  lemma PrefixPush(fr: seq<Frame>, f: Frame)
    ensures Prefix(fr + [f]) == Prefix(fr) + FrameSegments(f)
  {
    assert (fr + [f])[..|fr|] == fr;
  }

  /** Frames compose: the prefix of a stack is the prefix of its outer part followed by that of its inner part. */
  lemma {:induction false} PrefixConcat(outer: seq<Frame>, inner: seq<Frame>)
    ensures Prefix(outer + inner) == Prefix(outer) + Prefix(inner)
    decreases |inner|
  {
    if inner == [] {
      assert outer + inner == outer;
    } else {
      var init, f := inner[..|inner| - 1], inner[|inner| - 1];
      PrefixConcatStep(outer, inner, init, f);
      PrefixPush(init, f);
      PrefixConcat(outer, init);
      SegmentsAssoc(Prefix(outer), Prefix(init), FrameSegments(f));
    }
  }

  lemma PrefixConcatStep(outer: seq<Frame>, inner: seq<Frame>, init: seq<Frame>, f: Frame)
    requires inner != [] && init == inner[..|inner| - 1] && f == inner[|inner| - 1]
    ensures inner == init + [f]
    ensures Prefix(outer + inner) == Prefix(outer + init) + FrameSegments(f)
  {
    assert inner == init + [f];
    assert outer + inner == (outer + init) + [f];
    PrefixPush(outer + init, f);
  }

  lemma SegmentsAssoc(a: seq<string>, b: seq<string>, c: seq<string>)
    ensures (a + b) + c == a + (b + c)
  {
  }

  /** Nested namespaces prefix the controller outermost first: `namespace :admin` around `namespace :test` gives `Admin::Test`. */
  lemma NestedNamespaces(fr: seq<Frame>, outer: string, inner: string)
    ensures Prefix(fr + [NamespaceFrame(outer), NamespaceFrame(inner)])
            == Prefix(fr) + ControllerPath(outer) + ControllerPath(inner)
  {
    var a, b := NamespaceFrame(outer), NamespaceFrame(inner);
    var two := [a, b];
    assert two[..1] == [a];
    calc {
      Prefix(fr + two);
      { PrefixConcat(fr, two); }
      Prefix(fr) + Prefix(two);
      { assert two[..|two| - 1] == [a]; }
      Prefix(fr) + (Prefix([a]) + FrameSegments(b));
      { PrefixSingle(a); }
      Prefix(fr) + (FrameSegments(a) + FrameSegments(b));
    }
  }

  lemma PrefixSingle(f: Frame)
    ensures Prefix([f]) == FrameSegments(f)
  {
    assert [f][..0] == [];
  }

  /** A `scope` without `:module`, and any `with_options`, adds nothing to the controller prefix. */
  lemma PrefixIgnoresPlainFrames(fr: seq<Frame>, f: Frame)
    requires f.OptionsFrame? || f.ResourceFrame? || (f.ScopeFrame? && f.moduleName.None?)
    ensures Prefix(fr + [f]) == Prefix(fr)
  {
    assert (fr + [f])[..|fr|] == fr;
  }

  /** `scope :module => m` prefixes the controllers inside it with `m`'s segments. */
  lemma ScopeModulePrefix(fr: seq<Frame>, m: string, ctrl: Option<Value>)
    ensures Prefix(fr + [ScopeFrame(Some(m), ctrl)]) == Prefix(fr) + ControllerPath(m)
  {
    PrefixPush(fr, ScopeFrame(Some(m), ctrl));
  }

  /**
   * The default a frame supplies for option `key`.  `with_options` supplies
   * all of its options; a scope's `:controller` is a default for direct
   * routes only (`direct`), never for resource declarations.
   */
  function Default(f: Frame, key: string, direct: bool): (v: Option<Value>)
    ensures f.NamespaceFrame? || f.ResourceFrame? ==> v.None?
    ensures f.OptionsFrame? ==> v == Lookup(key, f.defaults)
    ensures f.ScopeFrame? ==> v == (if direct && key == "controller" then f.controllerDefault else None)
  {
    match f
    case OptionsFrame(d) => Lookup(key, d)
    case ScopeFrame(_, ctrl) => if direct && key == "controller" then ctrl else None
    case _ => None
  }

  /** The default for `key` visible at the top of the stack: the innermost frame that supplies one wins. */
  function Inherited(key: string, fr: seq<Frame>, direct: bool): (v: Option<Value>)
    ensures v.None? <==> forall i :: 0 <= i < |fr| ==> Default(fr[i], key, direct).None?
    ensures v.Some? ==> exists i :: 0 <= i < |fr| && Default(fr[i], key, direct) == v
                                    && forall j :: i < j < |fr| ==> Default(fr[j], key, direct).None?
  {
    if fr == [] then None
    else
      var last := |fr| - 1;
      if Default(fr[last], key, direct).Some? then
        Default(fr[last], key, direct)
      else
        var init := fr[..last];
        var v := Inherited(key, init, direct);
        InheritedExtendNone(key, fr, init, direct);
        InheritedExtendSome(key, fr, init, direct, v);
        v
  }

  /** Past an innermost frame that supplies nothing, no frame supplies the key exactly when no outer one does. */
  lemma InheritedExtendNone(key: string, fr: seq<Frame>, init: seq<Frame>, direct: bool)
    requires fr != [] && init == fr[..|fr| - 1] && Default(fr[|fr| - 1], key, direct).None?
    ensures (forall i :: 0 <= i < |init| ==> Default(init[i], key, direct).None?)
        <==> (forall i :: 0 <= i < |fr| ==> Default(fr[i], key, direct).None?)
  {
    assert forall i :: 0 <= i < |init| ==> init[i] == fr[i];
  }

  /** Past an innermost frame that supplies nothing, the innermost supplying frame of the outer stack is still innermost. */
  lemma InheritedExtendSome(key: string, fr: seq<Frame>, init: seq<Frame>, direct: bool, v: Option<Value>)
    requires fr != [] && init == fr[..|fr| - 1] && Default(fr[|fr| - 1], key, direct).None?
    requires v.Some? ==> exists i :: 0 <= i < |init| && Default(init[i], key, direct) == v
                                     && forall j :: i < j < |init| ==> Default(init[j], key, direct).None?
    ensures v.Some? ==> exists i :: 0 <= i < |fr| && Default(fr[i], key, direct) == v
                                    && forall j :: i < j < |fr| ==> Default(fr[j], key, direct).None?
  {
    if v.Some? {
      var i :| 0 <= i < |init| && Default(init[i], key, direct) == v
               && forall j :: i < j < |init| ==> Default(init[j], key, direct).None?;
      assert init[i] == fr[i];
      assert forall j :: i < j < |fr| ==> Default(fr[j], key, direct).None? by {
        forall j | i < j < |fr|
          ensures Default(fr[j], key, direct).None?
        {
          if j < |init| {
            assert init[j] == fr[j];
          }
        }
      }
    }
  }

  /** A call's own option wins over every inherited default. */
  function Setting(key: string, own: seq<Pair>, fr: seq<Frame>, direct: bool): (v: Option<Value>)
    ensures Lookup(key, own).Some? ==> v == Lookup(key, own)
    ensures Lookup(key, own).None? ==> v == Inherited(key, fr, direct)
  {
    if Lookup(key, own).Some? then Lookup(key, own) else Inherited(key, fr, direct)
  }

  /** A stack without `with_options` frames supplies no defaults to resource declarations. */
  lemma {:induction false} NoInheritedResourceOptions(key: string, fr: seq<Frame>)
    requires forall f :: f in fr ==> !f.OptionsFrame?
    ensures Inherited(key, fr, false).None?
  {
    if fr != [] {
      assert fr[|fr| - 1] in fr;
      assert forall f :: f in fr[..|fr| - 1] ==> f in fr;
      NoInheritedResourceOptions(key, fr[..|fr| - 1]);
    }
  }

  /** Popping a frame restores exactly the defaults visible before it was pushed. */
  lemma InheritedPush(key: string, fr: seq<Frame>, f: Frame, direct: bool)
    ensures Default(f, key, direct).None? ==> Inherited(key, fr + [f], direct) == Inherited(key, fr, direct)
    ensures Default(f, key, direct).Some? ==> Inherited(key, fr + [f], direct) == Default(f, key, direct)
  {
    assert (fr + [f])[..|fr|] == fr;
  }

  /**
   * A scope's `controller:` is the controller of the direct routes inside it,
   * and resource declarations inside it do not see it.
   */
  lemma ScopeControllerDefault(fr: seq<Frame>, m: Option<string>, ctrl: Value)
    ensures Inherited("controller", fr + [ScopeFrame(m, Some(ctrl))], true) == Some(ctrl)
    ensures Inherited("controller", fr + [ScopeFrame(m, Some(ctrl))], false) == Inherited("controller", fr, false)
  {
    InheritedPush("controller", fr, ScopeFrame(m, Some(ctrl)), true);
    InheritedPush("controller", fr, ScopeFrame(m, Some(ctrl)), false);
  }

  /** The controller of the innermost enclosing resource block, if any. */
  function CurrentResource(fr: seq<Frame>): (r: Option<seq<string>>)
    ensures r.None? <==> forall i :: 0 <= i < |fr| ==> !fr[i].ResourceFrame?
    ensures r.Some? ==> exists i :: 0 <= i < |fr| && fr[i] == ResourceFrame(r.value)
                                    && forall j :: i < j < |fr| ==> !fr[j].ResourceFrame?
  {
    if fr == [] then None
    else if fr[|fr| - 1].ResourceFrame? then Some(fr[|fr| - 1].controller)
    else
      var init := fr[..|fr| - 1];
      var r := CurrentResource(init);
      ResourceExtendNone(fr, init);
      ResourceExtendSome(fr, init, r);
      r
  }

  /** Past an innermost frame that is no resource block, no frame is one exactly when no outer one is. */
  lemma ResourceExtendNone(fr: seq<Frame>, init: seq<Frame>)
    requires fr != [] && init == fr[..|fr| - 1] && !fr[|fr| - 1].ResourceFrame?
    ensures (forall i :: 0 <= i < |init| ==> !init[i].ResourceFrame?) <==> (forall i :: 0 <= i < |fr| ==> !fr[i].ResourceFrame?)
  {
    assert forall i :: 0 <= i < |init| ==> init[i] == fr[i];
  }

  /** Past an innermost frame that is no resource block, the innermost resource frame of the outer stack is still innermost. */
  lemma ResourceExtendSome(fr: seq<Frame>, init: seq<Frame>, r: Option<seq<string>>)
    requires fr != [] && init == fr[..|fr| - 1] && !fr[|fr| - 1].ResourceFrame?
    requires r.Some? ==> exists i :: 0 <= i < |init| && init[i] == ResourceFrame(r.value)
                                     && forall j :: i < j < |init| ==> !init[j].ResourceFrame?
    ensures r.Some? ==> exists i :: 0 <= i < |fr| && fr[i] == ResourceFrame(r.value)
                                    && forall j :: i < j < |fr| ==> !fr[j].ResourceFrame?
  {
    if r.Some? {
      var i :| 0 <= i < |init| && init[i] == ResourceFrame(r.value)
               && forall j :: i < j < |init| ==> !init[j].ResourceFrame?;
      assert init[i] == fr[i];
      assert forall j :: i < j < |fr| ==> !fr[j].ResourceFrame? by {
        forall j | i < j < |fr|
          ensures !fr[j].ResourceFrame?
        {
          if j < |init| {
            assert init[j] == fr[j];
          }
        }
      }
    }
  }

  /** Inside a resource block the enclosing resource is that block's, however deep the outer nesting. */
  lemma CurrentResourcePush(fr: seq<Frame>, ctrl: seq<string>)
    ensures CurrentResource(fr + [ResourceFrame(ctrl)]) == Some(ctrl)
  {
    var pushed := fr + [ResourceFrame(ctrl)];
    assert pushed[|pushed| - 1] == ResourceFrame(ctrl);
  }
}
