/**
 * The recognizer itself: a visitor that walks the call tree of a routes
 * file, keeps a stack of the blocks it is inside, and appends every route it
 * recognizes to the registry as it goes.  Each walking method is proved to
 * append exactly what the specification `Emit` says, and to leave the stack
 * as it found it.
 */
module Recognizer {
  import opened Wrappers
  import opened Routes
  import opened Actions
  import opened CallTree
  import opened Scopes
  import opened Dispatch
  import opened Facts

  class Recognizer {
    /** Where recognized routes go; shared with whoever reads them afterwards. */
    const registry: Registry
    /** The frames of the blocks being walked, outermost first. */
    var frames: seq<Frame>

    constructor (registry: Registry)
      ensures this.registry == registry && frames == []
    {
      this.registry := registry;
      frames := [];
    }

    /**
     * Recognizes one routes file from an empty stack: its routes are appended
     * after those already registered, which are left as they were.
     */
    method Prepare(calls: seq<Call>)
      modifies this, registry
      ensures registry.routes == old(registry.routes) + Emit(calls, [])
      ensures frames == []
    {
      frames := [];
      Walk(calls);
    }

    /** Opens a block. */
    method Push(f: Frame)
      modifies this
      ensures frames == old(frames) + [f]
    {
      frames := frames + [f];
    }

    /** Closes the innermost block. */
    method Pop()
      requires frames != []
      modifies this
      ensures frames == old(frames)[..|old(frames)| - 1]
    {
      frames := frames[..|frames| - 1];
    }

    /** Registers the route of a mapping, when it has one. */
    method Record(r: Option<Route>)
      modifies registry
      ensures registry.routes == old(registry.routes) + AsSeq(r)
    {
      if r.Some? {
        registry.Append(r.value);
      }
    }

    /** Registers one route per action, all on `ctrl`, in order. */
    method AppendRoutes(ctrl: seq<string>, actions: seq<string>)
      modifies registry
      ensures registry.routes == old(registry.routes) + RoutesFor(ctrl, actions)
    {
      var j := 0;
      while j < |actions|
        invariant 0 <= j <= |actions|
        invariant registry.routes == old(registry.routes) + RoutesFor(ctrl, actions[..j])
      {
        RoutesForPrefix(ctrl, actions, j);
        registry.Append(Route(ctrl, Named(actions[j])));
        j := j + 1;
      }
      assert actions[..j] == actions;
    }

    /** Recognizes a run of sibling calls under the current stack. */
    method Walk(calls: seq<Call>)
      modifies this, registry
      ensures registry.routes == old(registry.routes) + Emit(calls, old(frames))
      ensures frames == old(frames)
      decreases SizeAll(calls), 4
    {
      var i := 0;
      while i < |calls|
        invariant 0 <= i <= |calls|
        invariant frames == old(frames)
        invariant registry.routes == old(registry.routes) + Emit(calls[..i], old(frames))
      {
        SizeBound(calls, i);
        ghost var before := registry.routes;
        Visit(calls[i]);
        EmitPrefix(calls, i, old(frames));
        Regroup(old(registry.routes), Emit(calls[..i], old(frames)), EmitCall(calls[i], old(frames)),
                before, Emit(calls[..i + 1], old(frames)));
        i := i + 1;
      }
      assert calls[..i] == calls;
    }

    /** Recognizes one call and its block. */
    method Visit(c: Call)
      modifies this, registry
      ensures registry.routes == old(registry.routes) + EmitCall(c, old(frames))
      ensures frames == old(frames)
      decreases Size(c), 3
    {
      match ShapeOf(c)
      case Resources(k) =>
        EmitCallResources(c, frames);
        VisitResource(c, k);
      case Namespace(_) =>
        VisitBlock(c);
      case Scope =>
        VisitBlock(c);
      case WithOptions =>
        VisitBlock(c);
      case Verb =>
        VisitMapping(c);
      case Direct =>
        VisitMapping(c);
      case NamedRoute =>
        VisitMapping(c);
      case Unrecognized =>
        EmitCallUnrecognized(c, frames);
        Walk(c.body);
    }

    /** `namespace`, `scope`, `with_options`: the block runs under one more frame, popped at its end. */
    method VisitBlock(c: Call)
      requires ShapeOf(c).Namespace? || ShapeOf(c).Scope? || ShapeOf(c).WithOptions?
      modifies this, registry
      ensures registry.routes == old(registry.routes) + EmitCall(c, old(frames))
      ensures frames == old(frames)
      decreases Size(c), 2
    {
      EmitCallBlock(c, frames);
      Push(FrameOf(c));
      Walk(c.body);
      Pop();
    }

    /** A direct mapping: its route, if any, then its block. */
    method VisitMapping(c: Call)
      requires IsMapping(c)
      modifies this, registry
      ensures registry.routes == old(registry.routes) + EmitCall(c, old(frames))
      ensures frames == old(frames)
      decreases Size(c), 2
    {
      EmitCallMapping(c, frames);
      var r := Mapping(c, frames, ShapeOf(c) == Verb);
      Record(r);
      ghost var before := registry.routes;
      Walk(c.body);
      Regroup(old(registry.routes), AsSeq(r), Emit(c.body, old(frames)), before, EmitCall(c, old(frames)));
    }

    /** `resources` / `resource`: for each base name, its synthesized routes, then its block under a resource frame. */
    method VisitResource(c: Call, k: Kind)
      requires ShapeOf(c) == Resources(k)
      modifies this, registry
      ensures registry.routes == old(registry.routes) + EmitNames(c, k, ResourceNames(c), old(frames))
      ensures frames == old(frames)
      decreases Size(c), 2
    {
      var names := ResourceNames(c);
      var actions := ResourceActions(k, Options(c), frames);
      ghost var start, fr := registry.routes, frames;
      var i := 0;
      while i < |names|
        invariant 0 <= i <= |names|
        invariant frames == fr
        invariant registry.routes == start + EmitNames(c, k, names[..i], fr)
      {
        VisitNth(c, k, names, i, actions, start);
        i := i + 1;
      }
      assert names[..i] == names;
    }

    /** The `i`-th base name of a resource declaration, after the routes of the names before it. */
    method VisitNth(c: Call, k: Kind, names: seq<string>, i: nat, actions: seq<string>, ghost start: seq<Route>)
      requires i < |names| && actions == ResourceActions(k, Options(c), frames)
      requires registry.routes == start + EmitNames(c, k, names[..i], frames)
      modifies this, registry
      ensures registry.routes == start + EmitNames(c, k, names[..i + 1], old(frames))
      ensures frames == old(frames)
      decreases Size(c), 1
    {
      ghost var fr := frames;
      var ctrl := ResourceController(names[i], Options(c), frames);
      ghost var done, one := EmitNames(c, k, names[..i], fr), RoutesFor(ctrl, actions) + Emit(c.body, fr + [ResourceFrame(ctrl)]);
      EmitNamesPrefix(c, k, names, i, fr, ctrl);
      ghost var before := registry.routes;
      VisitName(c, ctrl, actions);
      Regroup(start, done, one, before, EmitNames(c, k, names[..i + 1], fr));
    }

    /** One base name of a resource declaration: its routes on `ctrl`, then the block with `ctrl` as the enclosing resource. */
    method VisitName(c: Call, ctrl: seq<string>, actions: seq<string>)
      modifies this, registry
      ensures registry.routes
           == old(registry.routes) + (RoutesFor(ctrl, actions) + Emit(c.body, old(frames) + [ResourceFrame(ctrl)]))
      ensures frames == old(frames)
      decreases Size(c), 0
    {
      AppendRoutes(ctrl, actions);
      ghost var middle := registry.routes;
      Push(ResourceFrame(ctrl));
      Walk(c.body);
      Pop();
      Regroup(old(registry.routes), RoutesFor(ctrl, actions), Emit(c.body, old(frames) + [ResourceFrame(ctrl)]),
              middle, RoutesFor(ctrl, actions) + Emit(c.body, old(frames) + [ResourceFrame(ctrl)]));
    }
  }
}
