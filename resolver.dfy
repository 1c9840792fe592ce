/**
 * The top-level `Transproc(fn, *args)` entry point (lib/transproc.rb:77-82):
 * a `case` on the kind of its first argument that wraps a proc directly,
 * looks a symbol up in the registry, and yields `nil` for anything else.
 */
module Resolver {
  import opened Wrappers
  import opened Registry
  import State = Transproc

  /** An opaque token for an extra argument bound to a transformation. */
  datatype Arg = Arg(id: nat)

  /**
   * The first argument of `Transproc(...)`. `Raw` stands for an object of the
   * kinds a registry entry has (a `Proc`, a `Method`, or another object used as a
   * function); `Other` for any object outside that model (a string, a number,
   * `nil`). Both non-`Proc` cases take no branch and give `nil`.
   */
  datatype Source =
    | Raw(obj: Callable)    // an object used as a function; only a `Proc` matches `when Proc`
    | Named(name: Name)     // `when Symbol`
    | Other                 // any other object (a string, a number, `nil`): no branch matches

  /** `Transproc::Function.new(fn, args: args)`: a callable with its bound extra arguments, in order. */
  datatype Unit = Unit(fn: Callable, args: seq<Arg>)

  /**
   * The value of `Transproc(src, *args)` against registry contents `t`:
   * `Ok(Some(unit))` for a wrapped function, `Ok(None)` for `nil`, `Err` for a raise.
   */
  function Resolve(t: Table, src: Source, args: seq<Arg>): (r: Result<Option<Unit>, Error>)
    ensures src.Raw? && src.obj.kind == ProcKind ==> r == Ok(Some(Unit(src.obj, args)))
    ensures src.Raw? && src.obj.kind != ProcKind ==> r == Ok(None)
    ensures src.Named? ==> (r.Ok? <==> src.name in t && t[src.name].Some?)
    ensures src.Named? && r.Ok? ==> r.value == Some(Unit(t[src.name].value, args))
    ensures src.Named? && r.Err? ==> r.error == NotRegistered(src.name)
    ensures src.Other? ==> r == Ok(None)
  {
    match src
    case Raw(p) => if p.kind == ProcKind then Ok(Some(Unit(p, args))) else Ok(None)
    case Named(n) =>
      (match Lookup(t, n)
       case Ok(f) => Ok(Some(Unit(f, args)))
       case Err(e) => Err(e))
    case Other => Ok(None)
  }

  /** `Transproc(src, *args)` run against the registry; only a symbol touches it, and then only to create the hash. */
  method Transproc(reg: State.FunctionRegistry, src: Source, args: seq<Arg>) returns (r: Result<Option<Unit>, Error>)
    modifies reg
    ensures r == Resolve(old(reg.Contents()), src, args)
    ensures reg.Contents() == old(reg.Contents())
    ensures !src.Named? ==> reg.memo == old(reg.memo)
  {
    match src
    case Raw(p) =>
      r := if p.kind == ProcKind then Ok(Some(Unit(p, args))) else Ok(None);
    case Named(n) =>
      var f := reg.Fetch(n);
      match f {
        case Ok(c) => r := Ok(Some(Unit(c, args)));
        case Err(e) => r := Err(e);
      }
    case Other =>
      r := Ok(None);
  }

  /** Resolving an object given directly does not depend on the registry at all. */
  lemma RawIgnoresRegistry(t1: Table, t2: Table, p: Callable, args: seq<Arg>)
    ensures Resolve(t1, Raw(p), args) == Resolve(t2, Raw(p), args)
  {
  }

  /**
   * A `Method` object given directly is not a `Proc`, so it takes no branch and
   * yields `nil`, although the same object stored by name resolves.
   */
  lemma MethodObjectOnlyByName(t: Table, name: Name, m: Callable, args: seq<Arg>)
    requires m.kind == MethodKind && name in t && t[name] == Some(m)
    ensures Resolve(t, Raw(m), args) == Ok(None)
    ensures Resolve(t, Named(name), args) == Ok(Some(Unit(m, args)))
  {
  }

  /** Resolving a symbol raises exactly when looking it up raises, and with the same error. */
  lemma NamedRaisesIffLookupRaises(t: Table, name: Name, args: seq<Arg>)
    ensures Resolve(t, Named(name), args).Err? <==> Lookup(t, name).Err?
    ensures Lookup(t, name).Err? ==> Resolve(t, Named(name), args) == Err(Lookup(t, name).error)
    ensures Lookup(t, name).Ok? ==> Resolve(t, Named(name), args) == Ok(Some(Unit(Lookup(t, name).value, args)))
  {
  }

  /** A function registered under a fresh name (by value or by block) resolves to itself with the given arguments. */
  lemma RegisteredNameResolves(t: Table, name: Name, fn: Option<Callable>, block: Option<Callable>, args: seq<Arg>)
    requires name !in t && Stored(fn, block).Some?
    ensures var t1 := Register(t, name, fn, block).table;
            Resolve(t1, Named(name), args) == Ok(Some(Unit(Stored(fn, block).value, args)))
  {
  }

  /** Whatever resolves now resolves to the same unit after any later registrations. */
  lemma ResolveSurvivesReplay(t: Table, calls: seq<Call>, src: Source, args: seq<Arg>)
    requires Resolve(t, src, args).Ok?
    ensures Resolve(Replay(t, calls), src, args) == Resolve(t, src, args)
  {
    if src.Named? {
      LookupSurvivesReplay(t, calls, src.name);
    }
  }

  /** An unregistered symbol raises `NotRegistered`; a source that is neither a proc nor a symbol yields `nil`, never a raise. */
  lemma UnknownAndOtherSources(t: Table, name: Name, args: seq<Arg>)
    requires name !in t
    ensures Resolve(t, Named(name), args) == Err(NotRegistered(name))
    ensures Resolve(t, Other, args) == Ok(None)
  {
  }
}
