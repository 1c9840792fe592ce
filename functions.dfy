/**
 * The `Transproc::Functions` extension (lib/transproc.rb:56-61): a container
 * that extends it registers every method it defines under the method's own
 * name. The definition hook is modelled by its effect, an explicit
 * registration of the method object.
 */
module Functions {
  import opened Wrappers
  import opened Registry
  import State = Transproc
  import Resolver

  /** The `Method` object `method(meth)` returns for the method with identity `id`. */
  function MethodObject(id: nat): Callable
  {
    Callable(id, MethodKind)
  }

  /** `method_added(meth)`: `Transproc.register(meth, method(meth))` for the newly defined method `id`. */
  method MethodAdded(reg: State.FunctionRegistry, meth: Name, id: nat) returns (r: Result<Entry, Error>)
    modifies reg
    ensures var s := Registry.Register(old(reg.Contents()), meth, Some(MethodObject(id)), None);
            reg.memo == Some(s.table) && r == s.result
  {
    r := reg.Register(meth, Some(MethodObject(id)), None);
  }

  /**
   * One instance-method definition (`def name`) in a container body; a
   * singleton definition (`def self.name`) fires a different hook and is not registered.
   */
  datatype Definition = Definition(name: Name, id: nat)

  /** After a container body: the table and the error its first failing definition raised, if any. */
  datatype Loaded = Loaded(table: Table, failure: Option<Error>)

  /**
   * Evaluating a container body that defines `defs` in order: each definition
   * fires `method_added`; the first one that raises ends the body.
   */
  function DefineAll(t: Table, defs: seq<Definition>): (r: Loaded)
    ensures t.Keys <= r.table.Keys
    ensures r.failure.Some? ==> r.failure.value.AlreadyDefined? && r.failure.value.name in r.table
    decreases |defs|
  {
    if defs == [] then Loaded(t, None)
    else
      var s := Register(t, defs[0].name, Some(MethodObject(defs[0].id)), None);
      match s.result
      case Err(e) => Loaded(s.table, Some(e))
      case Ok(_) => DefineAll(s.table, defs[1..])
  }

  /** No two definitions share a name. */
  ghost predicate DistinctNames(defs: seq<Definition>)
  {
    forall i, j :: 0 <= i < j < |defs| ==> defs[i].name != defs[j].name
  }

  /** Loading a container never loses or rebinds an entry, even when it fails part way. */
  lemma {:induction false} DefineAllAppendOnly(t: Table, defs: seq<Definition>)
    ensures Extends(t, DefineAll(t, defs).table)
    decreases |defs|
  {
    if defs != [] {
      var t1 := Register(t, defs[0].name, Some(MethodObject(defs[0].id)), None).table;
      RegisterExtends(t, defs[0].name, Some(MethodObject(defs[0].id)), None);
      DefineAllAppendOnly(t1, defs[1..]);
      ExtendsTransitive(t, t1, DefineAll(t1, defs[1..]).table);
    }
  }

  /**
   * A container whose method names are distinct and not yet registered loads
   * without error, and every method it defines is then found by its own name.
   */
  lemma {:induction false} DefinedMethodsAreFound(t: Table, defs: seq<Definition>)
    requires DistinctNames(defs)
    requires forall i :: 0 <= i < |defs| ==> defs[i].name !in t
    ensures DefineAll(t, defs).failure == None
    ensures forall i :: 0 <= i < |defs| ==> Lookup(DefineAll(t, defs).table, defs[i].name) == Ok(MethodObject(defs[i].id))
    decreases |defs|
  {
    if defs != [] {
      var t1 := Register(t, defs[0].name, Some(MethodObject(defs[0].id)), None).table;
      assert forall i :: 0 <= i < |defs[1..]| ==> defs[1..][i] == defs[i + 1];
      DefinedMethodsAreFound(t1, defs[1..]);
      DefineAllAppendOnly(t1, defs[1..]);
      forall i | 0 <= i < |defs|
        ensures Lookup(DefineAll(t, defs).table, defs[i].name) == Ok(MethodObject(defs[i].id))
      {
        if i > 0 {
          assert defs[i] == defs[1..][i - 1];
        }
      }
    }
  }

  /**
   * A container loads without error exactly when its method names are distinct
   * and none is registered yet: a name defined twice in the same body fails as
   * surely as one some other container or call registered first.
   */
  lemma {:induction false} LoadSucceedsIff(t: Table, defs: seq<Definition>)
    ensures DefineAll(t, defs).failure == None
            <==> DistinctNames(defs) && forall i :: 0 <= i < |defs| ==> defs[i].name !in t
    decreases |defs|
  {
    if DistinctNames(defs) && forall i :: 0 <= i < |defs| ==> defs[i].name !in t {
      DefinedMethodsAreFound(t, defs);
    } else if defs != [] && DefineAll(t, defs).failure == None {
      var s := Register(t, defs[0].name, Some(MethodObject(defs[0].id)), None);
      assert s.result.Ok?;
      var rest := defs[1..];
      assert DefineAll(s.table, rest).failure == None;
      LoadSucceedsIff(s.table, rest);
      forall i | 0 < i < |defs| ensures defs[i].name !in t && defs[i].name != defs[0].name {
        assert defs[i] == rest[i - 1];
      }
      forall i, j | 0 <= i < j < |defs| ensures defs[i].name != defs[j].name {
        if i > 0 {
          assert defs[i] == rest[i - 1] && defs[j] == rest[j - 1];
        }
      }
      assert false;
    }
  }

  /**
   * The namespace is process-wide: a container that defines a method whose
   * name is already registered (by any other container or call) fails to load.
   */
  lemma {:induction false} CollisionFails(t: Table, defs: seq<Definition>, k: nat)
    requires k < |defs| && defs[k].name in t
    ensures DefineAll(t, defs).failure.Some?
    ensures DefineAll(t, defs).failure.value.AlreadyDefined?
    decreases |defs|
  {
    var s := Register(t, defs[0].name, Some(MethodObject(defs[0].id)), None);
    if s.result.Ok? {
      assert k > 0;
      assert defs[1..][k - 1] == defs[k];
      CollisionFails(s.table, defs[1..], k - 1);
    }
  }

  /**
   * A failed load stops at the first failing definition `k`: the definitions
   * before `k` load cleanly, the table is exactly what they left, the name of
   * `k` is already in it, and the error names it.
   */
  lemma {:induction false} FailingDefinition(t: Table, defs: seq<Definition>) returns (k: nat)
    requires DefineAll(t, defs).failure.Some?
    ensures k < |defs|
    ensures DefineAll(t, defs[..k]).failure == None
    ensures DefineAll(t, defs).table == DefineAll(t, defs[..k]).table
    ensures defs[k].name in DefineAll(t, defs[..k]).table
    ensures DefineAll(t, defs).failure == Some(AlreadyDefined(defs[k].name))
    decreases |defs|
  {
    var s := Register(t, defs[0].name, Some(MethodObject(defs[0].id)), None);
    if s.result.Err? {
      k := 0;
      assert defs[..0] == [];
    } else {
      var j := FailingDefinition(s.table, defs[1..]);
      k := j + 1;
      assert defs[..k][0] == defs[0];
      assert defs[..k][1..] == defs[1..][..j];
      assert defs[1..][j] == defs[k];
    }
  }

  /** The container example: after defining `boom!` under a name not yet taken, `Transproc(:boom!)` wraps that method. */
  lemma DefinedMethodResolves(t: Table, meth: Name, id: nat, args: seq<Resolver.Arg>)
    requires meth !in t
    ensures DefineAll(t, [Definition(meth, id)]).failure == None
    ensures Resolver.Resolve(DefineAll(t, [Definition(meth, id)]).table, Resolver.Named(meth), args)
            == Ok(Some(Resolver.Unit(MethodObject(id), args)))
  {
    DefinedMethodsAreFound(t, [Definition(meth, id)]);
  }
}
