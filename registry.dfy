/**
 * The semantics of the process-wide function registry of `Transproc`
 * (lib/transproc.rb:20-40), stated on plain map values: registration with
 * insert-once semantics, lookup that raises on a missing or nil entry, and
 * the append-only behaviour of any sequence of registrations.
 */
module Registry {
  import opened Wrappers

  /** The name of a registered function (a Ruby symbol, given by its text). */
  type Name = string

  /** The class of an object stored in the registry or given to `Transproc(...)`. */
  datatype Kind =
    | ProcKind     // a `Proc`: a lambda, a proc or a block
    | MethodKind   // a `Method` object, as `method(meth)` returns
    | OtherKind    // any other object (`register(:x, 42)` stores it all the same)

  /** An opaque token for an object used as a function: its identity and its class. */
  datatype Callable = Callable(id: nat, kind: Kind)

  /** A stored entry: `fn || block` may be `nil`, so an entry is an optional callable. */
  type Entry = Option<Callable>

  /** The contents of the registry hash. */
  type Table = map<Name, Entry>

  /** The two kinds of `Transproc::Error` the registry raises. */
  datatype Error =
    | AlreadyDefined(name: Name)   // "function #{name} is already defined"
    | NotRegistered(name: Name)    // "no registered function for #{name}"

  /** What one call of `register` leaves behind: the new table and what the call returned or raised. */
  datatype Registration = Registration(table: Table, result: Result<Entry, Error>)

  /** Ruby's `fn || block`: the positional callable wins, the block is the fallback. */
  function Stored(fn: Option<Callable>, block: Option<Callable>): (e: Entry)
    ensures fn.Some? ==> e == fn
    ensures e.Some? <==> fn.Some? || block.Some?
    ensures e.Some? ==> e == fn || e == block
  {
    if fn.Some? then fn else block
  }

  /**
   * `register(name, fn, &block)`: raises when `name` is already a key, and
   * otherwise binds `name` to `fn || block` and returns that value. A Ruby
   * block is always a `Proc`; the model lets `block` be of any kind, and nothing
   * below depends on its kind.
   */
  function Register(t: Table, name: Name, fn: Option<Callable>, block: Option<Callable>): (r: Registration)
    ensures r.result.Err? <==> name in t
    ensures r.result.Err? ==> r.result.error == AlreadyDefined(name) && r.table == t
    ensures r.result.Ok? ==> r.table.Keys == t.Keys + {name}
    ensures r.result.Ok? ==> r.table[name] == r.result.value
    ensures r.result.Ok? && fn.Some? ==> r.result.value == fn
    ensures r.result.Ok? && fn.None? ==> r.result.value == block
    ensures forall k :: k in t ==> k in r.table && r.table[k] == t[k]
  {
    if name in t then
      Registration(t, Err(AlreadyDefined(name)))
    else
      var e := Stored(fn, block);
      Registration(t[name := e], Ok(e))
  }

  /**
   * `Transproc[name]`: the stored callable, raising when the name is absent
   * or its entry is `nil` (`functions[name] or raise ...`).
   */
  function Lookup(t: Table, name: Name): (r: Result<Callable, Error>)
    ensures r.Ok? <==> name in t && t[name].Some?
    ensures r.Ok? ==> t[name] == Some(r.value)
    ensures r.Err? ==> r.error == NotRegistered(name)
  {
    if name in t && t[name].Some? then Ok(t[name].value) else Err(NotRegistered(name))
  }

  /** `b` is `a` with possibly more keys: no key of `a` is lost or rebound. */
  ghost predicate Extends(a: Table, b: Table)
  {
    a.Keys <= b.Keys && forall k :: k in a ==> b[k] == a[k]
  }

  /** One call of `register` with its arguments. */
  datatype Call = Call(name: Name, fn: Option<Callable>, block: Option<Callable>)

  /**
   * The table after performing `calls` one after another, each call either
   * succeeding or raising (and the caller carrying on).
   */
  function Replay(t: Table, calls: seq<Call>): Table
    decreases |calls|
  {
    if calls == [] then t
    else Replay(Register(t, calls[0].name, calls[0].fn, calls[0].block).table, calls[1..])
  }

  /** The names a sequence of calls mentions. */
  function Names(calls: seq<Call>): set<Name>
  {
    set i | 0 <= i < |calls| :: calls[i].name
  }

  lemma ExtendsTransitive(a: Table, b: Table, c: Table)
    requires Extends(a, b) && Extends(b, c)
    ensures Extends(a, c)
  {
  }

  /** A single registration never loses or rebinds a key. */
  lemma RegisterExtends(t: Table, name: Name, fn: Option<Callable>, block: Option<Callable>)
    ensures Extends(t, Register(t, name, fn, block).table)
  {
  }

  /** The registry is append-only: across any sequence of calls no key is lost and none is rebound. */
  lemma {:induction false} ReplayAppendOnly(t: Table, calls: seq<Call>)
    ensures Extends(t, Replay(t, calls))
    decreases |calls|
  {
    if calls != [] {
      var t1 := Register(t, calls[0].name, calls[0].fn, calls[0].block).table;
      RegisterExtends(t, calls[0].name, calls[0].fn, calls[0].block);
      ReplayAppendOnly(t1, calls[1..]);
      ExtendsTransitive(t, t1, Replay(t1, calls[1..]));
    }
  }

  /** After any sequence of calls the keys are exactly the old keys and the names the calls used. */
  lemma {:induction false} ReplayKeys(t: Table, calls: seq<Call>)
    ensures Replay(t, calls).Keys == t.Keys + Names(calls)
    decreases |calls|
  {
    if calls == [] {
      assert Names(calls) == {};
    } else {
      var t1 := Register(t, calls[0].name, calls[0].fn, calls[0].block).table;
      ReplayKeys(t1, calls[1..]);
      assert t1.Keys == t.Keys + {calls[0].name};
      assert Names(calls) == {calls[0].name} + Names(calls[1..]) by {
        forall n | n in Names(calls) ensures n in {calls[0].name} + Names(calls[1..]) {
          var i :| 0 <= i < |calls| && calls[i].name == n;
          if i > 0 { assert calls[1..][i - 1] == calls[i]; }
        }
        forall n | n in Names(calls[1..]) ensures n in Names(calls) {
          var i :| 0 <= i < |calls[1..]| && calls[1..][i].name == n;
          assert calls[i + 1] == calls[1..][i];
        }
      }
    }
  }

  /** A successful lookup keeps giving the same callable after any further registrations. */
  lemma LookupSurvivesReplay(t: Table, calls: seq<Call>, name: Name)
    requires Lookup(t, name).Ok?
    ensures Lookup(Replay(t, calls), name) == Lookup(t, name)
  {
    ReplayAppendOnly(t, calls);
  }

  /** Registering a name that is already taken raises afterwards, whatever had been registered in between. */
  lemma TakenStaysTaken(t: Table, calls: seq<Call>, name: Name, fn: Option<Callable>, block: Option<Callable>)
    requires name in t
    ensures Register(Replay(t, calls), name, fn, block).result == Err(AlreadyDefined(name))
  {
    ReplayAppendOnly(t, calls);
  }

  /** A fresh registration with a callable is found again by lookup. */
  lemma RegisterThenLookup(t: Table, name: Name, fn: Option<Callable>, block: Option<Callable>)
    requires name !in t && Stored(fn, block).Some?
    ensures Lookup(Register(t, name, fn, block).table, name) == Ok(Stored(fn, block).value)
  {
  }

  /** The second registration of a name raises and lookup still gives the first callable. */
  lemma DuplicateKeepsFirst(t: Table, name: Name, fn1: Option<Callable>, block1: Option<Callable>,
                            fn2: Option<Callable>, block2: Option<Callable>)
    requires name !in t && Stored(fn1, block1).Some?
    ensures var t1 := Register(t, name, fn1, block1).table;
            && Register(t1, name, fn2, block2) == Registration(t1, Err(AlreadyDefined(name)))
            && Lookup(Register(t1, name, fn2, block2).table, name) == Ok(Stored(fn1, block1).value)
  {
  }

  /**
   * Registering with neither a callable nor a block stores `nil`: the name is
   * taken from then on, so registering it again raises, yet looking it up raises too.
   */
  lemma NilEntryIsTakenButNotFound(t: Table, name: Name, fn: Option<Callable>, block: Option<Callable>)
    requires name !in t
    ensures var t1 := Register(t, name, None, None).table;
            && t1[name] == None
            && Register(t1, name, fn, block).result == Err(AlreadyDefined(name))
            && Lookup(t1, name) == Err(NotRegistered(name))
  {
  }
}
