/**
 * The registry state of the `Transproc` module (lib/transproc.rb:6-40):
 * the memoised hash `@_functions`, created empty on first use, and the
 * `register` and `[]` operations that go through it.
 */
module Transproc {
  import opened Wrappers
  import opened Registry

  /** The `Transproc` module object as far as its function registry goes. */
  class FunctionRegistry {
    /** `@_functions`: `None` until `functions` has been called once. */
    var memo: Option<Table>

    /** A process starts with the instance variable unset. */
    constructor ()
      ensures memo == None
    {
      memo := None;
    }

    /** What the registry holds; unset means empty. */
    function Contents(): Table
      reads this
    {
      match memo
      case None => map[]
      case Some(t) => t
    }

    /** `functions`: `@_functions ||= {}`, so it creates the hash on first use and never replaces it. */
    method Functions() returns (t: Table)
      modifies this
      ensures t == old(Contents())
      ensures memo == Some(t)
    {
      if memo.None? {
        memo := Some(map[]);
      }
      t := memo.value;
    }

    /** `register(name, fn, &block)`: raises on a taken name, else stores `fn || block` and returns it. */
    method Register(name: Name, fn: Option<Callable>, block: Option<Callable>) returns (r: Result<Entry, Error>)
      modifies this
      ensures var s := Registry.Register(old(Contents()), name, fn, block);
              memo == Some(s.table) && r == s.result
    {
      var t := Functions();
      if name in t {
        r := Err(AlreadyDefined(name));
        return;
      }
      var e := Stored(fn, block);
      t := Functions();
      memo := Some(t[name := e]);
      r := Ok(e);
    }

    /** `Transproc[name]`: the stored callable, raising when it is absent or `nil`; only creates the hash. */
    method Fetch(name: Name) returns (r: Result<Callable, Error>)
      modifies this
      ensures r == Lookup(old(Contents()), name)
      ensures memo == Some(old(Contents()))
    {
      var t := Functions();
      if name in t && t[name].Some? {
        r := Ok(t[name].value);
      } else {
        r := Err(NotRegistered(name));
      }
    }
  }
}
