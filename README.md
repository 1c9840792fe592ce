# transproc registry and resolver, in Dafny

This project models the core of `lib/transproc.rb`: the process-wide function
registry of the `Transproc` module, the `Transproc::Functions` extension that
registers every method a container defines, and the top-level
`Transproc(fn, *args)` resolver that turns a proc or a registered name into a
`Transproc::Function` wrapper.

- `wrappers.dfy`: `Option` (Ruby's `nil`) and `Result` (return or raise).
- `registry.dfy` (module `Registry`): the registry's semantics on map values.
  `Register` has insert-once semantics, `Lookup` raises on a missing or `nil`
  entry, and `Replay` runs any sequence of registrations. The lemmas show the
  table is append-only.
- `transproc.dfy` (module `Transproc`): class `FunctionRegistry`. Its field
  `memo` is the memoised `@_functions` hash, unset until `functions` first
  runs. The class has the methods `Functions`, `Register` and `Fetch` (`[]`),
  each proved against the functions of `Registry`.
- `resolver.dfy` (module `Resolver`): the `case` dispatch of `Transproc(...)`.
  `Resolve` is a function on the table. `Transproc` is the method that runs it
  against a `FunctionRegistry`.
- `functions.dfy` (module `Functions`): the effect of `method_added`, and
  `DefineAll`. `DefineAll` loads a container body whose definitions each fire
  the hook. The first one that raises ends the body.

Callables and extra arguments are opaque tokens, `Callable(id, kind)` and
`Arg(id)`. A callable's kind says whether the object is a `Proc`, a `Method`
or anything else, because `when Proc` matches only the first.
The resolver's output `Unit(fn, args)` stands for
`Transproc::Function.new(fn, args: args)`.

For a first argument that is neither a `Proc` nor a `Symbol`, the `case` has
no matching branch, so `Transproc(...)` returns `nil` and raises nothing. The
model keeps this behaviour (`Ok(None)`) rather than adding an "invalid source"
error that the code does not have.

## Model

| member | source | states |
|---|---|---|
| `Registry.Register` | lib/transproc.rb:20-24 | raises `AlreadyDefined(name)` exactly when the name is a key, and then leaves the table unchanged; otherwise adds exactly that key, bound to `fn`, or to the block when `fn` is nil, and returns the stored value; every existing entry is kept |
| `Registry.Stored` | lib/transproc.rb:23 | the stored value of `fn \|\| block`: `fn` when given, otherwise the block; nil exactly when both are nil |
| `Registry.Lookup` | lib/transproc.rb:31-33 | succeeds exactly when the name is a key with a non-nil entry, and returns that stored callable; otherwise raises `NotRegistered(name)` |
| `Registry.RegisterExtends` | lib/transproc.rb:22-23 | one registration never removes or rebinds a key |
| `Registry.ReplayAppendOnly` | lib/transproc.rb:22-23 | across any sequence of `register` calls, succeeding or raising, the key set only grows and no existing key's value changes |
| `Registry.ReplayKeys` | lib/transproc.rb:22-23 | after any sequence of calls the keys are exactly the old keys plus the names the calls used |
| `Registry.LookupSurvivesReplay` | lib/transproc.rb:20-33 | a name that looks up successfully gives the same callable after any later registrations |
| `Registry.TakenStaysTaken` | lib/transproc.rb:22 | a name once taken makes every later `register` of it raise, whatever was registered in between |
| `Registry.RegisterThenLookup` | lib/transproc.rb:20-33 | after registering a fresh name with a callable or a block, lookup returns that callable |
| `Registry.DuplicateKeepsFirst` | spec/integration/transproc_spec.rb:38-41 | registering a name twice raises on the second call, leaves the table unchanged, and lookup still gives the first callable. Each call may pass a callable or a block |
| `Registry.NilEntryIsTakenButNotFound` | lib/transproc.rb:22-32 | registering with neither a callable nor a block stores nil; the name is then taken, so registering it again raises, yet lookup of it raises too |
| `Transproc.FunctionRegistry.constructor` | lib/transproc.rb:38-40 | the registry starts with `@_functions` unset, which reads as empty |
| `Transproc.FunctionRegistry.Functions` | lib/transproc.rb:38-40 | returns the current hash, creating it empty on first use and never replacing it afterwards |
| `Transproc.FunctionRegistry.Register` | lib/transproc.rb:20-24 | the new registry contents and the returned value or raised error are exactly those of `Registry.Register` on the old contents |
| `Transproc.FunctionRegistry.Fetch` | lib/transproc.rb:31-33 | returns or raises as `Registry.Lookup` on the old contents; the contents do not change (the hash may be created) |
| `Resolver.Resolve` | lib/transproc.rb:77-82 | a `Proc` gives a unit with that same proc and the extra args in order; any other object given directly, a `Method` included, gives nil; a symbol gives a unit with its stored callable and the args, or raises `NotRegistered` exactly when the name is absent or nil; any other source gives nil |
| `Resolver.Transproc` | lib/transproc.rb:77-82 | returns what `Resolve` gives on the old contents and leaves the contents unchanged; for a source that is not a symbol it does not touch the registry at all |
| `Resolver.RawIgnoresRegistry` | lib/transproc.rb:79 | resolving an object given directly gives the same result whatever the registry holds |
| `Resolver.MethodObjectOnlyByName` | lib/transproc.rb:78-80 | a `Method` object given directly takes no branch and yields nil, while the same object stored under a name resolves by that name |
| `Resolver.NamedRaisesIffLookupRaises` | lib/transproc.rb:80 | resolving a symbol raises exactly when `Transproc[name]` raises, with the same error, and otherwise wraps the looked-up callable with the args |
| `Resolver.RegisteredNameResolves` | spec/integration/transproc_spec.rb:19-36 | a function registered under a fresh name, by value or by block, resolves by that name to a unit holding it and the given args |
| `Resolver.ResolveSurvivesReplay` | lib/transproc.rb:20-82 | whatever resolves now resolves to the same unit after any later registrations |
| `Resolver.UnknownAndOtherSources` | lib/transproc.rb:78-81 | an unregistered symbol raises `NotRegistered`; a source that is neither proc nor symbol yields nil and does not raise |
| `Functions.MethodAdded` | lib/transproc.rb:57-60 | defining a method registers its `Method` object under the method's name, with exactly the effect and outcome of `register(meth, method(meth))` |
| `Functions.DefineAll` | lib/transproc.rb:56-61 | loading a container body whose instance-method definitions (`def name`, not `def self.name`) each fire `method_added` in order: no key is lost, and the first definition whose name is taken raises `AlreadyDefined` for a name in the table, leaves the table as it was before that definition, and ends the body |
| `Functions.DefineAllAppendOnly` | lib/transproc.rb:56-61 | loading a container body, even one that fails part way, never removes or rebinds an entry |
| `Functions.DefinedMethodsAreFound` | lib/transproc.rb:42-61 | a container whose method names are distinct and not yet registered loads without error, and each of its methods is then found under its own name |
| `Functions.CollisionFails` | lib/transproc.rb:57-59 | a container that defines a name registered before the load (by any other container or call) fails to load with `AlreadyDefined`: the namespace is process-wide |
| `Functions.LoadSucceedsIff` | lib/transproc.rb:22-59 | a container loads without error exactly when its method names are distinct and none is registered yet; a name defined twice in the same body fails too |
| `Functions.FailingDefinition` | lib/transproc.rb:57-59 | a failed load stops at the first failing definition: the definitions before it load cleanly, the table is exactly what they left, its name is already in that table, and the error is `AlreadyDefined` for that name |
| `Functions.DefinedMethodResolves` | lib/transproc.rb:44-53 | after a container defines a method under an untaken name, `Transproc(name, *args)` wraps that method object with the args |

## Left out

- Invoking a `Transproc::Function` and composing two with `>>`: `transproc/function` and `transproc/composer` are not part of this model. A `Unit` is an opaque record of a callable and its bound arguments.
- The concrete lambdas of the tests (`to_i`, `to_f`, `to_s`, string comparison): they are Ruby library behaviour.
- The metaprogramming of `method_added`: `module_function meth` and the hook firing on `def`. Only the effect, one registration of the method object per definition, is modelled.
- Direct access to the hash. `functions` returns the live hash, and `register` updates that same object in place. A caller holding it sees later registrations, and can rebind or delete entries without going through `register`. In the model the table is a value that `Functions` returns as a snapshot. Writes made directly to the hash are not modelled, so the append-only results hold for changes made through `register` only.
- Singleton definitions (`def self.name`) in a container: they fire `singleton_method_added`, not `method_added`, and are not registered. `DefineAll` takes instance-method definitions only.
- Names other than symbols. A zero-argument `register` uses the key `nil`, and a string name is a different key from the symbol. Names are modelled as symbol text only.
- Positional arguments to `register` beyond the second, which Ruby silently ignores.
- A `fn` of `false`, which `fn || block` treats like `nil`. The model's `None` covers both.
- Error message strings and the `Transproc::Error` class. Errors are modelled only as kinds, `AlreadyDefined` and `NotRegistered`.
- Thread safety of the global hash: the code has none, and the model is sequential.
- Process-wide global state: the registry is an explicit `FunctionRegistry` object passed to the resolver and the hook.
