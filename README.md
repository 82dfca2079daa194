# gx::Optional in Dafny

A model of `gx::Optional<T>` from `optional/optional.h`. The container holds nothing or exactly one `T` in an inline buffer. A presence flag (`is_initialized_`) guards every construction into that buffer and every destruction of the `T` in it.

The model has two layers:

- `OptionalSpec` (`optional_spec.dfy`) describes the buffer as a state machine over `Storage<T> = Raw | Live(obj)`. A log records every lifecycle event the container performs on `T`:
  - `Construct`: placement construction into raw storage.
  - `Assign`: `T`'s assignment operator on the live object.
  - `Destroy`: an explicit destructor call.

  The log is what separates "assign in place" from "destroy and reconstruct". `Replay` is an independent reading of a log. It runs the events from raw storage and rejects the first one that constructs over a live object, assigns to or destroys raw bytes, or destroys an object that is not the live one. A state is `Legal` when its log replays to its storage. Each operation of the container is a transition function that keeps `Legal`. Lemmas prove the lifecycle counts: nothing leaks and nothing is destroyed twice.
- `Gx` (`optional.dfy`) is `class Optional<T>`. It has the flag `isInitialized`, the buffer `data` and a ghost `log`. Its invariant `Valid()` says two things: the flag is set exactly when a `T` lives in the buffer, and the state is `Legal`. Each constructor and each mutator is proved to perform the matching `OptionalSpec` transition on `State()`. The readers `HasValue`, `Deref` and `Value` change nothing and are tied to the storage.

`Usage` (`usage.dfy`) holds clients that use only the contracts. They cover these scenarios:
- construct, read, reset and reassign an `int`;
- assign one optional from another, first when the source is present, then when it is empty;
- checked access on an empty optional, then after `Emplace`;
- reset twice;
- a copy is independent of its source;
- self-assignment.

The C++ copy and move overloads of each operation do the same thing apart from `std::move`. Each pair is one Dafny member with a parameter `how: Transfer`, which is `Copied` for the `const&` overload and `Moved` for the `&&` overload. The log records which one ran.

## Model

| member | source | states |
|---|---|---|
| `OptionalSpec.LifetimeBalance` | optional/optional.h:150-151 | In every legal state, constructions equal destructions plus the number of live objects (0 or 1). No `T` leaks and none is destroyed twice. |
| `OptionalSpec.Empty` | optional/optional.h:19 | The default state is legal and empty, and no `T` has been constructed. |
| `OptionalSpec.Holding` | optional/optional.h:20-27 | Construction from a `T` ends present with that value, after exactly one construction and nothing else. |
| `OptionalSpec.CopiedFrom` | optional/optional.h:28-39 | Construction from another optional is present exactly when the source is, with the source's value. An empty source causes no event. A present source causes one construction. |
| `OptionalSpec.AssignedValue` | optional/optional.h:41-58 | Assigning a `T` ends present with that value. When a value was present it is one in-place assignment (no destroy, no construct). When empty it is one construction. Legality is kept. |
| `OptionalSpec.AssignedOptional` | optional/optional.h:59-84 | Assigning from a distinct optional ends holding exactly what the source holds. Both present: one in-place assignment. This present and source empty: exactly `Reset`. This empty and source present: one construction. Both empty: no change. |
| `OptionalSpec.Cleared` | optional/optional.h:135-140 | `Reset` ends empty. On an empty optional it changes nothing. On a present one it appends exactly one destruction of the live value. |
| `OptionalSpec.Emplaced` | optional/optional.h:142-147 | `Emplace` ends present with the new value. A previous value is destroyed first, then the new one is constructed. When empty there is only the construction. |
| `OptionalSpec.ValueOf` | optional/optional.h:111-133 | The checked access fails exactly when the storage is raw, with the message "Bad optional access" (lines 11-13). Otherwise it returns the live value. |
| `OptionalSpec.ResetIdempotent` | optional/optional.h:135-140 | `Reset` twice is the same as `Reset` once. |
| `OptionalSpec.NoLiveTAfterReset` | optional/optional.h:86-88 | After the destructor (which is `Reset`), every `T` ever constructed has been destroyed: constructions equal destructions, so nothing leaks. |
| `OptionalSpec.ResetCounts` | optional/optional.h:135-140 | `Reset` adds one destruction when a value was present and none otherwise. It never constructs. |
| `OptionalSpec.AssignInPlaceCounts` | optional/optional.h:41-58 | Assigning a `T` to a present optional changes neither the destruction count nor the construction count. |
| `OptionalSpec.EmplaceCounts` | optional/optional.h:142-147 | `Emplace` destroys a previous value exactly once (none when empty) and constructs exactly once. |
| `OptionalSpec.UnguardedSelfAssignment` | optional/optional.h:59-61 | Without the `this != &rhs` guard, assigning a present optional to itself would record an extra assignment of `T` to itself. So the guard is observable. |
| `Gx.Optional.constructor` | optional/optional.h:19 | Default construction gives a valid, empty optional with an empty log. |
| `Gx.Optional.FromValue` | optional/optional.h:20-27 | Construction from a `T` performs `Holding`. |
| `Gx.Optional.FromOptional` | optional/optional.h:28-39 | Construction from another optional performs `CopiedFrom`. In the move case too, the source's flag and storage are unchanged. |
| `Gx.Optional.AssignValue` | optional/optional.h:41-58 | Assigning a `T` performs `AssignedValue` and keeps `Valid`. |
| `Gx.Optional.AssignFrom` | optional/optional.h:59-84 | Self-assignment leaves storage and log unchanged. Otherwise the method performs `AssignedOptional`. Afterwards both flags agree, and `rhs` keeps its flag and value. |
| `Gx.Optional.Destruct` | optional/optional.h:86-88 | The destructor performs exactly the `Reset` transition. |
| `Gx.Optional.HasValue` | optional/optional.h:90-92 | Reports exactly whether a `T` lives in the buffer. It only reads. |
| `Gx.Optional.Deref` | optional/optional.h:94-109 | On a present optional, returns the live value. It requires presence, because the source leaves the empty case undefined. |
| `Gx.Optional.Value` | optional/optional.h:111-133 | Returns `ValueOf` of the storage: `BadOptionalAccess` exactly when `HasValue()` is false. It changes nothing. |
| `Gx.Optional.Reset` | optional/optional.h:135-140 | Performs `Cleared` and keeps `Valid`. |
| `Gx.Optional.Emplace` | optional/optional.h:142-147 | Performs `Emplaced`: it resets first, then constructs, then sets the flag. |

## Left out

- The raw buffer (`alignas(T) char data_[sizeof(T)]`), placement `new`, `reinterpret_cast` and explicit `~T()` calls. These become the abstract `Storage<T>` and the ghost event log. Byte layout and alignment have no meaning in Dafny.
- The reference categories of `operator*` and `Value()` (`&`, `const&`, `&&`). Each overload family is one member that returns the value.
- `Gx.Optional.Deref` and `Gx.Optional.Value` return a copy of the held value, not a reference or pointer to it. Through `T& operator*() &`, `T* operator->()` and `T& Value() &` (optional/optional.h:94-96, 104-106, 111-117) a caller can change the held `T` in place, for example `*b = x`. The model has no such write path: the held value changes only through the assignment operators and `Emplace`.
- `Gx.Optional.Deref` also stands for `operator->`. Dafny has no pointer into a field, so the pointer is modelled as the value it points to.
- What a moved-from `T` contains. A move is recorded as `Moved` in the log and otherwise treated as a copy. The source optional's flag stays set, as in the code.
- `Gx.Optional.Emplace`: `T`'s constructors are code outside this model, so the method takes the `T` already built from the arguments. The model therefore builds the new `T` before the `Reset`, whereas the code evaluates `T(std::forward(args)...)` only after `Reset` has destroyed the held value (optional/optional.h:144-145). Arguments that alias the held value (`o.Emplace(*o)`) are not covered: in the code they read a destroyed object, which is undefined behaviour, while `Emplaced` still ends holding the value passed in.
- Exceptions thrown by `T`'s own constructors or assignment operators, and the state they would leave behind. The model assumes `T`'s operations succeed.
- The C++ exception machinery of `BadOptionalAccess` (deriving from `std::exception`, throwing). The checked accessor returns a `Result` instead.
- `[[nodiscard]]` on `HasValue`.
- The `Optional&` that `operator=` returns for chaining.
- Undefined behaviour of `operator*` and `operator->` on an empty optional. It appears only as the precondition `isInitialized`.
- The demonstration program `main.cpp`, which only prints to the console.
