/**
 `gx::Optional<T>`: a container holding nothing or exactly one `T` in an
 inline buffer, guarded by the presence flag `isInitialized`.

 The buffer is `data`: raw bytes or one live `T`. The ghost `log` records the
 lifecycle events the container performs on `T`, so each constructor and
 mutator is specified by the transition of `OptionalSpec` it performs on
 `State()`; the readers change nothing.
 */
module Gx {
  import opened OptionalSpec

  class Optional<T> {
    var isInitialized: bool
    var data: Storage<T>
    ghost var log: seq<Event<T>>

    /** The abstract state: storage and event log. */
    ghost function State(): Machine<T>
      reads this
    {
      Machine(data, log)
    }

    /** The flag tells exactly whether a `T` lives in the buffer, and the log obeys the storage discipline. */
    ghost predicate Valid()
      reads this
    {
      isInitialized == data.Live? && Legal(State())
    }

    /** `Optional()`: empty. */
    constructor ()
      ensures State() == Empty() && Valid()
    {
      isInitialized := false;
      data := Raw;
      log := [];
    }

    /** `Optional(const T&)` and `Optional(T&&)`: present, holding `v`. */
    constructor FromValue(v: T, how: Transfer)
      ensures State() == Holding(v, how) && Valid()
    {
      data := Live(v);
      isInitialized := true;
      log := [Construct(v, how)];
    }

    /**
     `Optional(const Optional&)` and `Optional(Optional&&)`: takes the source's
     value when it has one; the source's flag and storage are left as they were.
     */
    constructor FromOptional(other: Optional<T>, how: Transfer)
      requires other.Valid()
      ensures State() == CopiedFrom(old(other.data), how) && Valid()
      ensures other.isInitialized == old(other.isInitialized) && other.data == old(other.data)
    {
      if other.isInitialized {
        data := Live(other.data.obj);
        isInitialized := true;
        log := [Construct(other.data.obj, how)];
      } else {
        data := Raw;
        isInitialized := false;
        log := [];
      }
    }

    /** `operator=(const T&)` and `operator=(T&&)`: assign in place when present, construct when empty. */
    method AssignValue(v: T, how: Transfer)
      requires Valid()
      modifies this
      ensures State() == AssignedValue(old(State()), v, how) && Valid()
    {
      if isInitialized {
        data := Live(v);
        log := log + [Assign(v, how)];
      } else {
        data := Live(v);
        log := log + [Construct(v, how)];
        isInitialized := true;
      }
    }

    /**
     `operator=(const Optional&)` and `operator=(Optional&&)`: a no-op on
     self-assignment, otherwise the four cases of `AssignedOptional`.
     */
    method AssignFrom(rhs: Optional<T>, how: Transfer)
      requires Valid() && rhs.Valid()
      modifies this
      ensures rhs == this ==> State() == old(State())
      ensures rhs != this ==> State() == AssignedOptional(old(State()), old(rhs.data), how)
      ensures Valid()
      ensures rhs.isInitialized == old(rhs.isInitialized) && rhs.data == old(rhs.data)
      ensures isInitialized == rhs.isInitialized
    {
      if rhs != this {
        if isInitialized && rhs.isInitialized {
          data := Live(rhs.data.obj);
          log := log + [Assign(rhs.data.obj, how)];
        } else if isInitialized && !rhs.isInitialized {
          Reset();
        } else if !isInitialized && rhs.isInitialized {
          data := Live(rhs.data.obj);
          log := log + [Construct(rhs.data.obj, how)];
          isInitialized := true;
        }
      }
    }

    /** `~Optional()`: exactly `Reset`. */
    method Destruct()
      requires Valid()
      modifies this
      ensures State() == Cleared(old(State())) && Valid()
    {
      Reset();
    }

    /** `HasValue()`: whether a `T` lives in the buffer; reads only. */
    function HasValue(): (b: bool)
      reads this
      requires Valid()
      ensures b <==> data.Live?
    {
      isInitialized
    }

    /**
     `operator*` and `operator->`: the contained value, unchecked (callers must
     know it is present). A copy of the value, not a reference into the buffer.
     */
    method Deref() returns (v: T)
      requires Valid() && isInitialized
      ensures data == Live(v)
    {
      v := data.obj;
    }

    /** The three `Value()` overloads: the contained value, or `BadOptionalAccess` when empty. */
    method Value() returns (r: Result<T>)
      requires Valid()
      ensures r == ValueOf(data)
      ensures r.Failure? <==> !HasValue()
    {
      if !isInitialized {
        return Failure(BadOptionalAccess);
      }
      return Success(data.obj);
    }

    /** `Reset()`: destroys a present value once and marks empty; nothing when already empty. */
    method Reset()
      requires Valid()
      modifies this
      ensures State() == Cleared(old(State())) && Valid()
    {
      if isInitialized {
        log := log + [Destroy(data.obj)];
        data := Raw;
        isInitialized := false;
      }
    }

    /**
     `Emplace(args...)`: `Reset`, then construct `v` (the `T` that `T`'s
     constructor builds from `args`) and mark present.
     */
    method Emplace(v: T)
      requires Valid()
      modifies this
      ensures State() == Emplaced(old(State()), v) && Valid()
    {
      Reset();
      data := Live(v);
      log := log + [Construct(v, Forwarded)];
      isInitialized := true;
    }
  }
}
