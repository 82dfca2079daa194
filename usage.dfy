/**
 Clients of `Gx.Optional` that use only the contracts of its members, as a
 caller of the container would.
 */
module Usage {
  import opened OptionalSpec
  import opened Gx

  /** An `int` optional: construct, read, reset, assign again. */
  method IntLifecycle() {
    var a := new Optional.FromValue(42, Copied);
    assert a.HasValue();
    var x := a.Deref();
    assert x == 42;
    a.Reset();
    assert !a.HasValue();
    a.AssignValue(7, Moved);
    x := a.Deref();
    assert x == 7;
  }

  /** Optional-to-optional assignment follows the source, present and then empty. */
  method StringAssignment() {
    var a := new Optional<string>();
    var b := new Optional.FromValue("x", Copied);
    a.AssignFrom(b, Copied);
    var s := a.Deref();
    assert a.HasValue() && s == "x";
    b.Reset();
    a.AssignFrom(b, Copied);
    assert !a.HasValue();
  }

  /** The checked accessor fails on an empty optional and succeeds after `Emplace`. */
  method CheckedAccess() {
    var a := new Optional<int>();
    var r := a.Value();
    assert r.Failure? && r.error.What() == "Bad optional access";
    a.Emplace(5);
    r := a.Value();
    assert r == Success(5);
  }

  /** Resetting twice leaves the optional empty both times and destroys once. */
  method ResetTwice() {
    var a := new Optional.FromValue(1, Copied);
    a.Reset();
    assert !a.HasValue();
    a.Reset();
    assert !a.HasValue();
    assert a.log == [Construct(1, Copied), Destroy(1)];
  }

  /**
   A copy is independent of its source (shown by assigning to the copy, since
   `Deref` gives no reference to write through), and self-assignment changes nothing.
   */
  method CopyIsIndependent() {
    var a := new Optional.FromValue(3, Copied);
    var b := new Optional.FromOptional(a, Copied);
    b.AssignValue(4, Copied);
    var x := a.Deref();
    var y := b.Deref();
    assert x == 3 && y == 4;
    ghost var before := b.State();
    b.AssignFrom(b, Moved);
    assert b.State() == before;
  }
}
