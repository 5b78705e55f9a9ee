/** type_safe::deferred_construction<T>: an object whose value is built
    after the object itself, exactly once.

    The C++ class keeps raw aligned storage and a flag telling whether a
    value lives in it.  Here the storage is an `Option<T>` slot (a live
    value or nothing) next to the `initialized` flag, and `Valid()` says
    that the flag and the slot agree.  Each operation is specified by the
    abstract transition `Step` of module DeferredState: a mutating method
    promises `Step(old(Model()), op) == Some(Model())`, and its `requires`
    is the DEBUG_ASSERT of the C++ code.
 */
module TypeSafe {
  import opened DeferredState

  class DeferredConstruction<T> {
    /** The storage: holds the constructed value exactly when initialized. */
    var storage: Option<T>
    /** Whether a value has been constructed in the storage. */
    var initialized: bool

    /** The flag tells the truth about the storage. */
    ghost predicate Valid()
      reads this
    {
      initialized == storage.Some?
    }

    /** The abstract state of the object. */
    ghost function Model(): State<T>
      reads this
      requires Valid()
    {
      if initialized then Initialized(storage.value) else Uninitialized
    }

    /** The default constructor: the object starts un-initialized. */
    constructor ()
      ensures Valid()
      ensures Model() == Default()
      ensures !HasValue()
    {
      storage := None;
      initialized := false;
    }

    /** The copy constructor: un-initialized if `other` is, otherwise a copy
        of `other`'s value; `other` is not changed. */
    constructor Copy(other: DeferredConstruction<T>)
      requires other.Valid()
      ensures Valid()
      ensures Model() == CopyOf(other.Model())
      ensures HasValue() == other.HasValue()
      ensures HasValue() ==> Value() == other.Value()
    {
      initialized := other.initialized;
      storage := if other.initialized then Some(other.Value()) else None;
    }

    /** The move constructor: the new object takes over `other`'s state;
        `other` stays initialized if it was, holding `residue`, the
        moved-from value that value_type's move constructor leaves. */
    constructor Move(other: DeferredConstruction<T>, residue: T)
      requires other.Valid()
      modifies other
      ensures Valid() && other.Valid()
      ensures Model() == MoveOf(old(other.Model()), residue).0
      ensures other.Model() == MoveOf(old(other.Model()), residue).1
      ensures Step(old(other.Model()), OpMovedFrom(residue)) == Some(other.Model())
      ensures other.HasValue() == old(other.HasValue())
    {
      initialized := other.initialized;
      storage := other.storage;
      new;
      if other.initialized {
        other.storage := Some(residue);
      }
    }

    /** emplace: constructs the value `v` (built from emplace's arguments)
        in the storage; the object must not be initialized yet. */
    method Emplace(v: T)
      requires Valid()
      requires !HasValue()
      modifies this
      ensures Valid()
      ensures Step(old(Model()), OpEmplace(v)) == Some(Model())
      ensures HasValue() && Value() == v
    {
      storage := Some(v);
      initialized := true;
    }

    /** The converting operator=: the same as emplace, with the same
        precondition; returns the object itself. */
    method Assign(u: T) returns (self: DeferredConstruction<T>)
      requires Valid()
      requires !HasValue()
      modifies this
      ensures Valid()
      ensures self == this
      ensures Step(old(Model()), OpAssign(u)) == Some(Model())
      ensures Step(old(Model()), OpEmplace(u)) == Some(Model())
    {
      Emplace(u);
      self := this;
    }

    /** operator bool: the same as has_value(). */
    function ToBool(): (b: bool)
      reads this
      requires Valid()
      ensures b == HasValue()
    {
      HasValue()
    }

    /** has_value: whether the object is initialized. */
    function HasValue(): (b: bool)
      reads this
      requires Valid()
      ensures b <==> Model().Initialized?
      ensures b <==> ValueOf(Model()).Some?
    {
      initialized
    }

    /** value(): the stored value; the object must be initialized. */
    function Value(): (v: T)
      reads this
      requires Valid()
      requires HasValue()
      ensures ValueOf(Model()) == Some(v)
    {
      storage.value
    }

    /** Assigning `v` through the reference that value() returns: the
        object must be initialized, and it stays initialized. */
    method SetValue(v: T)
      requires Valid()
      requires HasValue()
      modifies this
      ensures Valid()
      ensures Step(old(Model()), OpWrite(v)) == Some(Model())
      ensures HasValue() && Value() == v
    {
      storage := Some(v);
    }
  }

  /** A client of the class: the state changes an object can go through,
      as the contracts above alone describe them. */
  method Lifecycle<T>(a: T, b: T, residue: T) returns (x: T, y: T, z: T)
    ensures x == a && y == b && z == residue
  {
    var d := new DeferredConstruction<T>();
    var e := new DeferredConstruction<T>.Copy(d);
    assert !e.HasValue();
    d.Emplace(a);
    var c := new DeferredConstruction<T>.Copy(d);
    x := c.Value();
    c.SetValue(b);
    assert d.Value() == a;
    var m := new DeferredConstruction<T>.Move(c, residue);
    y := m.Value();
    z := c.Value();
  }
}
