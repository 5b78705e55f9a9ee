# deferred_construction

A Dafny model of `type_safe::deferred_construction<T>`, the small building
block in `include/type_safe/deferred_construction.hpp` that lets an object
exist before its value is constructed.

An object has two states. It starts **un-initialized**. It becomes
**initialized** once, through `emplace` or the converting `operator=`. It
never goes back: assignment from another `deferred_construction` is deleted
and there is no reset. `has_value()` and `operator bool` report the state.
`value()` hands out the stored value and needs an initialized object. Copy
and move construction carry the source's state over. A moved-from source
stays initialized, holding whatever value_type's move left behind.

The project has two modules.

- `DeferredState` (`deferred_state.dfy`) is the behaviour on values.
  `State` is `Uninitialized | Initialized(value)`. `Op` lists every
  operation that can be applied to an existing object. `Step` gives the
  effect of one operation, or `None` where its `DEBUG_ASSERT` would fire.
  `Run` applies a trace of operations. The lemmas prove properties of
  whole traces: monotonicity, initialization at most once, and that a
  second initialization always violates its precondition. What each single
  operation does is stated by the contracts of the class, against `Step`.
- `TypeSafe` (`deferred_construction.dfy`) is the class
  `DeferredConstruction<T>`. Its fields are `storage` (an `Option<T>` slot
  standing for the aligned storage) and `initialized`. `Valid()` says that
  the flag agrees with the slot. `Model()` gives the abstract `State`.
  Every mutating method ensures `Step(old(Model()), op) == Some(Model())`,
  and its `requires` is the C++ `DEBUG_ASSERT`. `Lifecycle` is a client that
  uses only the contracts.

The C++ arguments of `emplace(args...)` are modelled by the value they
construct. Running value_type's constructor is code outside this model. In
the same way, the move constructor takes as a parameter the moved-from value
that value_type's move constructor leaves in the source.

The doc comment of the move constructor (line 56) says that it "will copy
the stored value". The code moves it (line 65). The model follows the code.
The new object gets the source's value, and the source keeps its flag but
holds the moved-from residue.

## Model

| member | source | states |
|---|---|---|
| TypeSafe.DeferredConstruction.constructor | include/type_safe/deferred_construction.hpp:39-42 | a default-constructed object is valid and un-initialized: `has_value()` is false |
| TypeSafe.DeferredConstruction.Copy | include/type_safe/deferred_construction.hpp:44-52 | the copy is initialized iff `other` is, holds `other`'s value when it is, and `other` is not modified |
| TypeSafe.DeferredConstruction.Move | include/type_safe/deferred_construction.hpp:54-66 | the new object takes over `other`'s state; `other` keeps its initialized flag and, if initialized, holds the moved-from residue |
| TypeSafe.DeferredConstruction.Emplace | include/type_safe/deferred_construction.hpp:99-111 | requires `!has_value()`; afterwards the object is initialized holding exactly the constructed value (the `OpEmplace` transition of `Step`) |
| TypeSafe.DeferredConstruction.Assign | include/type_safe/deferred_construction.hpp:85-96 | same precondition and same post-state as `Emplace(u)`; returns the object itself |
| TypeSafe.DeferredConstruction.ToBool | include/type_safe/deferred_construction.hpp:114-118 | always equal to `HasValue()`; as a function it cannot change the state |
| TypeSafe.DeferredConstruction.HasValue | include/type_safe/deferred_construction.hpp:120-124 | true exactly when the abstract state is initialized, i.e. exactly when `value()` would be defined |
| TypeSafe.DeferredConstruction.Value | include/type_safe/deferred_construction.hpp:126-156 | requires `has_value()`; returns the stored value and leaves the state unchanged |
| TypeSafe.DeferredConstruction.SetValue | include/type_safe/deferred_construction.hpp:126-132 | writing through the reference `value()` returns: requires `has_value()`, stores the new value, and the object stays initialized |
| TypeSafe.Lifecycle | include/type_safe/deferred_construction.hpp:39-156 | from the contracts alone: a copy of an un-initialized object is un-initialized, a copy sees the emplaced value, writing to the copy does not affect the original, a move hands over the value and leaves the residue in the source |
| DeferredState.StepKeepsInitialized | include/type_safe/deferred_construction.hpp:80-83 | no single operation makes an initialized object un-initialized |
| DeferredState.RunKeepsInitialized | include/type_safe/deferred_construction.hpp:25-27 | monotonicity: after any completed trace of operations an initialized object is still initialized |
| DeferredState.InitializedAtMostOnce | include/type_safe/deferred_construction.hpp:102-104 | a completed trace contains no `emplace`/`operator=` if it starts initialized, at most one if it starts un-initialized, and then it ends initialized iff it contains one |
| DeferredState.DefaultInitializedExactlyOnce | include/type_safe/deferred_construction.hpp:21-24 | from a default-constructed object, a completed trace ends initialized iff it initialized the object, which happens at most once |
| DeferredState.SecondInitializationFails | include/type_safe/deferred_construction.hpp:99-111 | after any trace that leaves the object initialized, a further `emplace` or `operator=` violates its precondition |
| DeferredState.ReadAlwaysAllowedOnceInitialized | include/type_safe/deferred_construction.hpp:80-83 | once initialized, `value()` is allowed after every completed trace and changes nothing |

## Left out

- The raw storage: placement `new`, `aligned_storage`, the `as_void` casts and alignment. The storage is an `Option<T>` slot instead of bytes.
- The destructor. It only destroys the value if the object is initialized, and the model has no object lifetimes.
- Exceptions thrown by value_type's constructors, and the `noexcept` specifications. If value_type's constructor throws inside `emplace` or `operator=`, the object stays un-initialized. If it throws inside the copy or move constructor, the new object is never created. The model has no failing construction.
- The variadic arguments of `emplace` and the `enable_if`/`is_constructible` constraint on `operator=`. Both take the already constructed value.
- The four ref-qualified overloads of `value()`. They are one `Value()` reader plus `SetValue` for writing through the non-const reference. The model does not capture aliasing of that reference.
- The deleted constructor from `value_type` and the deleted assignment from another `deferred_construction`. The model offers neither. Monotonicity is proved for every method the class offers.
- Access control. The C++ fields are private. The Dafny fields `storage` and `initialized` are public, so a client could write them directly and undo initialization. Such direct writes are outside the model.
- `DEBUG_ASSERT` and its handler. Each assertion is a `requires` in the class, and a `None` step in `DeferredState`.
- include/standardese/markup/paragraph.hpp and include/standardese/md_custom.hpp. They hold only class declarations, and the bodies of their members are not part of this model.
