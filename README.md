# Fixed-capacity publisher and passive observers

This project models the observer library's basic example. A `RealPublisher<N>` holds its own `data` value, a slot array of `N` optional observer handles and an `observer_count`:

- `subscribe` puts an observer into the next free slot. When every slot is taken, it returns `ObserverListFull` and changes nothing.
- `notify` walks the slots in index order, skips the empty ones and overwrites each subscribed observer's cell with the value.
- `change_value` stores the value in the publisher and then notifies.

The observers are passive. Each is one mutable cell, initialised to `Value1`.

The model has three modules:

- `ObserverLib` (`lib.dfy`) declares the error `PublisherErr`, the outcome of a subscription and the `Option` of a slot.
- `PublisherSpec` (`publisher_spec.dfy`) describes the publisher's state as a value. It holds the slot sequence, the count and the data. `Flatten` is what iterating over the slots and flattening away the empty ones yields. The representation invariant (`Packed`) says the slots below the count are filled and the others are empty. It also gives the effect of one subscription and of a run of subscriptions, with the lemmas about them.
- `Basic` (`basic.dfy`) holds the classes. `Publisher` has an `array<Option<Observer>>`, a count and its data. `Observer` has a mutable `data` field. The constructor and `Subscribe` are proved to move the publisher's `Model()` exactly as `PublisherSpec.New` and `PublisherSpec.Subscribe` say. `Notify` and `ChangeValue` state their effect on `Model()` directly. They are proved to write the value into every subscribed observer and to leave the publisher's slots and count alone. Each write into an observer's cell goes through `Observer.Update`, which also appends the observer to a `WriteLog`. The contracts of `Notify` and `ChangeValue` say that the log grows by exactly the subscribers in slot order, which is subscription order. `BasicScenario` replays the example's `main`, and `OverflowScenario` adds a third subscription to a full publisher.

`PublisherSpec` is generic in the observer handle `T` and the data type `D`. `Basic` fixes `T` to the `Observer` class and `D` to the example's `SomeType`.

## Model

| member | source | states |
|---|---|---|
| `PublisherSpec.Flatten` | examples/basic.rs:46 | every observer that flattening the slot array yields comes from a filled slot |
| `PublisherSpec.FlattenKeepsFilled` | examples/basic.rs:46 | every filled slot's observer is among the flattened ones, so the flattening skips only empty slots |
| `PublisherSpec.FlattenPacked` | examples/basic.rs:36-38 | when the slots are packed with `count` filled, exactly `count` observers are notified and the i-th one visited is the one in slot i, i.e. the i-th subscribed |
| `PublisherSpec.New` | examples/basic.rs:17-23 | a new publisher has count 0, every slot `None`, no observer to notify and the initial data, and satisfies the representation invariant |
| `PublisherSpec.Subscribe` | examples/basic.rs:32-43 | succeeds if and only if a slot is free; on success the observer lands in slot `count`, the count grows by one, no other slot and not the data changes, and the observer is appended to the notification order; on failure the result is `ObserverListFull` and the state is unchanged; the invariant is preserved |
| `PublisherSpec.SubscribeAll` | examples/basic.rs:32-43 | a run of subscriptions keeps the representation invariant and yields one outcome per call |
| `PublisherSpec.SubscribeAllOutcomes` | examples/basic.rs:36-42 | in any run of subscriptions exactly the calls that find a free slot succeed, the rest fail with `ObserverListFull`, the count ends at min(count + calls, N), the accepted observers are appended in call order and the data never changes |
| `PublisherSpec.SubscribeWithinCapacity` | examples/basic.rs:100-110 | any k <= N subscriptions to a new publisher all succeed and leave count k with the observers in subscription order |
| `PublisherSpec.SubscribeWhenFull` | examples/basic.rs:40-42 | once full (and so always at capacity 0), every further subscription fails with `ObserverListFull` and leaves the state unchanged |
| `Basic.Observer.constructor` | examples/basic.rs:57-62 | a new observer's cell holds `Value1` |
| `Basic.Observer.Update` | examples/basic.rs:47-48 | writing through the observer's handle leaves the value in its cell, and the write is appended to the log |
| `Basic.Publisher.constructor` | examples/basic.rs:17-23 | a new publisher is `PublisherSpec.New(N, Value1)`: every slot empty, count 0, data `Value1` |
| `Basic.Publisher.Subscribe` | examples/basic.rs:32-43 | the new state and the outcome are those of `PublisherSpec.Subscribe` on the old state; on failure neither the publisher nor its slot array changes |
| `Basic.Publisher.Notify` | examples/basic.rs:45-50 | every subscribed observer's cell holds the value afterwards; the publisher's slots, count and data are unchanged; only subscribed observers and the log may change; the log grows by exactly the subscribers in slot order, which is subscription order, so each subscriber is written once per slot, in that order |
| `Basic.Publisher.ChangeValue` | examples/basic.rs:25-28 | the publisher's data becomes the value, its slots and count stay, every subscribed observer's cell holds the value, and the observers are written in subscription order |
| `Basic.BasicScenario` | examples/basic.rs:89-118 | with capacity 2, both subscriptions succeed, the count is 2, and after changing to `Value2` the publisher and both observers hold `Value2`, written first to second |
| `Basic.OverflowScenario` | examples/basic.rs:40-42 | a third subscription at capacity 2 fails with `ObserverListFull`, and the refused observer keeps `Value1` when the value changes |

## Left out

- `update` (examples/basic.rs:65-69 and 83-87) hands the publisher a reference to the observer's cell. Dafny has no references to fields, so `Observer.Update` does both things at once: it takes the handle and writes the value through it (examples/basic.rs:47-48). The write log is a ghost record the source does not have. It exists only to state the order of the writes.
- `RealObserver2` (examples/basic.rs:71-87) is the same as `RealObserver1`. Both are modelled by the single `Observer` class, because the observer trait's dynamic dispatch and the phantom publisher type parameter (src/lib.rs:7-9) add no behaviour.
- The `RefCell` runtime borrow tracking and the `borrow_mut` panic it could raise are not modelled. The cell is a plain field.
- Rust lifetimes and `&mut` borrowing are not modelled. An observer's reference in a slot stays valid because Dafny objects are never freed.
- Rust's exclusive borrows rule out subscribing one observer twice. The model does not require distinct observers: duplicates are harmless because every slot receives the same value.
- The generic value type `T: Copy` is fixed to `SomeType` in `Basic`. The const-generic `N` becomes the length of the slot array.
- `observer_count` is a `usize`. It never exceeds `N`, so wrap-around cannot occur and the model uses `nat`.
- The `debug_assert!`/`assert_eq!` panics and `Debug` formatting in `main` are not modelled. The scenarios check the same values as assertions.
- Basic.Publisher.Notify: the order it states is the order of its `Observer.Update` calls, as the log records them. The contract would not see a write that bypassed `Update`, but every write in the model goes through it.
