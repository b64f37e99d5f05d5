/** The fixed-capacity publisher of the basic example and its passive
    observers, as objects updated in place. */
module Basic {
  import opened ObserverLib
  import PublisherSpec

  /** The value the example publishes. */
  datatype SomeType = Value1 | Value2

  /** A record of the writes into observer cells, in the order they happen. */
  class WriteLog {
    ghost var events: seq<Observer>

    constructor ()
      ensures events == []
    {
      events := [];
    }
  }

  /** A passive observer: one mutable cell the publisher writes into. */
  class Observer {
    var data: SomeType

    constructor ()
      ensures data == Value1
    {
      data := Value1;
    }

    /** Overwrites the cell through the handle `update` hands out, and
        records the write in `log`. */
    method Update(value: SomeType, log: WriteLog)
      modifies this, log
      ensures data == value
      ensures log.events == old(log.events) + [this]
    {
      data := value;
      log.events := log.events + [this];
    }
  }

  /** A publisher with `observers.Length` slots for observer handles. */
  class Publisher {
    const observers: array<Option<Observer>>
    var observerCount: nat
    var data: SomeType

    /** The publisher's state as a value. */
    ghost function Model(): PublisherSpec.State<Observer, SomeType>
      reads this, observers
    {
      PublisherSpec.State(observers[..], observerCount, data)
    }

    /** Slots below `observerCount` are filled, the others empty. */
    ghost predicate Valid()
      reads this, observers
    {
      PublisherSpec.Valid(Model())
    }

    /** The subscribed observers, in slot order. */
    ghost function Subscribers(): seq<Observer>
      reads this, observers
    {
      PublisherSpec.Flatten(observers[..])
    }

    constructor (capacity: nat)
      ensures Valid() && fresh(observers)
      ensures Model() == PublisherSpec.New(capacity, Value1)
    {
      observers := new Option<Observer>[capacity](_ => None);
      observerCount := 0;
      data := Value1;
      new;
      assert observers[..] == seq(capacity, _ => None);
    }

    /** Puts `observer` into the next free slot, or reports that the list is
        full and changes nothing. */
    method Subscribe(observer: Observer) returns (r: Outcome)
      requires Valid()
      modifies this, observers
      ensures Valid()
      ensures (Model(), r) == PublisherSpec.Subscribe(old(Model()), observer)
      ensures r.Err? ==> unchanged(this, observers)
    {
      if observerCount < observers.Length {
        observers[observerCount] := Some(observer);
        observerCount := observerCount + 1;
        r := Ok;
      } else {
        r := Err(ObserverListFull);
      }
    }

    /** Writes `value` into every subscribed observer, visiting the slots in
        index order and skipping the empty ones; each write is recorded in
        `log`. */
    method Notify(value: SomeType, log: WriteLog)
      modifies Subscribers(), log
      ensures Model() == old(Model())
      ensures log.events == old(log.events) + old(Subscribers())
      ensures forall o :: o in Subscribers() ==> o.data == value
    {
      PublisherSpec.FlattenKeepsFilled(observers[..]);
      var i := 0;
      while i < observers.Length
        invariant 0 <= i <= observers.Length
        invariant log.events == old(log.events) + PublisherSpec.Flatten(observers[..i])
        invariant forall j :: 0 <= j < i && observers[j].Some? ==> observers[j].value.data == value
      {
        assert observers[..i + 1] == observers[..i] + [observers[i]];
        match observers[i] {
          case Some(o) =>
            assert observers[..][i] == Some(o);
            o.Update(value, log);
          case None =>
        }
        i := i + 1;
      }
      assert observers[..i] == observers[..];
    }

    /** Stores `value` as the publisher's data, then notifies every
        subscribed observer of it. */
    method ChangeValue(value: SomeType, log: WriteLog)
      requires Valid()
      modifies this, Subscribers(), log
      ensures Valid()
      ensures Model() == old(Model()).(data := value)
      ensures log.events == old(log.events) + old(Subscribers())
      ensures forall o :: o in Subscribers() ==> o.data == value
    {
      data := value;
      Notify(value, log);
    }
  }

  /** The example's driver: a publisher of capacity 2 and two observers; both
      subscriptions succeed, and a change of value reaches both observers. */
  method BasicScenario() returns (first: Outcome, second: Outcome)
    ensures first == Ok && second == Ok
  {
    var publisher := new Publisher(2);
    var observer1 := new Observer();
    var observer2 := new Observer();

    assert publisher.data == Value1;
    assert publisher.observerCount == 0;
    assert observer1.data == Value1 && observer2.data == Value1;

    first := publisher.Subscribe(observer1);
    second := publisher.Subscribe(observer2);
    assert publisher.observerCount == 2;

    var log := new WriteLog();
    publisher.ChangeValue(Value2, log);
    assert publisher.data == Value2;
    assert log.events == [observer1, observer2];
    assert observer1.data == Value2 && observer2.data == Value2;
  }

  /** A third subscription to a full publisher of capacity 2 is refused and
      leaves the publisher as it was; the observer it refused keeps its own
      value when the publisher's value changes. */
  method OverflowScenario() returns (third: Outcome)
    ensures third == Err(ObserverListFull)
  {
    var publisher := new Publisher(2);
    var observer1 := new Observer();
    var observer2 := new Observer();
    var observer3 := new Observer();

    var first := publisher.Subscribe(observer1);
    var second := publisher.Subscribe(observer2);
    third := publisher.Subscribe(observer3);
    assert publisher.observerCount == 2;
    assert publisher.Subscribers() == [observer1, observer2];

    var log := new WriteLog();
    publisher.ChangeValue(Value2, log);
    assert log.events == [observer1, observer2];
    assert observer1.data == Value2 && observer2.data == Value2;
    assert observer3.data == Value1;
  }
}
