/**
 * SubscriptionType<T>: a value that announces every assignment to its
 * subscribers. The handlers are host code, so the model records what they
 * are handed: the list of (new value, old value) pairs, one per assignment.
 */
module SubscriptionTypes {

  /**
   * Each notification's old value is the value before that assignment: the
   * first is the initial value, every later one the previous notification's
   * new value, and the current value is the last one announced.
   */
  ghost predicate Chained<T>(initial: T, notified: seq<(T, T)>, value: T)
  {
    (notified == [] ==> value == initial) &&
    (notified != [] ==> notified[0].1 == initial && notified[|notified| - 1].0 == value) &&
    forall i :: 0 < i < |notified| ==> notified[i].1 == notified[i - 1].0
  }

  class SubscriptionType<T> {
    /** The backing field `_value`. */
    var value: T
    /** The (new, old) pairs passed to OnValueChanged, in order. */
    var notified: seq<(T, T)>
    /** The type's default value, which `_value` holds before any assignment. */
    ghost const initial: T

    ghost predicate Valid()
      reads this
    {
      Chained(initial, notified, value)
    }

    /** A new subscription holds the type's default value and has announced nothing. */
    constructor(default: T)
      ensures value == default && initial == default && notified == []
      ensures Valid()
    {
      value := default;
      initial := default;
      notified := [];
    }

    /** The Value getter. */
    function Get(): (r: T)
      reads this
      requires Valid()
      ensures notified == [] ==> r == initial
      ensures notified != [] ==> r == notified[|notified| - 1].0
    {
      value
    }

    /**
     * The Value setter: OnValueChanged receives the new and the old value
     * before the store, also when they are equal.
     */
    method Set(newValue: T)
      requires Valid()
      modifies this
      ensures Valid()
      ensures value == newValue
      ensures notified == old(notified) + [(newValue, old(value))]
    {
      notified := notified + [(newValue, value)];
      value := newValue;
    }
  }
}
