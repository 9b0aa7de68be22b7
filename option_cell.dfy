// The Option<T> container of the shared library (src/shared/option.hpp):
// a `m_hasValue` flag and a storage slot that is alive only while the flag
// is set. Both are fields that the operations below reassign.
module OptionCell {

  class Option<T(0)> {
    var hasValue: bool
    var value: T

    /** A default Option is empty. */
    constructor ()
      ensures !hasValue
    {
      hasValue := false;
    }

    /** Option(value): holds the given value. */
    constructor FromValue(v: T)
      ensures hasValue && value == v
    {
      hasValue := true;
      value := v;
    }

    /** Copy construction: the same flag and, when set, the same value. */
    constructor Copy(other: Option<T>)
      ensures hasValue == other.hasValue
      ensures hasValue ==> value == other.value
    {
      hasValue := other.hasValue;
      value := other.value;
    }

    /** Move construction takes over the value and leaves the source empty. */
    constructor Move(other: Option<T>)
      modifies other
      ensures hasValue == old(other.hasValue)
      ensures hasValue ==> value == old(other.value)
      ensures !other.hasValue
    {
      hasValue := other.hasValue;
      value := other.value;
      if other.hasValue {
        other.Clear();
      }
    }

    /** getValue asserts that a value is present and changes nothing. */
    method GetValue() returns (v: T)
      requires hasValue
      ensures v == value
    {
      v := value;
    }

    /** clear: empty afterwards whatever the state before; so clearing twice is clearing once. */
    method Clear()
      modifies this
      ensures !hasValue
      ensures value == old(value)
    {
      if hasValue {
        hasValue := false;
      }
    }

    /** Assigning a value: holds exactly that value afterwards. */
    method AssignValue(v: T)
      modifies this
      ensures hasValue && value == v
    {
      if hasValue {
        value := v;
      } else {
        value := v;
        hasValue := true;
      }
    }

    /** Copy assignment: from an empty rhs the target is cleared; from a full one the value is copied. */
    method CopyAssign(rhs: Option<T>)
      modifies this
      ensures hasValue == old(rhs.hasValue)
      ensures hasValue ==> value == old(rhs.value)
      ensures rhs != this ==> rhs.hasValue == old(rhs.hasValue)
    {
      if hasValue {
        if rhs.hasValue {
          value := rhs.value;
        } else {
          Clear();
        }
      } else if rhs.hasValue {
        value := rhs.value;
        hasValue := true;
      }
    }

    /** Move assignment: takes rhs's value, and a moved-from rhs is left empty. */
    method MoveAssign(rhs: Option<T>)
      requires rhs != this
      modifies this, rhs
      ensures hasValue == old(rhs.hasValue)
      ensures hasValue ==> value == old(rhs.value)
      ensures !rhs.hasValue
    {
      if hasValue {
        if rhs.hasValue {
          value := rhs.value;
          rhs.Clear();
        } else {
          Clear();
        }
      } else if rhs.hasValue {
        value := rhs.value;
        hasValue := true;
        rhs.Clear();
      }
    }

    /** takeValue: requires a value, hands it out and leaves the Option empty. */
    method TakeValue() returns (v: T)
      requires hasValue
      modifies this
      ensures v == old(value)
      ensures !hasValue
    {
      v := value;
      hasValue := false;
    }
  }
}
