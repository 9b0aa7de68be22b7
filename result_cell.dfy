// The three-state Result<Value, Error> container of the shared library
// (src/shared/result.hpp). The C++ keeps a tagged union; here the tag and
// the payload live together in one datatype field that the methods reassign.
module ResultCell {

  /** The tag `m_state` together with the member of the union it keeps alive. */
  datatype State<V, E> = NullState | ValueState(value: V) | ErrorState(error: E)

  /** Which of the three queries holds for a state. */
  predicate IsNullState<V, E>(s: State<V, E>) { s.NullState? }
  predicate HasValueState<V, E>(s: State<V, E>) { s.ValueState? }
  predicate HasErrorState<V, E>(s: State<V, E>) { s.ErrorState? }

  /** Exactly one of isNull, hasValue and hasError holds in every state. */
  lemma ExactlyOneQuery<V, E>(s: State<V, E>)
    ensures IsNullState(s) || HasValueState(s) || HasErrorState(s)
    ensures !(IsNullState(s) && HasValueState(s))
    ensures !(IsNullState(s) && HasErrorState(s))
    ensures !(HasValueState(s) && HasErrorState(s))
  {
  }

  /** A state after its payload was moved out: the same tag, holding what the move left. */
  function MovedFrom<V, E>(s: State<V, E>, leftValue: V, leftError: E): (r: State<V, E>)
    ensures IsNullState(r) == IsNullState(s)
    ensures HasValueState(r) == HasValueState(s)
    ensures HasErrorState(r) == HasErrorState(s)
  {
    match s
    case NullState => NullState
    case ValueState(_) => ValueState(leftValue)
    case ErrorState(_) => ErrorState(leftError)
  }

  class Result<V, E> {
    var state: State<V, E>

    /** A default-constructed Result is Null. */
    constructor ()
      ensures state == NullState
    {
      state := NullState;
    }

    /** Result::value(v) and the value constructors. */
    constructor FromValue(v: V)
      ensures state == ValueState(v)
    {
      state := ValueState(v);
    }

    /** Result::error(e) and the error constructors. */
    constructor FromError(e: E)
      ensures state == ErrorState(e)
    {
      state := ErrorState(e);
    }

    function IsNull(): (b: bool)
      reads this
      ensures b <==> !(state.ValueState? || state.ErrorState?)
    {
      state.NullState?
    }

    function HasValue(): (b: bool)
      reads this
      ensures b <==> !(state.NullState? || state.ErrorState?)
    {
      state.ValueState?
    }

    function HasError(): (b: bool)
      reads this
      ensures b <==> !(state.NullState? || state.ValueState?)
    {
      state.ErrorState?
    }

    /** getValue asserts the Value state and changes nothing. */
    method GetValue() returns (v: V)
      requires state.ValueState?
      ensures state == ValueState(v)
    {
      v := state.value;
    }

    /** getError asserts the Error state and changes nothing. */
    method GetError() returns (e: E)
      requires state.ErrorState?
      ensures state == ErrorState(e)
    {
      e := state.error;
    }

    /** setValue: from any state, ends in Value holding v. */
    method SetValue(v: V)
      modifies this
      ensures state == ValueState(v)
    {
      match state {
        case NullState => state := ValueState(v);
        case ValueState(_) => state := ValueState(v);
        case ErrorState(_) => state := ValueState(v);
      }
    }

    /** setError: from any state, ends in Error holding e. */
    method SetError(e: E)
      modifies this
      ensures state == ErrorState(e)
    {
      match state {
        case NullState => state := ErrorState(e);
        case ValueState(_) => state := ErrorState(e);
        case ErrorState(_) => state := ErrorState(e);
      }
    }

    /** takeValue: requires Value, hands the value out and leaves Null. */
    method TakeValue() returns (v: V)
      requires state.ValueState?
      modifies this
      ensures old(state) == ValueState(v)
      ensures state == NullState
    {
      v := state.value;
      state := NullState;
    }

    /** takeError: requires Error, hands the error out and leaves Null. */
    method TakeError() returns (e: E)
      requires state.ErrorState?
      modifies this
      ensures old(state) == ErrorState(e)
      ensures state == NullState
    {
      e := state.error;
      state := NullState;
    }

    /**
     * Copy assignment: this takes rhs's state and payload, rhs is unchanged.
     * This is the intended behaviour; the source names the static factory
     * `rhs.error` where it means the member.
     */
    method CopyAssign(rhs: Result<V, E>)
      modifies this
      ensures state == rhs.state
      ensures rhs != this ==> rhs.state == old(rhs.state)
    {
      state := rhs.state;
    }

    /**
     * Move assignment: this takes rhs's state and payload. The source moves
     * out of rhs's payload but never resets rhs's tag, so rhs keeps its tag
     * and holds whatever the move leaves behind, given here as leftValue or
     * leftError (a QString move-assigned out holds the target's old text,
     * one move-constructed out is empty).
     */
    method MoveAssign(rhs: Result<V, E>, leftValue: V, leftError: E)
      modifies this, rhs
      ensures rhs != this ==> state == old(rhs.state)
      ensures rhs.state == MovedFrom(old(rhs.state), leftValue, leftError)
    {
      state := rhs.state;
      rhs.state := MovedFrom(rhs.state, leftValue, leftError);
    }
  }
}
