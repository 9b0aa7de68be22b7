// The radial multiple-choice popup (src/app/src/multichoicecontroller.cpp):
// the options shown, one selection flag per option, and the index reported
// as selected, which is the last option whose flag is set. Positions on the
// screen are floating point and outside the model.
module MultiChoice {

  /** The highest index whose flag is set, or -1 when none is. */
  function LastSelected(flags: seq<bool>): (r: int)
    ensures -1 <= r < |flags|
    ensures r >= 0 ==> flags[r]
    ensures forall j :: r < j < |flags| ==> !flags[j]
  {
    if flags == [] then -1
    else if flags[|flags| - 1] then |flags| - 1
    else LastSelected(flags[..|flags| - 1])
  }

  /** One more flag: it wins when set, and otherwise the earlier answer stands. */
  lemma LastSelectedSnoc(flags: seq<bool>, i: nat)
    requires i < |flags|
    ensures LastSelected(flags[..i + 1]) == if flags[i] then i else LastSelected(flags[..i])
  {
    assert flags[..i + 1][..i] == flags[..i];
  }

  /** Setting one flag among cleared ones selects exactly that option. */
  lemma {:induction false} SelectOnly(n: nat, index: nat)
    requires index < n
    ensures LastSelected(seq(n, _ => false)[index := true]) == index
  {
    var flags := seq(n, _ => false)[index := true];
    assert flags[index];
    assert forall j :: index < j < n ==> !flags[j];
  }

  class MultiChoiceController {
    var options: seq<string>
    var selected: seq<bool>
    var visible: bool
    var selectedIndex: int

    /**
     * A new controller is hidden and has no options. The source leaves the
     * selected index unset until show; the model starts it at -1, the value
     * show gives it.
     */
    constructor ()
      ensures options == [] && selected == [] && !visible && selectedIndex == -1
    {
      options := [];
      selected := [];
      visible := false;
      selectedIndex := -1;
    }

    /** show: the popup becomes visible with the given options, none of them selected. */
    method Show(options: seq<string>)
      modifies this
      ensures visible && this.options == options
      ensures selected == seq(|options|, _ => false) && selectedIndex == -1
    {
      visible := true;
      this.options := options;
      selected := seq(|options|, _ => false);
      selectedIndex := -1;
    }

    /** hide: the popup is hidden and its options dropped; the flags and the reported index stay. */
    method Hide()
      modifies this
      ensures !visible && options == []
      ensures selected == old(selected) && selectedIndex == old(selectedIndex)
    {
      visible := false;
      options := [];
    }

    /**
     * setSelected: out of range nothing happens; otherwise the flag is set
     * and the reported index becomes the last selected option, with
     * selectedIndexChanged only when it moves.
     */
    method SetSelected(index: int, isSelected: bool) returns (changed: bool)
      modifies this
      ensures options == old(options) && visible == old(visible)
      ensures !(0 <= index < |old(selected)|) ==> selected == old(selected) && selectedIndex == old(selectedIndex) && !changed
      ensures 0 <= index < |old(selected)| ==>
        && selected == old(selected)[index := isSelected]
        && selectedIndex == LastSelected(selected)
        && (changed <==> selectedIndex != old(selectedIndex))
      ensures 0 <= index < |old(selected)| && isSelected ==> selectedIndex >= index
    {
      if index < 0 || index >= |selected| {
        return false;
      }
      var flags := selected[index := isSelected];
      var last := -1;
      var i := 0;
      while i < |flags|
        invariant 0 <= i <= |flags|
        invariant last == LastSelected(flags[..i])
        invariant unchanged(this)
      {
        LastSelectedSnoc(flags, i);
        if flags[i] {
          last := i;
        }
        i := i + 1;
      }
      assert flags[..i] == flags;
      assert isSelected ==> flags[index];
      selected := flags;
      changed := false;
      if selectedIndex != last {
        selectedIndex := last;
        changed := true;
      }
    }
  }
}
