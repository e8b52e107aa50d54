/** The disclosure toggle (src/App/ClickToShow/Types.ts and Store.ts). */
module ClickToShow {

  datatype ShowState = Hidden | Showing

  /** The state `toggle` moves to. */
  function Toggled(s: ShowState): (r: ShowState)
    ensures r != s
  {
    match s
    case Hidden => Showing
    case Showing => Hidden
  }

  /** `toggle` maps hidden to showing and showing to hidden, so toggling twice
      restores the state. */
  lemma ToggleLaws(s: ShowState)
    ensures Toggled(Hidden) == Showing && Toggled(Showing) == Hidden
    ensures Toggled(Toggled(s)) == s
  {
  }

  class ShowStore {
    var state: ShowState

    constructor ()
      ensures state == Hidden
    {
      state := Hidden;
    }

    /** The `switch` on the state's kind; its `assertNever` default branch is
        proved unreachable. */
    method Toggle()
      modifies this
      ensures state == Toggled(old(state))
    {
      if state == Hidden {
        state := Showing;
      } else if state == Showing {
        state := Hidden;
      } else {
        assert false;
      }
    }
  }
}
