/** The theme picker's store (src/App/ThemeStore/index.ts). */
module ThemeStore {
  import opened Wrappers
  import opened ThemeTypes

  /** `find` over the options: the first option with the given name. */
  function Find(options: seq<ThemeOption>, name: string): (r: Option<ThemeOption>)
    ensures r.Some? ==> r.value in options && r.value.name == name
    ensures r.None? <==> forall k :: 0 <= k < |options| ==> options[k].name != name
  {
    if options == [] then None
    else if options[0].name == name then Some(options[0])
    else Find(options[1..], name)
  }

  /** The names of the options are pairwise distinct. */
  ghost predicate DistinctNames(options: seq<ThemeOption>)
  {
    forall i, j :: 0 <= i < j < |options| ==> options[i].name != options[j].name
  }

  /** With distinct names, looking up an entry's name finds that entry. */
  lemma {:induction false} FindEntry(options: seq<ThemeOption>, k: int)
    requires DistinctNames(options)
    requires 0 <= k < |options|
    ensures Find(options, options[k].name) == Some(options[k])
  {
    if k > 0 {
      assert options[0].name != options[k].name;
      assert options[1..][k - 1] == options[k];
      FindEntry(options[1..], k - 1);
    }
  }

  /** The state after `setTheme(name)`: a known name becomes current with its
      theme, the old name becomes the previous one; an unknown name changes
      nothing. */
  function Selected(s: ThemeState, name: string): ThemeState
  {
    match Find(s.options, name)
    case Some(o) => s.(name := o.name, theme := o.theme, previousName := s.name)
    case None => s
  }

  /** The name is a table entry whose theme is the current theme, the
      previous name is a table entry, and the table is the full one. */
  ghost predicate Valid(s: ThemeState)
  {
    && s.options == ThemeOptions
    && (exists k :: 0 <= k < |ThemeOptions| && ThemeOptions[k].name == s.name && ThemeOptions[k].theme == s.theme)
    && (exists k :: 0 <= k < |ThemeOptions| && ThemeOptions[k].name == s.previousName)
  }

  lemma InitialValid()
    ensures Valid(MakeState())
  {
    assert ThemeOptions[1].name == "Default Dark";
  }

  /** A known name is taken with its own theme and the old name remembered;
      an unknown one changes nothing; the table never changes. */
  lemma SelectedEffect(s: ThemeState, name: string)
    requires Valid(s)
    ensures Valid(Selected(s, name))
    ensures Selected(s, name).options == s.options && Selected(s, name).dark == s.dark
    ensures Find(ThemeOptions, name).Some? ==>
              && Selected(s, name).name == name
              && Selected(s, name).theme == Find(ThemeOptions, name).value.theme
              && Selected(s, name).previousName == s.name
    ensures Find(ThemeOptions, name).None? ==> Selected(s, name) == s
  {
    match Find(ThemeOptions, name)
    case Some(o) =>
      var k :| 0 <= k < |ThemeOptions| && ThemeOptions[k] == o;
      var j :| 0 <= j < |ThemeOptions| && ThemeOptions[j].name == s.name && ThemeOptions[j].theme == s.theme;
      assert ThemeOptions[k].name == Selected(s, name).name && ThemeOptions[k].theme == Selected(s, name).theme;
      assert ThemeOptions[j].name == Selected(s, name).previousName;
    case None =>
  }

  /** `revert` swaps the name and the previous name, and a second `revert`
      brings the whole state back. */
  lemma RevertSwaps(s: ThemeState)
    requires Valid(s)
    ensures Selected(s, s.previousName).name == s.previousName
    ensures Selected(s, s.previousName).previousName == s.name
    ensures Selected(Selected(s, s.previousName), Selected(s, s.previousName).previousName) == s
  {
    ThemeOptionsDistinct();
    var k :| 0 <= k < |ThemeOptions| && ThemeOptions[k].name == s.name && ThemeOptions[k].theme == s.theme;
    var j :| 0 <= j < |ThemeOptions| && ThemeOptions[j].name == s.previousName;
    FindEntry(ThemeOptions, k);
    FindEntry(ThemeOptions, j);
    var t := Selected(s, s.previousName);
    assert t == s.(name := s.previousName, theme := ThemeOptions[j].theme, previousName := s.name);
  }

  /** `revert` right after `setTheme(name)` brings the name back, for a
      name of the table (the only names the source's `ThemeName` type admits). */
  lemma RevertAfterSelect(s: ThemeState, name: string)
    requires Valid(s)
    requires exists k :: 0 <= k < |ThemeOptions| && ThemeOptions[k].name == name
    ensures Selected(Selected(s, name), Selected(s, name).previousName).name == s.name
  {
    ThemeOptionsDistinct();
    var i :| 0 <= i < |ThemeOptions| && ThemeOptions[i].name == name;
    var k :| 0 <= k < |ThemeOptions| && ThemeOptions[k].name == s.name && ThemeOptions[k].theme == s.theme;
    FindEntry(ThemeOptions, i);
    FindEntry(ThemeOptions, k);
    var t := Selected(s, name);
    assert t.previousName == s.name && t.options == ThemeOptions;
  }

  class ThemeStore {
    var state: ThemeState

    constructor ()
      ensures state == MakeState() && Valid(state)
    {
      state := MakeState();
    }

    method SetTheme(name: string)
      modifies this
      ensures state == Selected(old(state), name)
      ensures Valid(old(state)) ==> Valid(state)
    {
      if Valid(state) {
        SelectedEffect(state, name);
      }
      match Find(state.options, name)
      case Some(o) =>
        state := state.(name := o.name, theme := o.theme, previousName := state.name);
      case None =>
    }

    method Revert()
      modifies this
      ensures state == Selected(old(state), old(state).previousName)
      ensures Valid(old(state)) ==> Valid(state) && state.name == old(state).previousName && state.previousName == old(state).name
    {
      if Valid(state) {
        RevertSwaps(state);
      }
      SetTheme(state.previousName);
    }

    function Theme(): (t: Theme)
      reads this
      requires Valid(state)
      ensures exists k :: 0 <= k < |ThemeOptions| && ThemeOptions[k].name == state.name && ThemeOptions[k].theme == t
    {
      state.theme
    }

    function Options(): (o: seq<ThemeOption>)
      reads this
      requires Valid(state)
      ensures o == ThemeOptions
    {
      state.options
    }
  }
}
