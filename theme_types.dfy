/** The theme table and the initial theme state
    (src/App/ThemeStore/Types.ts). Themes are opaque values. */
module ThemeTypes {
  import opened Seqs

  /** The themes the table refers to, one per entry. */
  datatype Theme =
    | CupcakeTheme | DefaultDarkTheme | DefaultLightTheme | EightiesTheme | MochaTheme
    | OceanTheme | PorpleTheme | SolarizedDarkTheme | SolarizedLightTheme

  datatype ThemeOption = ThemeOption(name: string, theme: Theme, dark: bool)

  /** `themeOptions`, in the source's order. */
  const ThemeOptions: seq<ThemeOption> := [
    ThemeOption("Cupcake", CupcakeTheme, false),
    ThemeOption("Default Dark", DefaultDarkTheme, true),
    ThemeOption("Default Light", DefaultLightTheme, false),
    ThemeOption("Eighties", EightiesTheme, true),
    ThemeOption("Mocha", MochaTheme, true),
    ThemeOption("Ocean", OceanTheme, true),
    ThemeOption("Porple", PorpleTheme, true),
    ThemeOption("Solarized Dark", SolarizedDarkTheme, true),
    ThemeOption("Solarized Light", SolarizedLightTheme, false)
  ]

  /** The table has nine entries and no name twice. */
  lemma ThemeOptionsDistinct()
    ensures |ThemeOptions| == 9
    ensures forall i, j :: 0 <= i < j < |ThemeOptions| ==> ThemeOptions[i].name != ThemeOptions[j].name
  {
  }

  /** The store's state. `dark` is not part of the declared state type but is
      carried in by the spread of the first dark option in `makeState`; no
      operation updates it. */
  datatype ThemeState = ThemeState(
    name: string,
    theme: Theme,
    dark: bool,
    options: seq<ThemeOption>,
    previousName: string)

  function IsDark(o: ThemeOption): bool
  {
    o.dark
  }

  /** `makeState()`: the first dark option ('Default Dark'), the whole table,
      and 'Default Dark' as previous name. */
  function MakeState(): (s: ThemeState)
    ensures s.name == "Default Dark" && s.theme == DefaultDarkTheme && s.dark
    ensures s.options == ThemeOptions
    ensures s.previousName == "Default Dark" && s.previousName == s.name
  {
    var darks := Filter(ThemeOptions, IsDark);
    assert darks == [ThemeOptions[1]] + Filter(ThemeOptions[2..], IsDark) by {
      assert ThemeOptions[1..][0] == ThemeOptions[1];
      assert ThemeOptions[1..][1..] == ThemeOptions[2..];
    }
    var first := darks[0];
    ThemeState(first.name, first.theme, first.dark, ThemeOptions, "Default Dark")
  }
}
