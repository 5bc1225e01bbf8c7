/** The colour themes of the interface (src/lib/themes.ts): a fixed table of six themes,
    each with a gradient and a palette for light and for dark mode, and a lookup by
    name that falls back to the first theme. Colours are HSL triples as CSS variables
    take them. */
module Themes {
  import opened Text

  datatype GradientColors = GradientColors(from: string, via: Option<string>, to: string)

  datatype ThemeColors = ThemeColors(primary: string, primaryForeground: string, accent: string, accentForeground: string)

  /** One theme; `displayLabel` is the source's `label` field (`label` is a Dafny keyword). */
  datatype Theme = Theme(name: string, displayLabel: string, lightGradient: GradientColors, darkGradient: GradientColors,
                         lightColors: ThemeColors, darkColors: ThemeColors)

  /** The theme names the type system admits. */
  const ThemeNames: seq<string> := ["midnight", "aurora", "sunset", "ocean", "forest", "candy"]

  predicate IsThemeName(n: string)
  {
    n in ThemeNames
  }

  const ThemeTable: seq<Theme> := [
    Theme("midnight", "Midnight",
      GradientColors("240 60% 50%", Some("280 70% 55%"), "320 65% 50%"),
      GradientColors("240 70% 35%", Some("280 80% 40%"), "320 75% 35%"),
      ThemeColors("262 83% 58%", "0 0% 100%", "280 60% 95%", "262 83% 30%"),
      ThemeColors("270 80% 65%", "0 0% 100%", "280 50% 20%", "270 80% 85%")),
    Theme("aurora", "Aurora",
      GradientColors("160 80% 45%", Some("190 85% 50%"), "220 80% 55%"),
      GradientColors("160 90% 30%", Some("190 95% 35%"), "220 90% 40%"),
      ThemeColors("175 80% 40%", "0 0% 100%", "180 60% 94%", "175 80% 25%"),
      ThemeColors("175 85% 50%", "180 100% 10%", "180 40% 18%", "175 85% 80%")),
    Theme("sunset", "Sunset",
      GradientColors("15 90% 55%", Some("35 95% 55%"), "45 90% 50%"),
      GradientColors("15 85% 40%", Some("35 90% 42%"), "45 85% 38%"),
      ThemeColors("25 95% 53%", "0 0% 100%", "30 100% 95%", "25 95% 30%"),
      ThemeColors("30 95% 55%", "30 100% 10%", "25 50% 18%", "30 95% 80%")),
    Theme("ocean", "Ocean",
      GradientColors("200 90% 50%", Some("215 85% 55%"), "230 80% 60%"),
      GradientColors("200 95% 35%", Some("215 90% 40%"), "230 85% 45%"),
      ThemeColors("215 90% 55%", "0 0% 100%", "210 80% 95%", "215 90% 30%"),
      ThemeColors("215 95% 60%", "215 100% 10%", "215 50% 18%", "215 95% 85%")),
    Theme("forest", "Forest",
      GradientColors("140 70% 40%", Some("160 65% 45%"), "175 60% 42%"),
      GradientColors("140 75% 28%", Some("160 70% 32%"), "175 65% 30%"),
      ThemeColors("152 75% 40%", "0 0% 100%", "150 50% 94%", "152 75% 25%"),
      ThemeColors("152 80% 48%", "150 100% 10%", "150 40% 16%", "152 80% 80%")),
    Theme("candy", "Candy",
      GradientColors("330 85% 60%", Some("350 80% 65%"), "10 85% 60%"),
      GradientColors("330 90% 42%", Some("350 85% 48%"), "10 90% 45%"),
      ThemeColors("340 85% 55%", "0 0% 100%", "340 70% 96%", "340 85% 30%"),
      ThemeColors("340 90% 60%", "0 0% 100%", "340 50% 18%", "340 90% 85%"))
  ]

  /** The first theme, from `i` on, with the given name. */
  function FindTheme(name: string, i: nat): (r: Option<nat>)
    requires i <= |ThemeTable|
    ensures r.Some? ==> i <= r.value < |ThemeTable| && ThemeTable[r.value].name == name
    ensures r.Some? ==> forall j :: i <= j < r.value ==> ThemeTable[j].name != name
    ensures r.None? ==> forall j :: i <= j < |ThemeTable| ==> ThemeTable[j].name != name
    decreases |ThemeTable| - i
  {
    if i == |ThemeTable| then None
    else if ThemeTable[i].name == name then Some(i)
    else FindTheme(name, i + 1)
  }

  /** The theme of a name, or the first theme for a name the table lacks. */
  function GetTheme(name: string): (t: Theme)
    ensures t in ThemeTable
  {
    match FindTheme(name, 0)
    case Some(i) => ThemeTable[i]
    case None => ThemeTable[0]
  }

  /** The table lists exactly the six theme names, in order, each once. */
  lemma TableNames()
    ensures |ThemeTable| == |ThemeNames| == 6
    ensures forall i :: 0 <= i < |ThemeTable| ==> ThemeTable[i].name == ThemeNames[i]
    ensures forall i, j :: 0 <= i < j < |ThemeNames| ==> ThemeNames[i] != ThemeNames[j]
  {
    assert ThemeNames[0][0] == 'm' && ThemeNames[1][0] == 'a' && ThemeNames[2][0] == 's'
        && ThemeNames[3][0] == 'o' && ThemeNames[4][0] == 'f' && ThemeNames[5][0] == 'c';
  }

  /** Every theme name finds its own theme, so the fallback is never taken for a
      well-typed name; any other name gets the first theme, `midnight`. */
  lemma GetThemeSpec(name: string)
    ensures IsThemeName(name) ==> GetTheme(name).name == name
    ensures !IsThemeName(name) ==> GetTheme(name) == ThemeTable[0] && GetTheme(name).name == "midnight"
  {
    TableNames();
    if IsThemeName(name) {
      var i :| 0 <= i < |ThemeNames| && ThemeNames[i] == name;
      assert ThemeTable[i].name == name;
    }
  }
}
