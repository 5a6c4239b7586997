/**
 * The `typeColors` table and the lookup `typeColors[t] || "#ccc"` used for
 * bars, points, legend entries and lines (Homework3/rsacosta3/main.js:55-74;
 * the same table is at Homework2/rsacosta/main.js:57-76).
 */
module TypeColors {

  const Palette: map<string, string> := map[
    "Water" := "#1f77b4",
    "Normal" := "#d3d3d3",
    "Flying" := "#add8e6",
    "Grass" := "#2ca02c",
    "Psychic" := "#800080",
    "Bug" := "#ff0000",
    "Ground" := "#8b4513",
    "Poison" := "#006400",
    "Fire" := "#ff7f0e",
    "Rock" := "#808080",
    "Dark" := "#000000",
    "Fighting" := "#800000",
    "Electric" := "#ffd700",
    "Steel" := "#a9a9a9",
    "Dragon" := "#ff8c00",
    "Fairy" := "#ffb6c1",
    "Ghost" := "#c0c0c0",
    "Ice" := "#b0e0e6"
  ]

  /** The colour of types missing from the table. */
  const Fallback: string := "#ccc"

  /** The lower-case hexadecimal digits. */
  const HexDigits: string := "0123456789abcdef"

  /** `typeColors[t] || "#ccc"`; every colour in the table is a non-empty string, hence truthy. */
  function ColorOf(t: string): string {
    if t in Palette then Palette[t] else Fallback
  }

  /**
   * A type gets the fallback colour exactly when it is missing from the
   * table. Every colour is `#` followed by lower-case hex digits: six for
   * the table's own colours, three for the fallback.
   */
  lemma ColorMeaning(t: string)
    ensures ColorOf(t) == Fallback <==> t !in Palette
    ensures ColorOf(t)[0] == '#'
    ensures |ColorOf(t)| == if t in Palette then 7 else 4
    ensures forall k :: 1 <= k < |ColorOf(t)| ==> ColorOf(t)[k] in HexDigits
  {
    if t in Palette {
      assert Palette[t][0] == '#' && |Palette[t]| == 7;
    }
  }
}
