/** The five colour themes: their ids, the default, and the table of definitions. */
module Themes {
  import opened Wrappers

  const THEME_IDS: seq<string> := ["flower", "ocean", "sunset", "forest", "midnight"]

  const DEFAULT_THEME: string := "flower"

  /** The swatch colours shown in the theme picker, as hex strings. */
  datatype PreviewColors = PreviewColors(primary: string, secondary: string, accent: string, background: string)

  datatype ThemeDefinition = ThemeDefinition(id: string, name: string, description: string, previewColors: PreviewColors)

  const THEMES: map<string, ThemeDefinition> := map[
    "flower" := ThemeDefinition("flower", "Flower", "Soft purples and pinks with botanical accents",
      PreviewColors("#A78BCC", "#F0CFDA", "#C8E0D0", "#FAF8F5")),
    "ocean" := ThemeDefinition("ocean", "Ocean", "Cool blues and teals inspired by the sea",
      PreviewColors("#5B9BD5", "#B8D8E8", "#7EC8C8", "#F5F9FC")),
    "sunset" := ThemeDefinition("sunset", "Sunset", "Warm oranges and corals like a golden hour sky",
      PreviewColors("#E07850", "#F5C49C", "#F0A080", "#FDF8F5")),
    "forest" := ThemeDefinition("forest", "Forest", "Deep greens and earthy tones from the woodland",
      PreviewColors("#5A8A6A", "#C4D8B8", "#8AB89A", "#F5F8F5")),
    "midnight" := ThemeDefinition("midnight", "Midnight", "Rich purples and blues for a dark, calming experience",
      PreviewColors("#8B7BC8", "#2A2540", "#6A5ACD", "#1A1625"))
  ]

  /** `themes[id]` for an own key of the table: the definition of a known id, and `None` for any other string (inherited names such as "toString" are not modelled). */
  function Lookup(id: string): (t: Option<ThemeDefinition>)
    ensures t.Some? <==> id in THEME_IDS
    ensures t.Some? ==> t.value.id == id
  {
    if id in THEMES then Some(THEMES[id]) else None
  }

  /** There are five theme ids and no two are equal. */
  lemma FiveDistinctIds()
    ensures |THEME_IDS| == 5
    ensures forall i, j :: 0 <= i < j < |THEME_IDS| ==> THEME_IDS[i] != THEME_IDS[j]
  {
  }

  /** The default is one of the ids, and has a definition. */
  lemma DefaultIsATheme()
    ensures DEFAULT_THEME in THEME_IDS
    ensures Lookup(DEFAULT_THEME).Some?
  {
  }

  /** The table has one entry per id, and each entry carries its own id. */
  lemma TableMatchesIds()
    ensures THEMES.Keys == set id | id in THEME_IDS
    ensures forall id :: id in THEMES ==> THEMES[id].id == id
  {
  }
}
