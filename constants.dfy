/** The tool's fixed palette, defaults and messages. */
module Constants {

  /** A palette entry: a display name and a `#rrggbb` colour value. */
  datatype Color = Color(name: string, value: string)

  const DEFAULT_COLORS: seq<Color> := [
    Color("Blue", "#2563eb"),
    Color("Emerald", "#059669"),
    Color("Purple", "#7c3aed"),
    Color("Pink", "#db2777"),
    Color("Orange", "#ea580c"),
    Color("Red", "#dc2626"),
    Color("Teal", "#0d9488"),
    Color("Indigo", "#4f46e5"),
    Color("Green", "#16a34a"),
    Color("Yellow", "#ca8a04"),
    Color("Slate", "#475569"),
    Color("Black", "#1f2937")
  ]

  const DEFAULT_GRID_SIZE: int := 20
  const DEFAULT_ZOOM: real := 1.0

  /** The message exported when nothing is painted or labelled. */
  const NO_DATA_MESSAGE: string := "No data yet - paint a cell!"
}
