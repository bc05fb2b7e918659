/**
 * The enumerations and records of the wallpaper/theme subsystem: the mode and scheme
 * option tables shown in the settings, the analysis record a theme run produces and
 * the timestamped record kept in the theme cache.
 */
module WallpaperTypes {
  import opened Wrappers

  datatype ThemeMode = AutoMode | Light | Dark
  datatype ThemeScheme = AutoScheme | Neutral | TonalSpot | Expressive | Rainbow | Content

  /** One `{ value, label }` row (`label` is a keyword here, so it is called `caption`) of an option table. */
  datatype OptionRow = OptionRow(value: string, caption: string)

  const ModeOptions: seq<OptionRow> :=
    [OptionRow("auto", "Auto"), OptionRow("light", "Light"), OptionRow("dark", "Dark")]

  const SchemeOptions: seq<OptionRow> :=
    [ OptionRow("auto", "Auto"), OptionRow("scheme-neutral", "Neutral"),
      OptionRow("scheme-tonal-spot", "Tonal Spot"), OptionRow("scheme-expressive", "Expressive"),
      OptionRow("scheme-rainbow", "Rainbow"), OptionRow("scheme-content", "Content") ]

  /** The row of `ModeOptions` that stands for a mode. */
  function ModeIndex(m: ThemeMode): (i: nat)
    ensures i < |ModeOptions|
  {
    match m
    case AutoMode => 0
    case Light => 1
    case Dark => 2
  }

  function SchemeIndex(s: ThemeScheme): (i: nat)
    ensures i < |SchemeOptions|
  {
    match s
    case AutoScheme => 0
    case Neutral => 1
    case TonalSpot => 2
    case Expressive => 3
    case Rainbow => 4
    case Content => 5
  }

  /** The string a mode is stored and passed around as. */
  function ModeValue(m: ThemeMode): string {
    ModeOptions[ModeIndex(m)].value
  }

  function SchemeValue(s: ThemeScheme): string {
    SchemeOptions[SchemeIndex(s)].value
  }

  /** The `ThemeMode` type as a set of strings: the value column of the table. */
  function ModeFromValue(v: string): (r: Option<ThemeMode>)
    ensures r.Some? ==> ModeValue(r.value) == v
  {
    if v == "auto" then Some(AutoMode)
    else if v == "light" then Some(Light)
    else if v == "dark" then Some(Dark)
    else None
  }

  function SchemeFromValue(v: string): (r: Option<ThemeScheme>)
    ensures r.Some? ==> SchemeValue(r.value) == v
  {
    if v == "auto" then Some(AutoScheme)
    else if v == "scheme-neutral" then Some(Neutral)
    else if v == "scheme-tonal-spot" then Some(TonalSpot)
    else if v == "scheme-expressive" then Some(Expressive)
    else if v == "scheme-rainbow" then Some(Rainbow)
    else if v == "scheme-content" then Some(Content)
    else None
  }

  /** The mode values are exactly auto, light and dark, in that order. */
  lemma ModeTable()
    ensures |ModeOptions| == 3
    ensures ModeOptions[0].value == "auto" && ModeOptions[1].value == "light" && ModeOptions[2].value == "dark"
    ensures forall r :: r in ModeOptions ==> exists m :: ModeOptions[ModeIndex(m)] == r
  {
    assert ModeIndex(AutoMode) == 0 && ModeIndex(Light) == 1 && ModeIndex(Dark) == 2;
  }

  /** The scheme values, in table order. */
  lemma SchemeTable()
    ensures |SchemeOptions| == 6
    ensures SchemeOptions[0].value == "auto" && SchemeOptions[1].value == "scheme-neutral"
    ensures SchemeOptions[2].value == "scheme-tonal-spot" && SchemeOptions[3].value == "scheme-expressive"
    ensures SchemeOptions[4].value == "scheme-rainbow" && SchemeOptions[5].value == "scheme-content"
    ensures forall r :: r in SchemeOptions ==> exists s :: SchemeOptions[SchemeIndex(s)] == r
  {
    assert SchemeIndex(AutoScheme) == 0 && SchemeIndex(Neutral) == 1 && SchemeIndex(TonalSpot) == 2;
    assert SchemeIndex(Expressive) == 3 && SchemeIndex(Rainbow) == 4 && SchemeIndex(Content) == 5;
  }

  /** A string is a `ThemeMode` exactly when it is a value of the table, and decoding inverts encoding. */
  lemma ModeValueSet(v: string, m: ThemeMode)
    ensures ModeFromValue(v).Some? <==> exists i :: 0 <= i < |ModeOptions| && ModeOptions[i].value == v
    ensures ModeFromValue(ModeValue(m)) == Some(m)
  {
  }

  lemma SchemeValueSet(v: string, s: ThemeScheme)
    ensures SchemeFromValue(v).Some? <==> exists i :: 0 <= i < |SchemeOptions| && SchemeOptions[i].value == v
    ensures SchemeFromValue(SchemeValue(s)) == Some(s)
  {
  }

  /** The result of one colour analysis. */
  datatype ThemeProperties = ThemeProperties(tone: int, chroma: int, mode: ThemeMode, scheme: ThemeScheme)

  /** A cache record: every analysis field plus the time it was stored (milliseconds). */
  datatype CachedThemeEntry = CachedThemeEntry(tone: int, chroma: int, mode: ThemeMode, scheme: ThemeScheme, timestamp: int)

  /** `{ ...analysis, timestamp }` */
  function ToCached(p: ThemeProperties, timestamp: int): (c: CachedThemeEntry)
    ensures Properties(c) == p && c.timestamp == timestamp
  {
    CachedThemeEntry(p.tone, p.chroma, p.mode, p.scheme, timestamp)
  }

  function Properties(c: CachedThemeEntry): ThemeProperties {
    ThemeProperties(c.tone, c.chroma, c.mode, c.scheme)
  }

  lemma CachedRoundTrip(c: CachedThemeEntry)
    ensures ToCached(Properties(c), c.timestamp) == c
  {
  }
}
