/**
 * The pure rules of theme application: reading the colour tool's `theme` report,
 * the file-name/hour guess, merging an automatic analysis with the manual overrides,
 * and the command lines handed to the colour tool and to `notify-send`.
 */
module ThemeRules {
  import opened Wrappers
  import opened JsStrings
  import opened WallpaperTypes

  /** What the report parser starts from: dark, tone 20, rainbow, chroma 40. */
  const DefaultAnalysis := ThemeProperties(20, 40, Dark, Rainbow)

  /**
   * The analyses the parser and the guess produce: light or dark, neutral or rainbow,
   * tone 80 exactly for light and chroma 10 exactly for neutral.
   */
  predicate Derived(p: ThemeProperties) {
    && (p.mode == Light || p.mode == Dark)
    && (p.scheme == Neutral || p.scheme == Rainbow)
    && (p.tone == 80 <==> p.mode == Light) && (p.tone == 20 <==> p.mode == Dark)
    && (p.chroma == 10 <==> p.scheme == Neutral) && (p.chroma == 40 <==> p.scheme == Rainbow)
  }

  predicate MentionsMode(line: string) {
    Includes(line, "light") || Includes(line, "dark")
  }

  predicate MentionsScheme(line: string) {
    Includes(line, "neutral") || Includes(line, "rainbow")
  }

  /** The effect of one report line: "light" before "dark", "neutral" before "rainbow". */
  function ScanLine(st: ThemeProperties, line: string): (r: ThemeProperties)
    ensures Derived(st) ==> Derived(r)
    ensures MentionsMode(line) ==> r.mode == (if Includes(line, "light") then Light else Dark)
    ensures !MentionsMode(line) ==> r.mode == st.mode && r.tone == st.tone
    ensures MentionsScheme(line) ==> r.scheme == (if Includes(line, "neutral") then Neutral else Rainbow)
    ensures !MentionsScheme(line) ==> r.scheme == st.scheme && r.chroma == st.chroma
  {
    var st1 :=
      if Includes(line, "light") then st.(mode := Light, tone := 80)
      else if Includes(line, "dark") then st.(mode := Dark, tone := 20)
      else st;
    if Includes(line, "neutral") then st1.(scheme := Neutral, chroma := 10)
    else if Includes(line, "rainbow") then st1.(scheme := Rainbow, chroma := 40)
    else st1
  }

  /** The state after scanning `lines` in order, starting from `st`. */
  function ParseLines(st: ThemeProperties, lines: seq<string>): ThemeProperties {
    if lines == [] then st else ScanLine(ParseLines(st, lines[..|lines| - 1]), lines[|lines| - 1])
  }

  /** What the report parser computes from the whole output. */
  function ParseOutput(output: string): ThemeProperties {
    ParseLines(DefaultAnalysis, Split(Trim(output), '\n'))
  }

  /**
   * `parseChromashThemeOutput`: scans the trimmed output line by line. Nothing in its
   * body can throw, so it always returns an analysis.
   */
  method ParseChromashThemeOutput(output: string) returns (r: Option<ThemeProperties>)
    ensures r == Some(ParseOutput(output))
  {
    var lines := Split(Trim(output), '\n');
    var st := DefaultAnalysis;
    for i := 0 to |lines|
      invariant st == ParseLines(DefaultAnalysis, lines[..i])
    {
      var line := lines[i];
      if Includes(line, "light") {
        st := st.(mode := Light, tone := 80);
      } else if Includes(line, "dark") {
        st := st.(mode := Dark, tone := 20);
      }
      if Includes(line, "neutral") {
        st := st.(scheme := Neutral, chroma := 10);
      } else if Includes(line, "rainbow") || Includes(line, "rainbow") {
        st := st.(scheme := Rainbow, chroma := 40);
      }
      assert lines[..i + 1][..i] == lines[..i];
    }
    assert lines[..|lines|] == lines;
    return Some(st);
  }

  /** Every parse result is light/dark and neutral/rainbow with its tone and chroma. */
  lemma {:induction false} ParseLinesDerived(st: ThemeProperties, lines: seq<string>)
    requires Derived(st)
    ensures Derived(ParseLines(st, lines))
  {
    if lines != [] {
      ParseLinesDerived(st, lines[..|lines| - 1]);
    }
  }

  lemma ParseOutputDerived(output: string)
    ensures Derived(ParseOutput(output))
  {
    ParseLinesDerived(DefaultAnalysis, Split(Trim(output), '\n'));
  }

  /** The last line that mentions a mode, or -1. */
  function LastModeLine(lines: seq<string>): (k: int)
    ensures -1 <= k < |lines|
    ensures 0 <= k ==> MentionsMode(lines[k])
    ensures forall j :: k < j < |lines| ==> !MentionsMode(lines[j])
  {
    if lines == [] then -1
    else if MentionsMode(lines[|lines| - 1]) then |lines| - 1
    else LastModeLine(lines[..|lines| - 1])
  }

  function LastSchemeLine(lines: seq<string>): (k: int)
    ensures -1 <= k < |lines|
    ensures 0 <= k ==> MentionsScheme(lines[k])
    ensures forall j :: k < j < |lines| ==> !MentionsScheme(lines[j])
  {
    if lines == [] then -1
    else if MentionsScheme(lines[|lines| - 1]) then |lines| - 1
    else LastSchemeLine(lines[..|lines| - 1])
  }

  /**
   * Later lines override earlier ones: the mode is decided by the last line that
   * mentions "light" or "dark" ("light" winning on that line), and stays the starting
   * one when no line mentions either.
   */
  lemma {:induction false} ParseMode(st: ThemeProperties, lines: seq<string>)
    ensures var k := LastModeLine(lines);
      ParseLines(st, lines).mode == (if k < 0 then st.mode else if Includes(lines[k], "light") then Light else Dark)
  {
    if lines != [] {
      var init := lines[..|lines| - 1];
      ParseMode(st, init);
      if !MentionsMode(lines[|lines| - 1]) {
        assert LastModeLine(lines) == LastModeLine(init);
        var k := LastModeLine(init);
        if k >= 0 { assert lines[k] == init[k]; }
      }
    }
  }

  /** Likewise for the scheme, with "neutral" winning over "rainbow" on one line. */
  lemma {:induction false} ParseScheme(st: ThemeProperties, lines: seq<string>)
    ensures var k := LastSchemeLine(lines);
      ParseLines(st, lines).scheme == (if k < 0 then st.scheme else if Includes(lines[k], "neutral") then Neutral else Rainbow)
  {
    if lines != [] {
      var init := lines[..|lines| - 1];
      ParseScheme(st, init);
      if !MentionsScheme(lines[|lines| - 1]) {
        assert LastSchemeLine(lines) == LastSchemeLine(init);
        var k := LastSchemeLine(init);
        if k >= 0 { assert lines[k] == init[k]; }
      }
    }
  }

  /** An output that mentions none of the four words yields the defaults. */
  lemma ParseDefaults(output: string)
    requires forall line :: line in Split(Trim(output), '\n') ==> !MentionsMode(line) && !MentionsScheme(line)
    ensures ParseOutput(output) == DefaultAnalysis
  {
    var lines := Split(Trim(output), '\n');
    ParseMode(DefaultAnalysis, lines);
    ParseScheme(DefaultAnalysis, lines);
    ParseOutputDerived(output);
  }

  /** `s` with every trailing "/" removed. */
  function StripTrailingSlashes(s: string): (r: string)
    ensures |r| <= |s| && r == s[..|r|]
    ensures r == [] || r[|r| - 1] != '/'
    ensures forall i :: |r| <= i < |s| ==> s[i] == '/'
  {
    if s != [] && s[|s| - 1] == '/' then StripTrailingSlashes(s[..|s| - 1]) else s
  }

  /** The text after the last "/" of `s` (all of `s` when it has none). */
  function AfterLastSlash(s: string): (r: string)
    ensures |r| <= |s| && r == s[|s| - |r|..]
    ensures '/' !in r
    ensures |r| < |s| ==> s[|s| - |r| - 1] == '/'
  {
    if s == [] || s[|s| - 1] == '/' then []
    else
      var r := AfterLastSlash(s[..|s| - 1]);
      assert s[..|s| - 1][|s| - 1 - |r|..] + [s[|s| - 1]] == s[|s| - |r| - 1..];
      r + [s[|s| - 1]]
  }

  /**
   * `g_path_get_basename`: "." for the empty path, "/" for a path of slashes only,
   * otherwise the last component once trailing slashes are dropped.
   */
  function Basename(path: string): (r: string)
    ensures r != []
    ensures r == "/" || '/' !in r
  {
    if path == [] then "."
    else
      var q := StripTrailingSlashes(path);
      if q == [] then "/" else AfterLastSlash(q)
  }

  lemma {:induction false} AfterLastSlashOfChild(dir: string, name: string)
    requires '/' !in name
    ensures AfterLastSlash(dir + "/" + name) == name
    decreases |name|
  {
    var s := dir + "/" + name;
    if name != [] {
      assert s[..|s| - 1] == dir + "/" + name[..|name| - 1];
      AfterLastSlashOfChild(dir, name[..|name| - 1]);
    }
  }

  /** The base name of a file joined onto a directory is the file's own name. */
  lemma BasenameOfChild(dir: string, name: string)
    requires name != [] && '/' !in name
    ensures Basename(dir + "/" + name) == name
  {
    var s := dir + "/" + name;
    assert s[|s| - 1] == name[|name| - 1];
    assert StripTrailingSlashes(s) == s;
    AfterLastSlashOfChild(dir, name);
  }

  const LightWords: seq<string> := ["light", "day", "bright"]
  const DarkWords: seq<string> := ["dark", "night", "moon"]
  const NeutralWords: seq<string> := ["neutral", "gray", "grey", "mono", "black", "white"]

  predicate AnyIncluded(s: string, words: seq<string>) {
    exists i :: 0 <= i < |words| && Includes(s, words[i])
  }

  /**
   * `fallbackColorAnalysis`: a guess from the lower-cased file name, then from the
   * hour of the day (which the caller supplies).
   */
  function FallbackColorAnalysis(path: string, hour: int): (r: ThemeProperties)
    ensures Derived(r)
  {
    var name := ToLower(Basename(path));
    var mode :=
      if AnyIncluded(name, LightWords) then Light
      else if AnyIncluded(name, DarkWords) then Dark
      else if 6 <= hour < 18 then Light
      else Dark;
    var scheme := if AnyIncluded(name, NeutralWords) then Neutral else Rainbow;
    ThemeProperties(if mode == Light then 80 else 20, if scheme == Rainbow then 40 else 10, mode, scheme)
  }

  /** A light word wins over a dark word; neither one leaves the decision to the hour. */
  lemma FallbackMode(path: string, hour: int)
    ensures var name := ToLower(Basename(path));
      FallbackColorAnalysis(path, hour).mode ==
        if AnyIncluded(name, LightWords) then Light
        else if AnyIncluded(name, DarkWords) then Dark
        else if 6 <= hour < 18 then Light else Dark
    ensures var name := ToLower(Basename(path));
      FallbackColorAnalysis(path, hour).scheme == (if AnyIncluded(name, NeutralWords) then Neutral else Rainbow)
  {
  }

  /** Only the file's own name matters, not the directory it sits in nor the case of its letters. */
  lemma FallbackUsesOnlyName(dir1: string, dir2: string, name: string, hour: int)
    requires name != [] && '/' !in name
    ensures FallbackColorAnalysis(dir1 + "/" + name, hour) == FallbackColorAnalysis(dir2 + "/" + name, hour)
    ensures FallbackColorAnalysis(dir1 + "/" + name, hour) == FallbackColorAnalysis(dir1 + "/" + ToLower(name), hour)
  {
    BasenameOfChild(dir1, name);
    BasenameOfChild(dir2, name);
    var lower := ToLower(name);
    assert '/' !in lower by {
      forall i | 0 <= i < |lower| ensures lower[i] != '/' {
        assert name[i] != '/';
      }
    }
    BasenameOfChild(dir1, lower);
    ToLowerIdempotent(name);
  }

  /**
   * The effective analysis: tone and chroma of the automatic one, mode and scheme
   * replaced by each manual choice that is not "auto".
   */
  function Merge(auto: ThemeProperties, manualMode: ThemeMode, manualScheme: ThemeScheme): (r: ThemeProperties)
    ensures r.tone == auto.tone && r.chroma == auto.chroma
  {
    ThemeProperties(
      auto.tone, auto.chroma,
      if manualMode == AutoMode then auto.mode else manualMode,
      if manualScheme == AutoScheme then auto.scheme else manualScheme)
  }

  /** With both choices on "auto" the analysis passes through; a manual choice always wins; merging twice changes nothing. */
  lemma MergeLaws(auto: ThemeProperties, other: ThemeProperties, m: ThemeMode, s: ThemeScheme)
    ensures Merge(auto, AutoMode, AutoScheme) == auto
    ensures m != AutoMode ==> Merge(auto, m, s).mode == m == Merge(other, m, s).mode
    ensures s != AutoScheme ==> Merge(auto, m, s).scheme == s == Merge(other, m, s).scheme
    ensures Merge(Merge(auto, m, s), m, s) == Merge(auto, m, s)
  {
  }

  /** The analysis announced after a manual re-theme. */
  function ManualAnalysis(m: ThemeMode, s: ThemeScheme): (r: ThemeProperties)
    ensures r.mode != AutoMode && r.scheme != AutoScheme
  {
    ThemeProperties(
      if m == Light then 80 else 20,
      if s == Neutral then 10 else 40,
      if m == AutoMode then Dark else m,
      if s == AutoScheme then Rainbow else s)
  }

  /** Its mode and scheme are those the defaults take under the same overrides; for light/dark and neutral/rainbow it is fully derived. */
  lemma ManualAnalysisAgrees(m: ThemeMode, s: ThemeScheme)
    ensures ManualAnalysis(m, s).mode == Merge(DefaultAnalysis, m, s).mode
    ensures ManualAnalysis(m, s).scheme == Merge(DefaultAnalysis, m, s).scheme
    ensures (s == AutoScheme || s == Neutral || s == Rainbow) ==> Derived(ManualAnalysis(m, s))
  {
  }

  function ModeFlag(m: ThemeMode): string {
    if m == AutoMode then "" else " --mode " + ModeValue(m)
  }

  /** The scheme name the colour tool takes: neutral and rainbow lose their prefix. */
  function ChromashScheme(s: ThemeScheme): string {
    if s == Neutral then "neutral" else if s == Rainbow then "rainbow" else SchemeValue(s)
  }

  function SchemeFlag(s: ThemeScheme): string {
    if s == AutoScheme then "" else " --scheme " + ChromashScheme(s)
  }

  function CommandPrefix(chromash: string, path: string): string {
    "\"" + chromash + "\" wallpaper \"" + path + "\""
  }

  /** The command line that sets a wallpaper with the manual overrides. */
  function WallpaperCommand(chromash: string, path: string, m: ThemeMode, s: ThemeScheme): (cmd: string)
    ensures StartsWith(cmd, CommandPrefix(chromash, path))
    ensures m == AutoMode && s == AutoScheme ==> cmd == CommandPrefix(chromash, path)
  {
    CommandPrefix(chromash, path) + Flags(m, s)
  }

  function Flags(m: ThemeMode, s: ThemeScheme): string {
    ModeFlag(m) + SchemeFlag(s)
  }

  /** Splits a leading `--mode` flag off the flag part of a command line. */
  function SplitMode(f: string): (ThemeMode, string) {
    if StartsWith(f, " --mode light") then (Light, f[13..])
    else if StartsWith(f, " --mode dark") then (Dark, f[12..])
    else (AutoMode, f)
  }

  /** The scheme a name taken by the colour tool stands for. */
  function SchemeFromChromash(name: string): Option<ThemeScheme> {
    if name == "neutral" then Some(Neutral)
    else if name == "rainbow" then Some(Rainbow)
    else if name == "scheme-tonal-spot" then Some(TonalSpot)
    else if name == "scheme-expressive" then Some(Expressive)
    else if name == "scheme-content" then Some(Content)
    else None
  }

  /** Reads the scheme back from what follows the mode flag. */
  function DecodeScheme(rest: string): Option<ThemeScheme> {
    if rest == "" then Some(AutoScheme)
    else if StartsWith(rest, " --scheme ") then SchemeFromChromash(rest[10..])
    else None
  }

  /** Reads the overrides back from the flag part of a command line. */
  function DecodeFlags(f: string): Option<(ThemeMode, ThemeScheme)> {
    var (m, rest) := SplitMode(f);
    var s := DecodeScheme(rest);
    if s.Some? then Some((m, s.value)) else None
  }

  lemma ChromashSchemeRoundTrip(s: ThemeScheme)
    requires s != AutoScheme
    ensures SchemeFromChromash(ChromashScheme(s)) == Some(s)
  {
    match s
    case Neutral =>
    case Rainbow =>
      assert "rainbow"[0] != "neutral"[0];
    case TonalSpot =>
    case Expressive =>
      assert "scheme-expressive"[7] != "scheme-tonal-spot"[7];
    case Content =>
  }

  lemma DecodeSchemeRoundTrip(s: ThemeScheme)
    ensures DecodeScheme(SchemeFlag(s)) == Some(s)
  {
    if s != AutoScheme {
      var sf := SchemeFlag(s);
      assert sf == " --scheme " + ChromashScheme(s);
      assert sf[..10] == " --scheme " && sf[10..] == ChromashScheme(s);
      ChromashSchemeRoundTrip(s);
    }
  }

  lemma SplitModeRoundTrip(m: ThemeMode, s: ThemeScheme)
    ensures SplitMode(ModeFlag(m) + SchemeFlag(s)) == (m, SchemeFlag(s))
  {
    var sf := SchemeFlag(s);
    if sf != [] {
      assert sf == " --scheme " + ChromashScheme(s);
      assert sf[3] == 's';
    }
    match m
    case AutoMode => SplitAutoMode(sf);
    case Light => SplitLightMode(sf);
    case Dark => SplitDarkMode(sf);
  }

  /** The flags that may follow the mode flag are empty or start with " --s". */
  predicate AfterMode(rest: string) {
    rest == [] || (|rest| > 3 && rest[3] == 's')
  }

  lemma SplitAutoMode(rest: string)
    requires AfterMode(rest)
    ensures SplitMode(ModeFlag(AutoMode) + rest) == (AutoMode, rest)
  {
    assert ModeFlag(AutoMode) + rest == rest;
    assert !StartsWith(rest, " --mode light") && !StartsWith(rest, " --mode dark") by {
      if rest != [] {
        assert " --mode light"[3] == 'm' && " --mode dark"[3] == 'm';
      }
    }
  }

  lemma SplitLightMode(rest: string)
    requires AfterMode(rest)
    ensures SplitMode(ModeFlag(Light) + rest) == (Light, rest)
  {
    var f := ModeFlag(Light) + rest;
    assert ModeFlag(Light) == " --mode light";
    assert f[..13] == " --mode light";
    assert f[13..] == rest;
  }

  lemma SplitDarkMode(rest: string)
    requires AfterMode(rest)
    ensures SplitMode(ModeFlag(Dark) + rest) == (Dark, rest)
  {
    var f := ModeFlag(Dark) + rest;
    assert ModeFlag(Dark) == " --mode dark";
    assert f[8] == 'd';
    assert !StartsWith(f, " --mode light");
    assert f[..12] == " --mode dark";
    assert f[12..] == rest;
  }

  lemma DecodeFlagsRoundTrip(m: ThemeMode, s: ThemeScheme)
    ensures DecodeFlags(Flags(m, s)) == Some((m, s))
  {
    SplitModeRoundTrip(m, s);
    DecodeSchemeRoundTrip(s);
  }

  /** Different overrides give different command lines for the same tool and image. */
  lemma WallpaperCommandDeterminesOverrides(chromash: string, path: string, m1: ThemeMode, s1: ThemeScheme, m2: ThemeMode, s2: ThemeScheme)
    requires WallpaperCommand(chromash, path, m1, s1) == WallpaperCommand(chromash, path, m2, s2)
    ensures m1 == m2 && s1 == s2
  {
    var p := CommandPrefix(chromash, path);
    CancelPrefix(p, Flags(m1, s1), Flags(m2, s2));
    DecodeFlagsRoundTrip(m1, s1);
    DecodeFlagsRoundTrip(m2, s2);
  }

  lemma CancelPrefix(p: string, a: string, b: string)
    requires p + a == p + b
    ensures a == b
  {
    assert a == (p + a)[|p|..];
    assert b == (p + b)[|p|..];
  }

  /** The command that asks the colour tool for its report. */
  function ThemeCommand(chromash: string): string {
    "\"" + chromash + "\" theme"
  }

  /** `~/.config/ags/utils/chromash/chromash`, joined the way `g_build_filenamev` joins. */
  function ChromashPath(home: string): (p: string)
    ensures Basename(p) == "chromash"
  {
    var p := StripTrailingSlashes(home) + "/.config/ags/utils/chromash/chromash";
    assert p == (StripTrailingSlashes(home) + "/.config/ags/utils/chromash") + "/" + "chromash";
    BasenameOfChild(StripTrailingSlashes(home) + "/.config/ags/utils/chromash", "chromash");
    p
  }

  function NotifyHead(notifySend: string): string {
    notifySend + " \"Chromash Theme Applied\" \""
  }

  function ImageLine(path: string): string {
    "Image: " + Basename(path) + "\n"
  }

  function ThemeLine(a: ThemeProperties): string {
    "Theme: " + ModeValue(a.mode) + " " + SchemeValue(a.scheme)
  }

  /** The `notify-send` command line announcing an applied theme. */
  function NotifyCommand(notifySend: string, path: string, a: ThemeProperties): string {
    NotifyHead(notifySend) + ImageLine(path) + ThemeLine(a) + "\""
  }

  /** The notification shows the file's name and the announced mode and scheme. */
  lemma NotifyCommandMentions(notifySend: string, dir: string, name: string, a: ThemeProperties)
    requires name != [] && '/' !in name
    ensures Includes(NotifyCommand(notifySend, dir + "/" + name, a), "Image: " + name + "\n")
    ensures Includes(NotifyCommand(notifySend, dir + "/" + name, a), ThemeLine(a))
  {
    BasenameOfChild(dir, name);
    var head, image, theme := NotifyHead(notifySend), ImageLine(dir + "/" + name), ThemeLine(a);
    assert image == "Image: " + name + "\n";
    var cmd := NotifyCommand(notifySend, dir + "/" + name, a);
    assert cmd == head + image + (theme + "\"");
    IncludesInfix(head, image, theme + "\"");
    assert cmd == (head + image) + theme + "\"";
    IncludesInfix(head + image, theme, "\"");
  }
}
