/**
 * The window switcher's card grid: the class-to-icon table (a JSON object, or
 * `key=value` / `key:value` lines, or a built-in table when the file cannot be read),
 * the icon lookup by substring, the card title, and `rebuild`, which clamps the
 * selection and lays the filtered windows out five to a row. Reading the file and
 * `JSON.parse` are inputs; the GTK widgets become `Card` and `Grid` values.
 */
module WindowGrid {
  import opened Wrappers
  import opened JsStrings
  import opened Seqs
  import opened OrderedMap
  import opened WindowSwitcher

  /** A `Record<string, string>` from window class fragments to icon names, in key order. */
  type IconTable = seq<Entry<string>>

  /** No character of `s` is white space: what `\S+` matches. */
  predicate NonSpace(s: string) {
    forall i :: 0 <= i < |s| ==> !IsSpace(s[i])
  }

  predicate IsSeparator(c: char) {
    c == '=' || c == ':'
  }

  /** What `\s*[=:]\s*` matches: blanks, one separator, blanks. */
  predicate SeparatorRun(s: string) {
    exists p :: 0 <= p < |s| && IsSeparator(s[p]) && IsBlank(s[..p]) && IsBlank(s[p + 1..])
  }

  /**
   * The line `t` matches `^(\S+)\s*[=:]\s*(\S+)$` with the key `t[..k]` and the value `t[m..]`.
   */
  predicate Shape(t: string, k: int, m: int) {
    0 < k < m < |t| && NonSpace(t[..k]) && NonSpace(t[m..]) && SeparatorRun(t[k..m])
  }

  /** The number of blanks `s` starts with: how far a greedy `\s*` reads. */
  function Blanks(s: string): (n: nat)
    ensures n <= |s| && (n == |s| || !IsSpace(s[n]))
    ensures forall i :: 0 <= i < n ==> IsSpace(s[i])
  {
    if s != [] && IsSpace(s[0]) then 1 + Blanks(s[1..]) else 0
  }

  /**
   * Where the value starts in the rest of a line after a candidate key, when that rest
   * matches `\s*[=:]\s*(\S+)$`; -1 when it does not. Both `\s*` are greedy, and since
   * neither a separator nor the value can start with a blank, no other reading exists.
   */
  function ValueStart(rest: string): int {
    var p := Blanks(rest);
    if p < |rest| && IsSeparator(rest[p]) then
      var q := p + 1 + Blanks(rest[p + 1..]);
      if q < |rest| && NonSpace(rest[q..]) then q else -1
    else -1
  }

  /** The pattern can take `t[..k]` as its key. */
  predicate SplitsAt(t: string, k: int) {
    0 < k <= |t| && NonSpace(t[..k]) && ValueStart(t[k..]) >= 0
  }

  /** Two greedy readings of the same blanks agree. */
  lemma BlanksExact(s: string, p: nat)
    requires p < |s| && !IsSpace(s[p]) && forall i :: 0 <= i < p ==> IsSpace(s[i])
    ensures Blanks(s) == p
  {
  }

  /** Blanks, a separator at `p`, blanks, then a non-blank tail from `n`: the scan finds the value at `n`. */
  lemma ValueStartOfRun(s: string, p: nat, n: nat)
    requires p < n < |s| && IsSeparator(s[p]) && NonSpace(s[n..])
    requires forall i :: 0 <= i < p ==> IsSpace(s[i])
    requires forall i :: p < i < n ==> IsSpace(s[i])
    ensures ValueStart(s) == n
  {
    BlanksExact(s, p);
    var b := s[p + 1..];
    assert b[n - p - 1] == s[n..][0];
    BlanksExact(b, n - p - 1);
  }

  /** A match of the pattern is the greedy reading: its key can be taken and its value starts where the scan says. */
  lemma ShapeIsGreedy(t: string, k: int, m: int)
    requires Shape(t, k, m)
    ensures SplitsAt(t, k) && m == k + ValueStart(t[k..])
  {
    var s := t[k..];
    var mid := t[k..m];
    var p :| 0 <= p < |mid| && IsSeparator(mid[p]) && IsBlank(mid[..p]) && IsBlank(mid[p + 1..]);
    assert forall i :: 0 <= i < p ==> s[i] == mid[..p][i];
    assert forall i :: p < i < m - k ==> s[i] == mid[p + 1..][i - p - 1];
    assert s[m - k..] == t[m..];
    ValueStartOfRun(s, p, m - k);
  }

  /** The greedy reading is a match of the pattern. */
  lemma GreedyIsShape(t: string, k: int)
    requires SplitsAt(t, k)
    ensures Shape(t, k, k + ValueStart(t[k..]))
  {
    var s := t[k..];
    var m := k + ValueStart(s);
    ValueStartRun(s);
    assert t[k..m] == s[..m - k];
    assert t[m..] == s[m - k..];
  }

  /** Where the scan finds a value, blanks, a separator and blanks come before it. */
  lemma ValueStartRun(s: string)
    requires ValueStart(s) >= 0
    ensures var q := ValueStart(s); 0 < q < |s| && NonSpace(s[q..]) && SeparatorRun(s[..q])
  {
    var p := Blanks(s);
    var q := ValueStart(s);
    var mid := s[..q];
    assert mid[..p] == s[..p];
    var after, rest := mid[p + 1..], s[p + 1..];
    assert forall i :: 0 <= i < |after| ==> after[i] == rest[i];
    assert IsSeparator(mid[p]);
  }

  /** The largest `j <= k` with `accepts(j)`, or 0 when there is none: a scan counting down from `k`. */
  function LastAccepted(accepts: nat -> bool, k: nat): (n: nat)
    ensures n <= k
  {
    if k == 0 || accepts(k) then k else LastAccepted(accepts, k - 1)
  }

  /** The scan stops at the first accepted position, counting down. */
  lemma {:induction false} LastAcceptedLaws(accepts: nat -> bool, k: nat)
    ensures var n := LastAccepted(accepts, k);
      && (n > 0 ==> accepts(n))
      && forall j :: n < j <= k ==> !accepts(j)
  {
    if k > 0 && !accepts(k) {
      LastAcceptedLaws(accepts, k - 1);
    }
  }

  /** The longest key length at most `k` the pattern accepts, or 0 when there is none. */
  function KeyLength(t: string, k: nat): (n: nat)
    requires k <= |t|
    ensures n <= k
  {
    LastAccepted((j: nat) => SplitsAt(t, j), k)
  }

  /** No key longer than the one found fits, and the one found fits when it is not 0. */
  lemma KeyLengthLaws(t: string, k: nat)
    requires k <= |t|
    ensures var n := KeyLength(t, k);
      && (n > 0 ==> SplitsAt(t, n))
      && forall j :: n < j <= k ==> !SplitsAt(t, j)
  {
    var accepts := (j: nat) => SplitsAt(t, j);
    LastAcceptedLaws(accepts, k);
    forall j | KeyLength(t, k) < j <= k ensures !SplitsAt(t, j) {
      assert !accepts(j);
    }
  }

  /** `trimmed.match(/^(\S+)\s*[=:]\s*(\S+)$/)`, as the pair of its two groups. */
  function MatchLine(t: string): (r: Option<(string, string)>)
    ensures r.Some? ==> r.value.0 != [] && r.value.1 != []
  {
    var n := KeyLength(t, |t|);
    if n == 0 then None
    else
      KeyLengthLaws(t, |t|);
      Some((t[..n], t[n + ValueStart(t[n..])..]))
  }

  /**
   * The match is the pattern's: the key is as long as the pattern allows (the first
   * group is greedy), the value is the non-blank tail after the separator, and `None`
   * means that no split of the line fits the pattern.
   */
  lemma MatchLineLaws(t: string)
    ensures var r := MatchLine(t);
      && (r.Some? ==> var k := |r.value.0|; var m := |t| - |r.value.1|;
           && Shape(t, k, m) && r.value.0 == t[..k] && r.value.1 == t[m..]
           && forall k', m' :: k < k' && Shape(t, k', m') ==> false)
      && (r.None? ==> forall k, m :: !Shape(t, k, m))
  {
    var n := KeyLength(t, |t|);
    KeyLengthLaws(t, |t|);
    forall k, m | Shape(t, k, m) ensures 0 < k <= n {
      ShapeIsGreedy(t, k, m);
    }
    if n > 0 {
      GreedyIsShape(t, n);
    }
  }

  /** The pair a line of the file contributes: none for blank lines, comments and lines the pattern rejects. */
  function LineEntry(line: string): Option<(string, string)> {
    var t := Trim(line);
    if t == [] || StartsWith(t, "#") then None else MatchLine(t)
  }

  /** The pair each line of the file contributes, line by line. */
  function Assignments(lines: seq<string>): (r: seq<Option<(string, string)>>)
    ensures |r| == |lines|
  {
    Map(LineEntry, lines)
  }

  /** The table the line loop builds from the lines' pairs: each accepted pair is stored in turn. */
  function Build(es: seq<Option<(string, string)>>): IconTable {
    if es == [] then []
    else
      var m := Build(es[..|es| - 1]);
      match es[|es| - 1]
      case None => m
      case Some(kv) => Put(m, kv.0, kv.1)
  }

  /** The table the line loop has built after `lines`. */
  function Parsed(lines: seq<string>): IconTable {
    Build(Assignments(lines))
  }

  predicate Assigns(e: Option<(string, string)>, k: string) {
    e.Some? && e.value.0 == k
  }

  /** Reference reading of the file: the value of the last accepted pair for `k`. */
  function LastValue(es: seq<Option<(string, string)>>, k: string): (r: Option<string>)
  {
    if es == [] then None
    else
      var e := es[|es| - 1];
      if e.Some? && e.value.0 == k then Some(e.value.1) else LastValue(es[..|es| - 1], k)
  }

  /** `LastValue` finds nothing exactly when no pair assigns `k`, and otherwise the last pair that does. */
  lemma {:induction false} LastValueLaws(es: seq<Option<(string, string)>>, k: string)
    ensures var r := LastValue(es, k);
      && (r.None? <==> forall i :: 0 <= i < |es| ==> !Assigns(es[i], k))
      && (r.Some? ==> exists i :: 0 <= i < |es| && es[i] == Some((k, r.value)) &&
                        forall j :: i < j < |es| ==> !Assigns(es[j], k))
  {
    if es != [] {
      var init := es[..|es| - 1];
      var e := es[|es| - 1];
      LastValueLaws(init, k);
      assert forall i :: 0 <= i < |init| ==> init[i] == es[i];
      if e.Some? && e.value.0 == k {
        assert es[|es| - 1] == Some((k, e.value.1));
      }
    }
  }

  /** Every key of the built table holds the value of its last pair, so later lines win; keys stay unique. */
  lemma {:induction false} BuildLookup(es: seq<Option<(string, string)>>, k: string)
    ensures Get(Build(es), k) == LastValue(es, k)
    ensures UniqueKeys(Build(es))
    decreases |es|
  {
    if es != [] {
      BuildLookup(es[..|es| - 1], k);
      var e := es[|es| - 1];
      if e.Some? {
        PutLaws(Build(es[..|es| - 1]), e.value.0, e.value.1);
      }
    }
  }

  /** The parsed table maps each key to the value on the last line that assigns it. */
  lemma ParsedLookup(lines: seq<string>, k: string)
    ensures Get(Parsed(lines), k) == LastValue(Assignments(lines), k)
    ensures UniqueKeys(Parsed(lines))
  {
    BuildLookup(Assignments(lines), k);
  }

  /** Storing a pair after `es`: what the line loop does with one more accepted line. */
  lemma BuildSnoc(es: seq<Option<(string, string)>>, e: Option<(string, string)>)
    ensures Build(es + [e]) == if e.None? then Build(es) else Put(Build(es), e.value.0, e.value.1)
  {
    assert (es + [e])[..|es|] == es;
  }

  lemma {:induction false} BuildSkipsNone(x: seq<Option<(string, string)>>, y: seq<Option<(string, string)>>)
    ensures Build(x + [None] + y) == Build(x + y)
    decreases |y|
  {
    if y == [] {
      assert x + [None] + y == x + [None];
      assert x + y == x;
      BuildSnoc(x, None);
    } else {
      var y' := y[..|y| - 1];
      var e := y[|y| - 1];
      BuildSkipsNone(x, y');
      assert x + [None] + y == (x + [None] + y') + [e];
      assert x + y == (x + y') + [e];
      BuildSnoc(x + [None] + y', e);
      BuildSnoc(x + y', e);
    }
  }

  /** A blank line, a comment or a malformed line can be inserted anywhere without effect. */
  lemma IgnoredLine(a: seq<string>, c: string, b: seq<string>)
    requires LineEntry(c).None?
    ensures Parsed(a + [c] + b) == Parsed(a + b)
  {
    MapConcat(LineEntry, a + [c], b);
    MapConcat(LineEntry, a, [c]);
    MapConcat(LineEntry, a, b);
    assert Assignments([c]) == [None];
    BuildSkipsNone(Assignments(a), Assignments(b));
  }

  /**
   * A line `key`, blanks, `=` or `:`, blanks, `value` is read as that pair when neither
   * token contains white space, the key does not start a comment and the value holds
   * no separator (otherwise the greedy key would swallow part of it).
   */
  lemma WellFormedLine(key: string, w1: string, sep: char, w2: string, value: string)
    requires key != [] && NonSpace(key) && key[0] != '#'
    requires value != [] && NonSpace(value) && forall i :: 0 <= i < |value| ==> !IsSeparator(value[i])
    requires IsBlank(w1) && IsBlank(w2) && IsSeparator(sep)
    ensures LineEntry(key + w1 + [sep] + w2 + value) == Some((key, value))
  {
    TrimmedLineEntry(key + w1 + [sep] + w2 + value);
    WellFormedMatch(key, w1, sep, w2, value);
  }

  lemma WellFormedMatch(key: string, w1: string, sep: char, w2: string, value: string)
    requires key != [] && NonSpace(key)
    requires value != [] && NonSpace(value) && forall i :: 0 <= i < |value| ==> !IsSeparator(value[i])
    requires IsBlank(w1) && IsBlank(w2) && IsSeparator(sep)
    ensures MatchLine(key + w1 + [sep] + w2 + value) == Some((key, value))
  {
    var t := key + w1 + [sep] + w2 + value;
    WellFormedShape(key, w1, sep, w2, value);
    forall k2, m2 | Shape(t, k2, m2) ensures k2 <= |key| {
      NoLongerKey(key, w1, sep, w2, value, k2, m2);
    }
    MatchLineOfShape(t, |key|, |t| - |value|);
  }

  /** A match of the pattern with the longest possible key is the one `match` returns. */
  lemma MatchLineOfShape(t: string, k: int, m: int)
    requires Shape(t, k, m)
    requires forall k', m' :: Shape(t, k', m') ==> k' <= k
    ensures MatchLine(t) == Some((t[..k], t[m..]))
  {
    var n := KeyLength(t, |t|);
    GreedyIsLongest(t, n);
    ShapeIsGreedy(t, k, m);
    LongestKey(t, k, n);
    assert n == k;
    MatchLineAt(t, k, m);
  }

  /** With the key length the scan finds, `match` returns the key and the value after it. */
  lemma MatchLineAt(t: string, k: int, m: int)
    requires 0 < k <= |t| && KeyLength(t, |t|) == k && m == k + ValueStart(t[k..]) && k < m <= |t|
    ensures MatchLine(t) == Some((t[..k], t[m..]))
  {
  }

  /** The key the scan finds is a match of the pattern, or there is none. */
  lemma GreedyIsLongest(t: string, n: nat)
    requires n == KeyLength(t, |t|)
    ensures n > 0 ==> Shape(t, n, n + ValueStart(t[n..]))
  {
    KeyLengthLaws(t, |t|);
    if n > 0 {
      GreedyIsShape(t, n);
    }
  }

  /** A key the pattern accepts is no longer than the one the scan finds. */
  lemma LongestKey(t: string, k: int, n: nat)
    requires n == KeyLength(t, |t|) && 0 < k <= |t| && SplitsAt(t, k)
    ensures k <= n
  {
    KeyLengthLaws(t, |t|);
  }

  lemma WellFormedShape(key: string, w1: string, sep: char, w2: string, value: string)
    requires key != [] && NonSpace(key) && value != [] && NonSpace(value)
    requires IsBlank(w1) && IsBlank(w2) && IsSeparator(sep)
    ensures var t := key + w1 + [sep] + w2 + value;
      Shape(t, |key|, |t| - |value|) && t[..|key|] == key && t[|t| - |value|..] == value
  {
    var t := key + w1 + [sep] + w2 + value;
    var k := |key|;
    var m := |t| - |value|;
    assert t[..k] == key && t[m..] == value;
    assert t[k..m] == w1 + [sep] + w2;
    assert (w1 + [sep] + w2)[..|w1|] == w1 && (w1 + [sep] + w2)[|w1| + 1..] == w2;
    assert SeparatorRun(t[k..m]);
  }

  /** A line with no blank at either end that does not start with `#` goes straight to the pattern. */
  lemma TrimmedLineEntry(t: string)
    requires t != [] && !IsSpace(t[0]) && !IsSpace(t[|t| - 1]) && t[0] != '#'
    ensures LineEntry(t) == MatchLine(t)
  {
    assert TrimStart(t) == t;
    assert TrimEnd(t) == t;
    assert t[..1] == [t[0]];
  }

  /** In a well-formed line the only separator after the key is the one between the tokens. */
  lemma SeparatorPositions(key: string, w1: string, sep: char, w2: string, value: string)
    requires forall i :: 0 <= i < |value| ==> !IsSeparator(value[i])
    requires IsBlank(w2)
    ensures var t := key + w1 + [sep] + w2 + value;
      forall j :: |key| + |w1| < j < |t| ==> !IsSeparator(t[j])
  {
    var t := key + w1 + [sep] + w2 + value;
    forall j | |key| + |w1| < j < |t| ensures !IsSeparator(t[j]) {
      var i := j - |key| - |w1| - 1;
      assert t[j] == (w2 + value)[i];
      if i < |w2| {
        assert IsSpace(w2[i]);
      } else {
        assert (w2 + value)[i] == value[i - |w2|];
      }
    }
  }

  /** In a well-formed line no key longer than `key` fits the pattern. */
  lemma NoLongerKey(key: string, w1: string, sep: char, w2: string, value: string, k2: int, m2: int)
    requires forall i :: 0 <= i < |value| ==> !IsSeparator(value[i])
    requires IsBlank(w1) && IsBlank(w2)
    requires Shape(key + w1 + [sep] + w2 + value, k2, m2)
    ensures k2 <= |key|
  {
    var t := key + w1 + [sep] + w2 + value;
    SeparatorPositions(key, w1, sep, w2, value);
    var p :| 0 <= p < m2 - k2 && IsSeparator(t[k2..m2][p]) && IsBlank(t[k2..m2][..p]) && IsBlank(t[k2..m2][p + 1..]);
    assert IsSeparator(t[k2 + p]);
    assert w1 != [] ==> IsSpace(t[|key|]);
    assert forall i :: 0 <= i < k2 ==> !IsSpace(t[i]) by {
      assert forall i :: 0 <= i < k2 ==> t[i] == t[..k2][i];
    }
  }

  /** The table used when the mapping file cannot be read. */
  const DefaultIconMappings: IconTable := [
    Entry("firefox", "web"), Entry("zen", "web"), Entry("chromium", "web"), Entry("chrome", "web"),
    Entry("brave", "web"), Entry("safari", "web"), Entry("edge", "web"),
    Entry("code", "code"), Entry("vscode", "code"), Entry("vim", "code"), Entry("neovim", "code"),
    Entry("terminal", "terminal"), Entry("kitty", "terminal"), Entry("alacritty", "terminal"),
    Entry("foot", "terminal"), Entry("wezterm", "terminal"), Entry("konsole", "terminal"),
    Entry("nautilus", "folder_open"), Entry("thunar", "folder_open"), Entry("dolphin", "folder_open"),
    Entry("discord", "chat_bubble"), Entry("slack", "chat_bubble"), Entry("telegram", "chat_bubble"),
    Entry("spotify", "library_music"), Entry("vlc", "movie"), Entry("mpv", "movie")
  ]

  /** The line-format reading of the file: each line trimmed, blank lines and comments skipped. */
  method ParseLines(text: string) returns (mappings: IconTable)
    ensures mappings == Parsed(Split(text, '\n'))
    ensures UniqueKeys(mappings)
  {
    var lines := Split(text, '\n');
    mappings := [];
    for i := 0 to |lines|
      invariant mappings == Parsed(lines[..i])
    {
      ParsedNext(lines, i);
      var trimmed := Trim(lines[i]);
      if trimmed == [] || StartsWith(trimmed, "#") {
        continue;
      }
      var m := MatchLine(trimmed);
      if m.Some? {
        mappings := Put(mappings, m.value.0, m.value.1);
      }
    }
    assert lines[..|lines|] == lines;
    ParsedLookup(lines, "");
  }

  /** One more line: its pair, if it has one, is stored into the table built so far. */
  lemma ParsedNext(lines: seq<string>, i: nat)
    requires i < |lines|
    ensures var e := LineEntry(lines[i]);
      Parsed(lines[..i + 1]) == if e.None? then Parsed(lines[..i]) else Put(Parsed(lines[..i]), e.value.0, e.value.1)
  {
    assert lines[..i + 1] == lines[..i] + [lines[i]];
    MapConcat(LineEntry, lines[..i], [lines[i]]);
    BuildSnoc(Assignments(lines[..i]), LineEntry(lines[i]));
  }

  /**
   * `loadIconMappings`: `contents` is the file as read (`None` when the read fails) and
   * `json` the outcome of `JSON.parse` on it (`None` when it throws).
   */
  method LoadIconMappings(contents: Option<string>, json: Option<IconTable>) returns (r: IconTable)
    ensures contents.None? ==> r == DefaultIconMappings
    ensures contents.Some? && json.Some? ==> r == json.value
    ensures contents.Some? && json.None? ==> r == Parsed(Split(contents.value, '\n'))
    ensures contents.Some? && json.None? ==>
      forall k :: Get(r, k) == LastValue(Assignments(Split(contents.value, '\n')), k)
  {
    if contents.None? {
      return DefaultIconMappings;
    }
    if json.Some? {
      return json.value;
    }
    r := ParseLines(contents.value);
    forall k ensures Get(r, k) == LastValue(Assignments(Split(contents.value, '\n')), k) {
      ParsedLookup(Split(contents.value, '\n'), k);
    }
  }

  /** The icon of the first key in `table` that occurs in `lower`. */
  function FirstIcon(table: IconTable, lower: string): (r: string)
    ensures (forall i :: 0 <= i < |table| ==> !Includes(lower, table[i].key)) ==> r == "apps"
    ensures forall i ::
      (0 <= i < |table| && Includes(lower, table[i].key) && forall j :: 0 <= j < i ==> !Includes(lower, table[j].key))
      ==> r == table[i].value
  {
    if table == [] then "apps"
    else if Includes(lower, table[0].key) then table[0].value
    else
      assert forall i :: 1 <= i < |table| ==> table[i] == table[1..][i - 1];
      FirstIcon(table[1..], lower)
  }

  /** `getIcon(className)`: the first key, in table order, contained in the lowercased class wins; else "apps". */
  function GetIcon(table: IconTable, className: string): (r: string)
    ensures (forall i :: 0 <= i < |table| ==> !Includes(ToLower(className), table[i].key)) ==> r == "apps"
    ensures forall i ::
      (0 <= i < |table| && Includes(ToLower(className), table[i].key) &&
       forall j :: 0 <= j < i ==> !Includes(ToLower(className), table[j].key))
      ==> r == table[i].value
  {
    FirstIcon(table, ToLower(className))
  }

  /** The card title: at most 25 characters, a longer title cut to 22 and marked with "...". */
  function CardTitle(title: string): (r: string)
    ensures |r| <= 25
    ensures |title| <= 25 ==> r == title
    ensures |title| > 25 ==> |r| == 25 && r[..22] == title[..22] && r[22..] == "..."
  {
    if |title| > 25 then title[..22] + "..." else title
  }

  const ItemsPerRow := 5

  /** The arguments `rebuild` passes to `createWindowCard`: the window, its position and whether it is selected. */
  datatype Card = Card(window: WindowInfo, index: nat, selected: bool)

  /** What `rebuild` leaves in the grid box. */
  datatype Grid = Placeholder(text: string) | Rows(rows: seq<seq<Card>>)

  /** The labels and style classes of a built card. */
  datatype CardView = CardView(
    cssClasses: seq<string>, icon: string, title: string, workspace: string, subtitle: string,
    badges: seq<string>)

  /**
   * `createWindowCard(win, i, isSelected)`: the icon, the shortened title, the workspace
   * and class labels, a "Full" badge for a fullscreen window and a "Float" badge for a
   * floating one, and the "selected" style only on the selected card.
   */
  function CreateWindowCard(c: Card, icons: IconTable): (v: CardView)
    ensures v.cssClasses != [] && v.cssClasses[0] == "window-card" && ("selected" in v.cssClasses <==> c.selected)
    ensures v.icon == GetIcon(icons, c.window.windowClass) && |v.title| <= 25
    ensures ("Full" in v.badges <==> c.window.fullscreen) && ("Float" in v.badges <==> c.window.floating)
  {
    var badges := (if c.window.fullscreen then ["Full"] else []) + (if c.window.floating then ["Float"] else []);
    CardView(["window-card"] + (if c.selected then ["selected"] else []),
             GetIcon(icons, c.window.windowClass), CardTitle(c.window.title),
             "Workspace " + IntToString(c.window.workspaceId), c.window.windowClass, badges)
  }

  /** The placeholder depends only on whether a query is typed. */
  function PlaceholderText(query: string): (r: string)
    ensures query != "" <==> r == "No matching windows"
    ensures query == "" <==> r == "No windows open"
  {
    if query != "" then "No matching windows" else "No windows open"
  }

  /** `Math.ceil(total / ITEMS_PER_ROW)` */
  function RowCount(total: nat): (r: nat)
    ensures ItemsPerRow * r >= total && (r == 0 || ItemsPerRow * (r - 1) < total)
  {
    (total + ItemsPerRow - 1) / ItemsPerRow
  }

  /** The number of cards in row `row`: up to five, fewer in the last row. */
  function RowLength(row: nat, total: nat): int {
    Min(row * ItemsPerRow + ItemsPerRow, total) - row * ItemsPerRow
  }

  /** The list position of the card in column `col` of row `row`. */
  function Pos(row: nat, col: nat): nat {
    row * ItemsPerRow + col
  }

  /** The selection clamp, for a non-empty list. */
  function ClampIndex(index: nat, total: nat): (r: nat)
    requires total > 0
    ensures r < total
    ensures index < total ==> r == index
    ensures index >= total ==> r == total - 1
  {
    if index >= total then total - 1 else index
  }

  /** The switcher state after `rebuild`: only the index changes, and only when it lies past the list. */
  function RebuildStep(s: SwitchState): SwitchState {
    if |s.filtered| == 0 then s else s.(index := ClampIndex(s.index, |s.filtered|))
  }

  /**
   * The rows partition the list: every position is in row `i / 5` at column `i % 5`,
   * every cell of a row is a position of the list, no two cells share a position, and
   * every row holds one to five cards.
   */
  lemma RowsPartition(total: nat)
    ensures forall i :: 0 <= i < total ==>
      i / ItemsPerRow < RowCount(total) && i % ItemsPerRow < RowLength(i / ItemsPerRow, total)
      && Pos(i / ItemsPerRow, i % ItemsPerRow) == i
    ensures forall r, c :: 0 <= r < RowCount(total) && 0 <= c < RowLength(r, total) ==> Pos(r, c) < total
    ensures forall r1: nat, c1: nat, r2: nat, c2: nat :: c1 < ItemsPerRow && c2 < ItemsPerRow && Pos(r1, c1) == Pos(r2, c2) ==>
      r1 == r2 && c1 == c2
    ensures forall r :: 0 <= r < RowCount(total) ==> 1 <= RowLength(r, total) <= ItemsPerRow
  {
  }

  lemma RowAppend(rows: seq<seq<Card>>, rowCards: seq<Card>)
    ensures forall r :: 0 <= r < |rows| ==> (rows + [rowCards])[r] == rows[r]
    ensures (rows + [rowCards])[|rows|] == rowCards
  {
  }

  /**
   * `rebuild()`: nothing when the grid is not mounted; the placeholder for an empty
   * list; otherwise the clamped selection and the cards, row by row.
   */
  method Rebuild(ws: WindowSwitcherManager, mounted: bool) returns (g: Option<Grid>)
    modifies ws
    ensures !mounted ==> g.None? && ws.State() == old(ws.State())
    ensures mounted ==> g.Some? && ws.State() == RebuildStep(old(ws.State()))
    ensures g.Some? ==> (g.value.Placeholder? <==> |ws.filtered| == 0)
    ensures g.Some? && g.value.Placeholder? ==> g.value.text == PlaceholderText(ws.query)
    ensures g.Some? && g.value.Rows? ==> var rows := g.value.rows; var total := |ws.filtered|;
      && ws.index < total
      && |rows| == RowCount(total)
      && (forall r :: 0 <= r < |rows| ==> |rows[r]| == RowLength(r, total))
      && forall r, c :: 0 <= r < |rows| && 0 <= c < |rows[r]| ==>
           Pos(r, c) < total && rows[r][c] == Card(ws.filtered[Pos(r, c)], Pos(r, c), Pos(r, c) == ws.index)
  {
    if !mounted {
      return None;
    }
    var total := |ws.filtered|;
    if total == 0 {
      return Some(Placeholder(if ws.query != "" then "No matching windows" else "No windows open"));
    }
    if ws.index >= total {
      ws.index := total - 1;
    }
    var windows := ws.filtered;
    var selected := ws.index;
    var numRows := (total + ItemsPerRow - 1) / ItemsPerRow;
    var rows: seq<seq<Card>> := [];
    for row := 0 to numRows
      invariant ws.State() == RebuildStep(old(ws.State()))
      invariant |rows| == row
      invariant forall r :: 0 <= r < row ==> |rows[r]| == RowLength(r, total)
      invariant forall r, c :: 0 <= r < row && 0 <= c < |rows[r]| ==>
        Pos(r, c) < total && rows[r][c] == Card(windows[Pos(r, c)], Pos(r, c), Pos(r, c) == selected)
    {
      var start := row * ItemsPerRow;
      var end := Min(start + ItemsPerRow, total);
      var rowCards := BuildRow(windows, start, end, selected);
      assert forall c :: 0 <= c < |rowCards| ==> Pos(row, c) == start + c && Pos(row, c) < total;
      RowAppend(rows, rowCards);
      rows := rows + [rowCards];
    }
    g := Some(Rows(rows));
  }

  /** One row of the grid: a card for each window from `start` up to `end`, the selected one marked. */
  method BuildRow(windows: seq<WindowInfo>, start: nat, end: nat, selected: nat) returns (rowCards: seq<Card>)
    requires start <= end <= |windows|
    ensures |rowCards| == end - start
    ensures forall c :: 0 <= c < |rowCards| ==> rowCards[c] == Card(windows[start + c], start + c, start + c == selected)
  {
    rowCards := [];
    for i := start to end
      invariant |rowCards| == i - start
      invariant forall c :: 0 <= c < |rowCards| ==> rowCards[c] == Card(windows[start + c], start + c, start + c == selected)
    {
      rowCards := rowCards + [Card(windows[i], i, selected == i)];
    }
  }
}
