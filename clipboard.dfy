/**
 * The clipboard history manager: the entries `cliphist list` reports, the subset matching
 * the search query, a selection index, a select/delete mode and the callbacks told about
 * each change. The output of `cliphist list`, which thumbnails decode, and whether a
 * delete or wipe command succeeds are inputs (`ClipEnv`); the command lines handed to
 * the shell are logged in `commands`; callbacks are named by numbers and each
 * notification appends the called ones to `notified`; a `setTimeout(…, 0)` notification
 * waits in `deferredUpdates` until `RunDeferredUpdate` fires it.
 */
module Clipboard {
  import opened Wrappers
  import opened JsStrings
  import opened Seqs

  datatype ClipEntry = ClipEntry(
    content: string,            // the whole `cliphist list` line
    preview: string,
    isImage: bool,
    imageType: Option<string>,
    imagePath: Option<string>,  // the thumbnail, when it was decoded
    cliphistId: string)

  datatype Mode = SelectMode | DeleteMode

  /** A registered update callback, by identity. */
  type Callback = nat

  /** What the outside world answers during one operation. */
  datatype ClipEnv = ClipEnv(
    listOutput: Option<string>,  // stdout of `cliphist list`; None when it fails
    decoded: set<string>,        // the lines whose thumbnail decode succeeds
    execOk: bool)                // whether the delete / wipe command succeeds

  const MaxLines: nat := 50
  const PreviewLength: nat := 100

  const KeyEscape := 65307
  const KeyReturn := 65293
  const KeyUp := 65362
  const KeyDown := 65364
  const KeyTab := 65289
  const KeyDeleteKey := 65535

  // ---------------------------------------------------------------------------
  // Parsing one `cliphist list` output
  // ---------------------------------------------------------------------------

  /** `clip.split("\n").filter(Boolean).slice(0, 50)` */
  function Lines(clip: string): (lines: seq<string>)
    ensures |lines| <= MaxLines
    ensures forall i :: 0 <= i < |lines| ==> lines[i] != [] && '\n' !in lines[i]
  {
    var kept := Filter(Split(clip, '\n'), (l: string) => l != []);
    KeptLines(clip);
    kept[..Min(MaxLines, |kept|)]
  }

  /** The pieces `filter(Boolean)` keeps are non-empty and hold no newline. */
  lemma KeptLines(clip: string)
    ensures var kept := Filter(Split(clip, '\n'), (l: string) => l != []);
      forall i :: 0 <= i < |kept| ==> kept[i] != [] && '\n' !in kept[i]
  {
    var parts := Split(clip, '\n');
    var kept := Filter(parts, (l: string) => l != []);
    forall i | 0 <= i < |kept| ensures kept[i] != [] && '\n' !in kept[i] {
      assert kept[i] in parts;
      var k :| 0 <= k < |parts| && parts[k] == kept[i];
    }
  }

  /** The lines are the non-empty pieces between newlines, in order; when there are at most 50, all of them. */
  lemma LinesKept(clip: string)
    ensures Subseq(Lines(clip), Split(clip, '\n'))
    ensures var kept := Filter(Split(clip, '\n'), (l: string) => l != []);
      |kept| <= MaxLines ==> forall l :: l in Split(clip, '\n') && l != [] ==> l in Lines(clip)
  {
    var parts := Split(clip, '\n');
    var kept := Filter(parts, (l: string) => l != []);
    FilterSubseq(parts, (l: string) => l != []);
    PrefixSubseq(kept, Min(MaxLines, |kept|));
    SubseqTrans(Lines(clip), kept, parts);
    if |kept| <= MaxLines {
      assert Lines(clip) == kept;
    }
  }

  /** The cliphist id before the first tab and the content after it; without a tab, no id. */
  function TabSplit(line: string): (string, string) {
    var i := IndexOf(line, '\t');
    if i == -1 then ("", line) else (line[..i], line[i + 1..])
  }

  lemma TabSplitLaws(line: string)
    ensures var (id, content) := TabSplit(line);
      && '\t' !in id
      && ('\t' in line ==> id + "\t" + content == line)
      && ('\t' !in line ==> id == "" && content == line)
  {
    var i := IndexOf(line, '\t');
    if i != -1 {
      assert line == line[..i] + "\t" + line[i + 1..];
    }
  }

  /** `content.length > 100 ? content.slice(0, 97) + "..." : content` */
  function Preview(content: string): (p: string)
    ensures |p| <= PreviewLength
    ensures |content| <= PreviewLength <==> p == content
    ensures |content| > PreviewLength ==> |p| == PreviewLength && p[..97] == content[..97] && p[97..] == "..."
  {
    if |content| > PreviewLength then content[..97] + "..." else content
  }

  const ImageMarker := "[[ binary data image/"

  /** The length of the leading run without `]`. */
  function RunWithoutBracket(s: string): (k: nat)
    ensures k <= |s|
    ensures forall j :: 0 <= j < k ==> s[j] != ']'
    ensures k < |s| ==> s[k] == ']'
  {
    if s == [] || s[0] == ']' then 0 else 1 + RunWithoutBracket(s[1..])
  }

  /**
   * The regular expression `\[\[ binary data (image\/[^\]]+)\]\]` matched at position `i`:
   * its group, when it matches there. The greedy `[^\]]+` takes the whole run before the
   * next `]`, and a shorter run would be followed by a character other than `]`.
   */
  function MatchAt(s: string, i: nat): (r: Option<string>)
    requires i <= |s|
    ensures r.Some? ==> StartsWith(r.value, "image/") && |r.value| > 6 && ']' !in r.value
  {
    var rest := s[i..];
    if !StartsWith(rest, ImageMarker) then None
    else
      var tail := rest[|ImageMarker|..];
      var k := RunWithoutBracket(tail);
      if k >= 1 && StartsWith(tail[k..], "]]") then
        var t := "image/" + tail[..k];
        assert t[..6] == "image/";
        Some(t)
      else None
  }

  /** The leftmost position from `i` on where the expression matches, or -1. */
  function FirstMatch(s: string, i: nat): (j: int)
    requires i <= |s|
    ensures j == -1 || i <= j <= |s|
    decreases |s| - i
  {
    if MatchAt(s, i).Some? then i
    else if i == |s| then -1
    else FirstMatch(s, i + 1)
  }

  /** The position found matches, and no position before it (from `i` on) does. */
  lemma {:induction false} FirstMatchLaws(s: string, i: nat)
    requires i <= |s|
    ensures var j := FirstMatch(s, i);
      && (j != -1 ==> MatchAt(s, j).Some?)
      && forall j' :: i <= j' <= |s| && (j == -1 || j' < j) ==> MatchAt(s, j').None?
    decreases |s| - i
  {
    if MatchAt(s, i).None? && i < |s| {
      FirstMatchLaws(s, i + 1);
    }
  }

  /** `content.match(…)`: the group of the leftmost match. */
  function ImageMatch(s: string): Option<string> {
    var j := FirstMatch(s, 0);
    if j == -1 then None else MatchAt(s, j)
  }

  /** `imageType.split('/')[1] || 'png'` */
  function Extension(imageType: string): (ext: string)
    ensures ext != [] && '/' !in ext
  {
    var parts := Split(imageType, '/');
    if |parts| >= 2 && parts[1] != [] then parts[1] else "png"
  }

  /** For a matched type `image/<sub>` the extension is `sub` up to its first slash, or png. */
  lemma ExtensionOfImage(sub: string)
    requires '/' !in sub && sub != []
    ensures Extension("image/" + sub) == sub
  {
    var t := "image/" + sub;
    assert t[5] == '/' && t[..5] == "image" && t[6..] == sub;
    assert '/' !in t[..5];
    assert IndexOf(t, '/') == 5;
    assert IndexOf(sub, '/') == -1;
    assert Split(sub, '/') == [sub];
    assert Split(t, '/') == [t[..5]] + Split(t[6..], '/');
  }

  function ThumbPath(id: string, ext: string): string {
    "/tmp/clipboard_thumb_" + id + "." + ext
  }

  /** `line.replace(/'/g, "'\"'\"'")`: every single quote closed, quoted, and reopened. */
  function Escape(s: string): (r: string)
    ensures '\'' !in s ==> r == s
  {
    if s == [] then []
    else (if s[0] == '\'' then QuoteGroup else [s[0]]) + Escape(s[1..])
  }

  /** The group a single quote becomes: close the quoting, a double-quoted quote, reopen. */
  const QuoteGroup := "'\"'\"'"

  /** Reads every quote group back as the single quote it stands for. */
  function Unquote(t: string): (s: string)
    ensures |s| <= |t|
  {
    if t == [] then []
    else if |t| >= 5 && t[..5] == QuoteGroup then "'" + Unquote(t[5..])
    else [t[0]] + Unquote(t[1..])
  }

  /**
   * `t` is made of characters other than `'` and whole quote groups, so inside the
   * single-quoted shell word the quoting is only ever closed by a group.
   */
  predicate QuotesGrouped(t: string)
    decreases |t|
  {
    t == [] || (t[0] != '\'' && QuotesGrouped(t[1..]))
    || (|t| >= 5 && t[..5] == QuoteGroup && QuotesGrouped(t[5..]))
  }

  /** Escaping loses nothing: reading the groups back gives the string, and no quote is left outside a group. */
  lemma {:induction false} EscapeLaws(s: string)
    ensures Unquote(Escape(s)) == s
    ensures QuotesGrouped(Escape(s))
    ensures |Escape(s)| >= |s|
  {
    if s != [] {
      EscapeLaws(s[1..]);
      var t := Escape(s);
      var rest := Escape(s[1..]);
      if s[0] == '\'' {
        assert t == QuoteGroup + rest;
        assert t[..5] == QuoteGroup && t[5..] == rest;
        assert s == "'" + s[1..];
      } else {
        assert t == [s[0]] + rest;
        assert t[0] != '\'' && t[1..] == rest;
        assert s == [s[0]] + s[1..];
      }
    }
  }

  function DecodeCommand(line: string, path: string): string {
    "printf '%s' '" + Escape(line) + "' | cliphist decode > " + path
  }

  function DeleteCommand(content: string): string {
    "printf '%s' '" + Escape(content) + "' | cliphist delete"
  }

  function CopyCommand(content: string): string {
    "printf '%s' '" + Escape(content) + "' | cliphist decode | wl-copy &"
  }

  /** The entry one line becomes; `decoded` says which thumbnail decodes succeed. */
  function ParseLine(line: string, decoded: set<string>): ClipEntry {
    var (id, content) := TabSplit(line);
    match ImageMatch(content)
    case Some(t) =>
      var path := ThumbPath(id, Extension(t));
      if line in decoded then ClipEntry(line, "Image (" + t + ")", true, Some(t), Some(path), id)
      else ClipEntry(line, "Image (" + t + ") - failed to load", true, Some(t), None, id)
    case None => ClipEntry(line, Preview(content), false, None, None, id)
  }

  /** The whole line is kept as content; an image has a type and a thumbnail exactly when decoded; text is previewed. */
  lemma ParseLineLaws(line: string, decoded: set<string>)
    ensures var e := ParseLine(line, decoded);
      var (id, content) := TabSplit(line);
      && e.content == line && e.cliphistId == id
      && (e.isImage <==> exists j :: 0 <= j <= |content| && MatchAt(content, j).Some?)
      && (e.isImage ==> e.imageType.Some? && StartsWith(e.imageType.value, "image/")
                        && (e.imagePath.Some? <==> line in decoded)
                        && (e.imagePath.Some? ==> e.imagePath.value == ThumbPath(id, Extension(e.imageType.value))))
      && (!e.isImage ==> e.preview == Preview(content) && e.imagePath.None? && e.imageType.None?)
  {
    var (id, content) := TabSplit(line);
    FirstMatchLaws(content, 0);
  }

  function ParseLines(lines: seq<string>, decoded: set<string>): (entries: seq<ClipEntry>)
    ensures |entries| == |lines|
    ensures forall i :: 0 <= i < |lines| ==> entries[i] == ParseLine(lines[i], decoded)
  {
    seq(|lines|, i requires 0 <= i < |lines| => ParseLine(lines[i], decoded))
  }

  /** The decode commands the image lines issue, in line order. */
  function DecodeCommands(lines: seq<string>): seq<string> {
    if lines == [] then []
    else
      var (id, content) := TabSplit(lines[0]);
      var cmds := match ImageMatch(content)
        case Some(t) => [DecodeCommand(lines[0], ThumbPath(id, Extension(t)))]
        case None => [];
      cmds + DecodeCommands(lines[1..])
  }

  // ---------------------------------------------------------------------------
  // The manager's state and its transitions
  // ---------------------------------------------------------------------------

  datatype ClipState = ClipState(
    entries: seq<ClipEntry>,
    filtered: seq<ClipEntry>,
    index: nat,
    mode: Mode,
    query: string,
    isVisible: bool,
    callbacks: seq<Callback>,
    notified: seq<Callback>,      // every callback call, in order
    deferredUpdates: nat,         // notifications queued with setTimeout(…, 0)
    commands: seq<string>,        // command lines handed to the shell, in order
    hasFocusSearch: bool,
    focusRequests: nat)           // calls of the focusSearch hook

  predicate Matches(e: ClipEntry, q: string) {
    Includes(ToLower(e.content), q)
  }

  /** The entries whose lowercased content contains the lowercased query, in order. */
  function Matching(entries: seq<ClipEntry>, query: string): (r: seq<ClipEntry>)
    ensures Subseq(r, entries)
  {
    var keep := (e: ClipEntry) => Matches(e, ToLower(query));
    FilterSubseq(entries, keep);
    Filter(entries, keep)
  }

  /** `triggerUpdate`: every callback is called, in registration order. */
  function TriggerStep(s: ClipState): ClipState {
    s.(notified := s.notified + s.callbacks)
  }

  /** `filter` */
  function FilterStep(s: ClipState): ClipState {
    var f := Matching(s.entries, s.query);
    TriggerStep(s.(filtered := f, index := Min(s.index, Max(0, |f| - 1))))
  }

  /** `load`: both lists are emptied first; a failed listing leaves them empty and notifies. */
  function LoadStep(s: ClipState, env: ClipEnv): ClipState {
    var s0 := s.(entries := [], filtered := [], commands := s.commands + ["cliphist list"]);
    match env.listOutput
    case None => TriggerStep(s0)
    case Some(out) =>
      var lines := Lines(out);
      FilterStep(s0.(entries := ParseLines(lines, env.decoded), commands := s0.commands + DecodeCommands(lines)))
  }

  /** `hide` */
  function HideStep(s: ClipState): ClipState {
    s.(isVisible := false, mode := SelectMode, query := "", index := 0)
  }

  /** `show` */
  function ShowStep(s: ClipState, env: ClipEnv): ClipState {
    LoadStep(s.(isVisible := true), env)
  }

  /** `select(i)`: nothing without an entry at `i`; deletes and reloads, or copies and hides. */
  function SelectStep(s: ClipState, i: int, env: ClipEnv): ClipState {
    if !(0 <= i < |s.filtered|) then s
    else
      var e := s.filtered[i];
      match s.mode
      case DeleteMode =>
        var s1 := s.(commands := s.commands + [DeleteCommand(e.content)]);
        if env.execOk then LoadStep(s1, env) else s1
      case SelectMode => HideStep(s.(commands := s.commands + [CopyCommand(e.content)]))
  }

  /** `clearAll` */
  function ClearAllStep(s: ClipState, env: ClipEnv): ClipState {
    var s1 := s.(commands := s.commands + ["cliphist wipe"]);
    if env.execOk then LoadStep(s1, env) else s1
  }

  function Toggled(m: Mode): Mode {
    if m == SelectMode then DeleteMode else SelectMode
  }

  /** `toggleMode`: the notification is deferred. */
  function ToggleStep(s: ClipState): ClipState {
    s.(mode := Toggled(s.mode), deferredUpdates := s.deferredUpdates + 1)
  }

  function UpStep(s: ClipState): ClipState {
    if |s.filtered| > 0 then TriggerStep(s.(index := Max(0, s.index - 1))) else s
  }

  function DownStep(s: ClipState): ClipState {
    if |s.filtered| > 0 then TriggerStep(s.(index := Min(|s.filtered| - 1, s.index + 1))) else s
  }

  /** `key(k)` */
  function KeyStep(s: ClipState, k: int, env: ClipEnv): ClipState {
    if k == KeyEscape then HideStep(s)
    else if k == KeyReturn then SelectStep(s, s.index, env)
    else if k == KeyUp then UpStep(s)
    else if k == KeyDown then DownStep(s)
    else if k == KeyTab then ToggleStep(s)
    else if k == KeyDeleteKey then
      (if s.mode == SelectMode then s.(mode := DeleteMode, deferredUpdates := s.deferredUpdates + 1) else s)
    else if s.hasFocusSearch then s.(focusRequests := s.focusRequests + 1)
    else s
  }

  function SearchStep(s: ClipState, q: string): ClipState {
    FilterStep(s.(query := q))
  }

  function ClearSearchStep(s: ClipState): ClipState {
    FilterStep(s.(query := "", index := 0))
  }

  /** The `onUpdate` setter: the one given callback, or none. */
  function SetOnUpdateStep(s: ClipState, cb: Option<Callback>): ClipState {
    s.(callbacks := match cb case Some(c) => [c] case None => [])
  }

  function RunDeferredStep(s: ClipState): ClipState {
    if s.deferredUpdates == 0 then s else TriggerStep(s.(deferredUpdates := s.deferredUpdates - 1))
  }

  class ClipboardManager {
    var entries: seq<ClipEntry>
    var filtered: seq<ClipEntry>
    var index: nat
    var mode: Mode
    var query: string
    var isVisible: bool
    var updateCallbacks: seq<Callback>
    var notified: seq<Callback>
    var deferredUpdates: nat
    var commands: seq<string>
    var hasFocusSearch: bool
    var focusRequests: nat

    function State(): ClipState
      reads this
    {
      ClipState(entries, filtered, index, mode, query, isVisible, updateCallbacks, notified,
                deferredUpdates, commands, hasFocusSearch, focusRequests)
    }

    constructor()
      ensures State() == ClipState([], [], 0, SelectMode, "", false, [], [], 0, [], false, 0)
    {
      entries := [];
      filtered := [];
      index := 0;
      mode := SelectMode;
      query := "";
      isVisible := false;
      updateCallbacks := [];
      notified := [];
      deferredUpdates := 0;
      commands := [];
      hasFocusSearch := false;
      focusRequests := 0;
    }

    method AddUpdateCallback(cb: Callback)
      modifies this
      ensures State() == old(State()).(callbacks := old(updateCallbacks) + [cb])
    {
      updateCallbacks := updateCallbacks + [cb];
    }

    method TriggerUpdate()
      modifies this
      ensures State() == TriggerStep(old(State()))
    {
      notified := notified + updateCallbacks;
    }

    /** The `onUpdate` setter. */
    method SetOnUpdate(cb: Option<Callback>)
      modifies this
      ensures State() == SetOnUpdateStep(old(State()), cb)
    {
      if cb.Some? {
        updateCallbacks := [cb.value];
      } else {
        updateCallbacks := [];
      }
    }

    /** The view installs or removes its `focusSearch` hook. */
    method SetFocusSearch(present: bool)
      modifies this
      ensures State() == old(State()).(hasFocusSearch := present)
    {
      hasFocusSearch := present;
    }

    method Load(env: ClipEnv)
      modifies this
      ensures State() == LoadStep(old(State()), env)
    {
      entries := [];
      filtered := [];
      commands := commands + ["cliphist list"];
      if env.listOutput.None? {
        TriggerUpdate();
        return;
      }
      var lines := Lines(env.listOutput.value);
      commands := commands + DecodeCommands(lines);
      entries := ParseLines(lines, env.decoded);
      Filter();
    }

    method Filter()
      modifies this
      ensures State() == FilterStep(old(State()))
    {
      var q := ToLower(query);
      filtered := Seqs.Filter(entries, (e: ClipEntry) => Matches(e, q));
      index := Min(index, Max(0, |filtered| - 1));
      TriggerUpdate();
    }

    method ClearAll(env: ClipEnv)
      modifies this
      ensures State() == ClearAllStep(old(State()), env)
    {
      commands := commands + ["cliphist wipe"];
      if env.execOk {
        Load(env);
      }
    }

    method Select(i: int, env: ClipEnv)
      modifies this
      ensures State() == SelectStep(old(State()), i, env)
    {
      if !(0 <= i < |filtered|) {
        return;
      }
      var entry := filtered[i];
      if mode == DeleteMode {
        commands := commands + [DeleteCommand(entry.content)];
        if env.execOk {
          Load(env);
        }
      } else {
        commands := commands + [CopyCommand(entry.content)];
        Hide();
      }
    }

    method Show(env: ClipEnv)
      modifies this
      ensures State() == ShowStep(old(State()), env)
    {
      isVisible := true;
      Load(env);
    }

    method Hide()
      modifies this
      ensures State() == HideStep(old(State()))
    {
      isVisible := false;
      mode := SelectMode;
      query := "";
      index := 0;
    }

    method ToggleMode()
      modifies this
      ensures State() == ToggleStep(old(State()))
    {
      mode := if mode == SelectMode then DeleteMode else SelectMode;
      deferredUpdates := deferredUpdates + 1;
    }

    /** A deferred `triggerUpdate` fires. */
    method RunDeferredUpdate()
      modifies this
      ensures State() == RunDeferredStep(old(State()))
    {
      if deferredUpdates > 0 {
        deferredUpdates := deferredUpdates - 1;
        TriggerUpdate();
      }
    }

    method Up()
      modifies this
      ensures State() == UpStep(old(State()))
    {
      if |filtered| > 0 {
        index := Max(0, index - 1);
        TriggerUpdate();
      }
    }

    method Down()
      modifies this
      ensures State() == DownStep(old(State()))
    {
      if |filtered| > 0 {
        index := Min(|filtered| - 1, index + 1);
        TriggerUpdate();
      }
    }

    method Key(k: int, env: ClipEnv)
      modifies this
      ensures State() == KeyStep(old(State()), k, env)
    {
      if k == KeyEscape {
        Hide();
      } else if k == KeyReturn {
        Select(index, env);
      } else if k == KeyUp {
        Up();
      } else if k == KeyDown {
        Down();
      } else if k == KeyTab {
        ToggleMode();
      } else if k == KeyDeleteKey {
        if mode == SelectMode {
          mode := DeleteMode;
          deferredUpdates := deferredUpdates + 1;
        }
      } else if hasFocusSearch {
        focusRequests := focusRequests + 1;
      }
    }

    method Search(q: string)
      modifies this
      ensures State() == SearchStep(old(State()), q)
    {
      query := q;
      Filter();
    }

    method ClearSearch()
      modifies this
      ensures State() == ClearSearchStep(old(State()))
    {
      query := "";
      index := 0;
      Filter();
    }
  }

  // ---------------------------------------------------------------------------
  // Properties of the transitions
  // ---------------------------------------------------------------------------

  /**
   * Filtering keeps exactly the matching entries, in order, and clamps the index into
   * [0, max(0, n - 1)], leaving an index that is already in range alone.
   */
  lemma FilterLaws(s: ClipState)
    ensures var r := FilterStep(s);
      && (forall e :: e in r.filtered <==> e in s.entries && Includes(ToLower(e.content), ToLower(s.query)))
      && Subseq(r.filtered, s.entries)
      && r.index <= Max(0, |r.filtered| - 1)
      && (s.index < |r.filtered| ==> r.index == s.index)
      && r.entries == s.entries && r.query == s.query && r.mode == s.mode
      && r.notified == s.notified + s.callbacks
  {
  }

  /** An empty query shows every entry. */
  lemma EmptyQueryShowsAll(s: ClipState)
    requires s.query == ""
    ensures FilterStep(s).filtered == s.entries
  {
    forall i | 0 <= i < |s.entries| ensures Matches(s.entries[i], ToLower(s.query)) {
      assert ToLower(s.entries[i].content)[..0] == ToLower(s.query);
    }
    FilterAll(s.entries, (e: ClipEntry) => Matches(e, ToLower(s.query)));
  }

  /** A successful load holds one entry per kept line, each parsed from that line, then filters. */
  lemma LoadLaws(s: ClipState, env: ClipEnv)
    ensures var r := LoadStep(s, env);
      && (env.listOutput.None? ==> r.entries == [] && r.filtered == [] && r.index == s.index)
      && (env.listOutput.Some? ==>
            var lines := Lines(env.listOutput.value);
            |r.entries| == |lines| && (forall i :: 0 <= i < |lines| ==> r.entries[i] == ParseLine(lines[i], env.decoded))
            && Subseq(r.filtered, r.entries) && r.index <= Max(0, |r.filtered| - 1))
      && r.commands[..|s.commands| + 1] == s.commands + ["cliphist list"]
  {
  }

  /** Up and down move by one without wrapping, stay inside the list, and do nothing on an empty list. */
  lemma UpDownLaws(s: ClipState)
    ensures |s.filtered| == 0 ==> UpStep(s) == s && DownStep(s) == s
    ensures s.index < |s.filtered| ==>
      && UpStep(s).index == (if s.index == 0 then 0 else s.index - 1)
      && DownStep(s).index == (if s.index == |s.filtered| - 1 then s.index else s.index + 1)
      && UpStep(s).index < |s.filtered| && DownStep(s).index < |s.filtered|
    ensures UpStep(s).filtered == s.filtered && DownStep(s).filtered == s.filtered
  {
  }

  /** The selection points at an entry whenever there is one to point at. */
  predicate IndexInRange(s: ClipState) {
    |s.filtered| > 0 ==> s.index < |s.filtered|
  }

  /** Filtering, and so loading, clamps the index into the new list whatever it was before. */
  lemma FilterLoadEndInRange(s: ClipState, env: ClipEnv)
    ensures IndexInRange(FilterStep(s)) && IndexInRange(LoadStep(s, env))
  {
    var s0 := s.(entries := [], filtered := [], commands := s.commands + ["cliphist list"]);
    if env.listOutput.Some? {
      var lines := Lines(env.listOutput.value);
      var s1 := s0.(entries := ParseLines(lines, env.decoded), commands := s0.commands + DecodeCommands(lines));
      assert LoadStep(s, env) == FilterStep(s1);
    }
  }

  /** Selecting keeps the index in range: it changes nothing, reloads, or hides at the top. */
  lemma SelectKeepsIndexInRange(s: ClipState, i: int, env: ClipEnv)
    requires IndexInRange(s)
    ensures IndexInRange(SelectStep(s, i, env)) && IndexInRange(ClearAllStep(s, env))
  {
    if 0 <= i < |s.filtered| && s.mode == DeleteMode {
      FilterLoadEndInRange(s.(commands := s.commands + [DeleteCommand(s.filtered[i].content)]), env);
    }
    FilterLoadEndInRange(s.(commands := s.commands + ["cliphist wipe"]), env);
  }

  /**
   * A fresh manager satisfies `IndexInRange` and every operation keeps it, so the
   * in-range premise of `UpDownLaws` holds in every state the manager reaches.
   */
  lemma StepsKeepIndexInRange(s: ClipState, env: ClipEnv, i: int, k: int, q: string, cb: Option<Callback>, c: Callback, present: bool)
    requires IndexInRange(s)
    ensures IndexInRange(ClipState([], [], 0, SelectMode, "", false, [], [], 0, [], false, 0))
    ensures IndexInRange(TriggerStep(s)) && IndexInRange(FilterStep(s)) && IndexInRange(LoadStep(s, env))
    ensures IndexInRange(HideStep(s)) && IndexInRange(ShowStep(s, env)) && IndexInRange(SelectStep(s, i, env))
    ensures IndexInRange(ClearAllStep(s, env)) && IndexInRange(ToggleStep(s)) && IndexInRange(UpStep(s))
    ensures IndexInRange(DownStep(s)) && IndexInRange(KeyStep(s, k, env)) && IndexInRange(SearchStep(s, q))
    ensures IndexInRange(ClearSearchStep(s)) && IndexInRange(SetOnUpdateStep(s, cb)) && IndexInRange(RunDeferredStep(s))
    ensures IndexInRange(s.(callbacks := s.callbacks + [c])) && IndexInRange(s.(hasFocusSearch := present))
  {
    FilterLoadEndInRange(s, env);
    FilterLoadEndInRange(s.(isVisible := true), env);
    FilterLoadEndInRange(s.(query := q), env);
    FilterLoadEndInRange(s.(query := "", index := 0), env);
    SelectKeepsIndexInRange(s, i, env);
    KeyKeepsIndexInRange(s, k, env);
  }

  /** Every key keeps the index in range. */
  lemma KeyKeepsIndexInRange(s: ClipState, k: int, env: ClipEnv)
    requires IndexInRange(s)
    ensures IndexInRange(KeyStep(s, k, env))
  {
    if k == KeyReturn {
      SelectKeepsIndexInRange(s, s.index, env);
    }
  }

  /** Hiding returns to an invisible, unfiltered, select-mode view at the top; clearing the search also goes to the top. */
  lemma HideAndClearLaws(s: ClipState)
    ensures var h := HideStep(s);
      && !h.isVisible && h.mode == SelectMode && h.query == "" && h.index == 0
      && h.entries == s.entries && h.filtered == s.filtered
    ensures var c := ClearSearchStep(s);
      c.query == "" && c.index == 0 && c.filtered == c.entries
  {
    EmptyQueryShowsAll(s.(query := "", index := 0));
  }

  /** Tab toggles the mode, so twice gives it back; the delete key only ever switches select to delete. */
  lemma ModeKeys(s: ClipState, env: ClipEnv)
    ensures KeyStep(s, KeyTab, env).mode != s.mode
    ensures KeyStep(KeyStep(s, KeyTab, env), KeyTab, env).mode == s.mode
    ensures KeyStep(s, KeyDeleteKey, env).mode == DeleteMode
    ensures s.mode == DeleteMode ==> KeyStep(s, KeyDeleteKey, env) == s
  {
  }

  /** Selecting where there is no entry does nothing. */
  lemma SelectOutOfRange(s: ClipState, i: int, env: ClipEnv)
    requires i < 0 || i >= |s.filtered|
    ensures SelectStep(s, i, env) == s
  {
  }

  /** In select mode an entry is copied and the view hidden; in delete mode it is deleted and, on success, the list reloaded. */
  lemma SelectLaws(s: ClipState, i: int, env: ClipEnv)
    requires 0 <= i < |s.filtered|
    ensures s.mode == SelectMode ==>
      SelectStep(s, i, env) == HideStep(s).(commands := s.commands + [CopyCommand(s.filtered[i].content)])
    ensures s.mode == DeleteMode ==>
      SelectStep(s, i, env).commands[..|s.commands| + 1] == s.commands + [DeleteCommand(s.filtered[i].content)]
  {
  }

  /** After setting `onUpdate`, a notification calls exactly that callback, or none. */
  lemma OnUpdateReplaces(s: ClipState, cb: Option<Callback>)
    ensures TriggerStep(SetOnUpdateStep(s, cb)).notified == s.notified + (if cb.Some? then [cb.value] else [])
  {
  }
}
