/**
 * Choosing and describing media players: the player the music widgets follow, the
 * play/pause icon, `m:ss` track lengths, and the players worth showing. A players
 * array may hold null entries (`None`), and a player's title and artist may be missing.
 * A value that is not an array at all is `None` where the source checks for it.
 */
module Mpris {
  import opened Wrappers
  import opened JsStrings
  import opened Seqs

  /** `AstalMpris.PlaybackStatus`; `Playing` is the enumeration's value 0, hence falsy. */
  datatype PlaybackStatus = Playing | Paused | Stopped

  datatype Player = Player(busName: string, title: Option<string>, artist: Option<string>, status: PlaybackStatus)

  /** One entry of a players array, possibly null. */
  type Slot = Option<Player>

  /** A string property is truthy when it is present and not empty. */
  predicate Truthy(s: Option<string>) {
    s.Some? && s.value != ""
  }

  predicate IsPlaying(slot: Slot) {
    slot.Some? && slot.value.status == Playing
  }

  /** The "working" test of `findPlayer`: a title that is neither null nor undefined (it may be empty). */
  predicate HasTitle(slot: Slot) {
    slot.Some? && slot.value.title.Some?
  }

  /** `findPlayer(players)`: a player from the array, found only when one plays or has a title. */
  function FindPlayer(players: Option<seq<Slot>>): (r: Slot)
    ensures r.Some? <==> players.Some? && exists i :: 0 <= i < |players.value| && (IsPlaying(players.value[i]) || HasTitle(players.value[i]))
    ensures r.Some? ==> r in players.value
  {
    if players.None? || players.value == [] then None
    else
      var ps := players.value;
      var i := IndexWhere(ps, IsPlaying);
      if i >= 0 then ps[i]
      else
        var j := IndexWhere(ps, HasTitle);
        if j >= 0 then ps[j] else None
  }

  /** The first playing player wins, wherever the titled ones are. */
  lemma FindPlayerPrefersPlaying(ps: seq<Slot>, i: nat)
    requires i < |ps| && IsPlaying(ps[i]) && forall j :: 0 <= j < i ==> !IsPlaying(ps[j])
    ensures FindPlayer(Some(ps)) == ps[i]
  {
    assert IndexWhere(ps, IsPlaying) == i;
  }

  /** With nothing playing, the first player with a title is chosen. */
  lemma FindPlayerFallsBackToTitled(ps: seq<Slot>, i: nat)
    requires forall j :: 0 <= j < |ps| ==> !IsPlaying(ps[j])
    requires i < |ps| && HasTitle(ps[i]) && forall j :: 0 <= j < i ==> !HasTitle(ps[j])
    ensures FindPlayer(Some(ps)) == ps[i]
  {
    assert IndexWhere(ps, IsPlaying) == -1;
    assert IndexWhere(ps, HasTitle) == i;
  }

  const PauseIcon := "media-playback-pause-symbolic"
  const StartIcon := "media-playback-start-symbolic"

  /** `mprisStateIcon(status)`: the button offers to pause exactly while the player plays. */
  function StateIcon(status: PlaybackStatus): (icon: string)
    ensures icon == PauseIcon <==> status == Playing
    ensures icon == PauseIcon || icon == StartIcon
  {
    if status == Playing then PauseIcon else StartIcon
  }

  /** A JavaScript value as `lengthStr` sees it: a finite number, or NaN, an infinity or a non-number. */
  datatype Length = Finite(x: real) | NotFinite

  /** `Math.floor(x / 60)` for a non-negative `x`. */
  function WholeMinutes(x: real): (q: nat)
    requires x >= 0.0
    ensures 60.0 * q as real <= x < 60.0 * (q + 1) as real
  {
    (x / 60.0).Floor
  }

  /** `Math.floor(x % 60)` for a non-negative `x`: the whole seconds past the last full minute. */
  function SecondsInMinute(x: real): (sec: nat)
    requires x >= 0.0
    ensures sec < 60 && x.Floor == 60 * WholeMinutes(x) + sec
  {
    var rem := x - 60.0 * WholeMinutes(x) as real;
    assert (60 * WholeMinutes(x) + rem.Floor) as real <= x < (60 * WholeMinutes(x) + rem.Floor + 1) as real;
    rem.Floor
  }

  /** `lengthStr(length)`: whole minutes, a colon, and the whole seconds within the minute padded to two digits. */
  function LengthStr(length: Length): (r: string)
    ensures length.NotFinite? || length.x < 0.0 ==> r == "0:00"
  {
    if length.NotFinite? || length.x < 0.0 then "0:00"
    else NatToString(WholeMinutes(length.x)) + ":" + PadStart2(NatToString(SecondsInMinute(length.x)))
  }

  /** A non-negative length splits into minutes and two-digit seconds that add up to its whole seconds. */
  lemma LengthStrFields(x: real)
    requires x >= 0.0
    ensures var parts := Split(LengthStr(Finite(x)), ':');
      && |parts| == 2 && |parts[1]| == 2 && AllDigits(parts[0]) && AllDigits(parts[1])
      && ParseDigits(parts[1]) < 60
      && ParseDigits(parts[0]) * 60 + ParseDigits(parts[1]) == x.Floor
  {
    MinutesFields(WholeMinutes(x), SecondsInMinute(x));
  }

  /** The string part of `lengthStr`: minutes and two-digit seconds read back as `60 · q + sec`. */
  lemma MinutesFields(q: nat, sec: nat)
    requires sec < 60
    ensures var parts := Split(NatToString(q) + ":" + PadStart2(NatToString(sec)), ':');
      && |parts| == 2 && |parts[1]| == 2 && AllDigits(parts[0]) && AllDigits(parts[1])
      && ParseDigits(parts[1]) == sec
      && ParseDigits(parts[0]) * 60 + ParseDigits(parts[1]) == 60 * q + sec
  {
    SplitColonField(q, sec);
    TwoDigitField(sec);
    ParseNatToString(q);
  }

  /**
   * The callback of `filterActivePlayers`, branch by branch. A status counts as set
   * (truthy) unless it is `Playing`, the enumeration's 0; a set status must be
   * playing or paused, an unset one passes.
   */
  predicate KeepPlayer(slot: Slot) {
    if slot.None? then false
    else if !Truthy(slot.value.title) && !Truthy(slot.value.artist) then false
    else if slot.value.status != Playing then slot.value.status == Playing || slot.value.status == Paused
    else true
  }

  /** A usable player: present, named by a title or an artist, and playing or paused. */
  predicate Active(slot: Slot) {
    && slot.Some?
    && (Truthy(slot.value.title) || Truthy(slot.value.artist))
    && (slot.value.status == Playing || slot.value.status == Paused)
  }

  /** `filterActivePlayers(players)`: the usable players, in their order. */
  function FilterActivePlayers(players: Option<seq<Slot>>): (r: seq<Slot>)
    ensures players.None? ==> r == []
    ensures players.Some? ==> Subseq(r, players.value)
    ensures forall k :: 0 <= k < |r| ==> Active(r[k])
    ensures players.Some? ==> forall slot :: slot in players.value && Active(slot) ==> slot in r
  {
    if players.None? then []
    else
      FilterSubseq(players.value, KeepPlayer);
      Filter(players.value, KeepPlayer)
  }

  /** The derivation `hasActivePlayers`. */
  function HasActivePlayers(players: Option<seq<Slot>>): (r: bool)
    ensures r <==> players.Some? && exists i :: 0 <= i < |players.value| && Active(players.value[i])
  {
    if players.Some? then
      FilterEmpty(players.value, KeepPlayer);
      |FilterActivePlayers(players)| > 0
    else false
  }

  /** The derivation `firstActivePlayer`: the head of the filtered list, or null. */
  function FirstActivePlayer(players: Option<seq<Slot>>): (r: Slot)
    ensures r.Some? <==> HasActivePlayers(players)
    ensures r.Some? ==> Active(r) && r in players.value
  {
    var active := FilterActivePlayers(players);
    if |active| > 0 then active[0] else None
  }

  /** `firstActivePlayer` is the first usable player of the array. */
  lemma FirstActiveIsFirst(ps: seq<Slot>, i: nat)
    requires i < |ps| && Active(ps[i]) && forall j :: 0 <= j < i ==> !Active(ps[j])
    ensures FirstActivePlayer(Some(ps)) == ps[i]
  {
    FilterHead(ps, KeepPlayer, i);
  }
}
