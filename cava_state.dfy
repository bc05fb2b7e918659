/**
 * The audio visualiser's state buffers: the particles of the particle style, the
 * frame history of the waterfall style and the per-bar heights and velocities of the
 * jumping-bars style. Numbers are reals; the frame time and the values of a frame come
 * from the caller.
 */
module CavaState {
  import opened Seqs

  const MaxParticles: nat := 200
  const MaxHistoryFrames: nat := 30
  const MaxBars: nat := 100
  const TransitionAlpha: real := 0.3

  datatype Particle = Particle(x: real, y: real, velocity: real, life: real)

  // ---------------------------------------------------------------------------
  // Particles
  // ---------------------------------------------------------------------------

  /** `particle.life -= deltaTime`. */
  function Age(p: Particle, dt: real): Particle {
    p.(life := p.life - dt)
  }

  /** Every particle aged by `dt`. */
  function Decayed(ps: seq<Particle>, dt: real): (r: seq<Particle>)
    ensures |r| == |ps|
    ensures forall k :: 0 <= k < |ps| ==> r[k] == Age(ps[k], dt)
  {
    if ps == [] then [] else [Age(ps[0], dt)] + Decayed(ps[1..], dt)
  }

  predicate Alive(p: Particle) {
    p.life > 0.0
  }

  /** What `updateParticles` leaves, read off its loop: the survivors of all but the last particle, then the last one aged if it lives. */
  function Survivors(ps: seq<Particle>, dt: real): seq<Particle>
    decreases |ps|
  {
    if ps == [] then []
    else
      var q := Age(ps[|ps| - 1], dt);
      Survivors(ps[..|ps| - 1], dt) + (if Alive(q) then [q] else [])
  }

  /** The same, read as `filter`: the aged particles that still have life. */
  function Kept(ps: seq<Particle>, dt: real): seq<Particle> {
    Filter(Decayed(ps, dt), Alive)
  }

  /** The loop's reading and the `filter` reading agree. */
  lemma {:induction false} SurvivorsAreKept(ps: seq<Particle>, dt: real)
    ensures Survivors(ps, dt) == Kept(ps, dt)
    decreases |ps|
  {
    if ps != [] {
      var init := ps[..|ps| - 1];
      var q := Age(ps[|ps| - 1], dt);
      SurvivorsAreKept(init, dt);
      assert Decayed(ps, dt) == Decayed(init, dt) + [q];
      FilterSnoc(Decayed(init, dt), q, Alive);
    }
  }

  /**
   * The survivors are the aged particles with positive life, each once for every
   * occurrence, in their original order and never more of them than before.
   */
  lemma SurvivorsLaws(ps: seq<Particle>, dt: real)
    ensures var r := Survivors(ps, dt);
      && |r| <= |ps|
      && (forall k :: 0 <= k < |r| ==> r[k].life > 0.0)
      && Subseq(r, Decayed(ps, dt))
      && (forall k :: 0 <= k < |ps| && ps[k].life - dt > 0.0 ==> Age(ps[k], dt) in r)
      && (forall p :: p in r ==> exists k :: 0 <= k < |ps| && p == Age(ps[k], dt))
  {
    SurvivorsAreKept(ps, dt);
    FilterSubseq(Decayed(ps, dt), Alive);
    var d := Decayed(ps, dt);
    forall k | 0 <= k < |ps| && ps[k].life - dt > 0.0
      ensures Age(ps[k], dt) in Kept(ps, dt)
    {
      assert d[k] in d;
    }
  }

  /** Unfolding `Kept` at the first particle. */
  lemma KeptCons(p: Particle, ps: seq<Particle>, dt: real)
    ensures var q := Age(p, dt);
      Kept([p] + ps, dt) == (if Alive(q) then [q] else []) + Kept(ps, dt)
  {
    var q := Age(p, dt);
    assert ([p] + ps)[1..] == ps;
    assert Decayed([p] + ps, dt) == [q] + Decayed(ps, dt);
    FilterConcat([q], Decayed(ps, dt), Alive);
  }

  lemma {:induction false} KeptCompose(ps: seq<Particle>, a: real, b: real)
    requires b >= 0.0
    ensures Kept(Kept(ps, a), b) == Kept(ps, a + b)
    decreases |ps|
  {
    if ps != [] {
      var p := ps[0];
      var tail := ps[1..];
      assert ps == [p] + tail;
      var q := Age(p, a);
      var qb := Age(p, (a + b));
      KeptCompose(tail, a, b);
      KeptCons(p, tail, a);
      KeptCons(p, tail, a + b);
      if Alive(q) {
        assert Age(q, b) == qb;
        assert Kept(ps, a) == [q] + Kept(tail, a);
        KeptCons(q, Kept(tail, a), b);
        assert Kept(Kept(ps, a), b) == (if Alive(qb) then [qb] else []) + Kept(Kept(tail, a), b);
      } else {
        assert !Alive(qb);
        assert Kept(ps, a) == Kept(tail, a);
        assert Kept(ps, a + b) == Kept(tail, a + b);
      }
    }
  }

  /** Two updates, the second by a non-negative time, are one update by the sum. */
  lemma SurvivorsCompose(ps: seq<Particle>, a: real, b: real)
    requires b >= 0.0
    ensures Survivors(Survivors(ps, a), b) == Survivors(ps, a + b)
  {
    calc {
      Survivors(Survivors(ps, a), b);
      == { SurvivorsAreKept(Survivors(ps, a), b); }
      Kept(Survivors(ps, a), b);
      == { SurvivorsAreKept(ps, a); }
      Kept(Kept(ps, a), b);
      == { KeptCompose(ps, a, b); }
      Kept(ps, a + b);
      == { SurvivorsAreKept(ps, a + b); }
      Survivors(ps, a + b);
    }
  }

  /** One round of the loop in `UpdateParticles` keeps its invariant. */
  lemma CompactRound(before: seq<Particle>, orig: seq<Particle>, dt: real, w0: nat, r: nat, after: seq<Particle>, w1: nat)
    requires w0 <= r < |before| == |orig|
    requires before[..w0] == Survivors(orig[..r], dt)
    requires before[r..] == orig[r..]
    requires var x := before[r].(life := before[r].life - dt);
      && after == (if Alive(x) && w0 != r then before[r := x][w0 := x] else before[r := x])
      && w1 == (if Alive(x) then w0 + 1 else w0)
    ensures w1 <= r + 1 <= |after| == |orig|
    ensures after[..w1] == Survivors(orig[..r + 1], dt)
    ensures after[r + 1..] == orig[r + 1..]
  {
    var x := before[r].(life := before[r].life - dt);
    assert before[r] == orig[r] by {
      assert before[r] == before[r..][0];
    }
    assert orig[..r + 1][..r] == orig[..r];
    var c1 := before[r := x];
    assert c1[r + 1..] == before[r..][1..];
  }

  class ParticleState {
    var particles: seq<Particle>
    var lastUpdate: real
    const maxParticles: nat

    /** `createParticleState()`. */
    constructor()
      ensures particles == [] && lastUpdate == 0.0 && maxParticles == MaxParticles
    {
      particles := [];
      lastUpdate := 0.0;
      maxParticles := MaxParticles;
    }

    /** `clearParticleState`. */
    method Clear()
      modifies this
      ensures particles == [] && lastUpdate == 0.0
    {
      particles := particles[..0];
      lastUpdate := 0.0;
    }

    /**
     * `updateParticles`: age each particle and compact the living ones to the front
     * with a read and a write index, then cut the array at the write index.
     */
    method UpdateParticles(deltaTime: real)
      modifies this
      ensures particles == Survivors(old(particles), deltaTime)
      ensures lastUpdate == old(lastUpdate)
    {
      ghost var orig := particles;
      var writeIndex := 0;
      var readIndex := 0;
      while readIndex < |particles|
        invariant 0 <= writeIndex <= readIndex <= |particles| == |orig|
        invariant particles[..writeIndex] == Survivors(orig[..readIndex], deltaTime)
        invariant particles[readIndex..] == orig[readIndex..]
        invariant lastUpdate == old(lastUpdate)
      {
        ghost var before := particles;
        ghost var w0 := writeIndex;
        var particle := particles[readIndex];
        particle := particle.(life := particle.life - deltaTime);
        particles := particles[readIndex := particle];
        if particle.life > 0.0 {
          if writeIndex != readIndex {
            particles := particles[writeIndex := particle];
          }
          writeIndex := writeIndex + 1;
        }
        CompactRound(before, orig, deltaTime, w0, readIndex, particles, writeIndex);
        readIndex := readIndex + 1;
      }
      assert orig[..readIndex] == orig;
      particles := particles[..writeIndex];
    }
  }

  // ---------------------------------------------------------------------------
  // Waterfall history
  // ---------------------------------------------------------------------------

  /** `unshift` the frame, then `pop` once if the history is over its cap. */
  function PushFrame(history: seq<seq<real>>, frame: seq<real>, max: nat): seq<seq<real>> {
    var h := [frame] + history;
    if |h| > max then h[..|h| - 1] else h
  }

  /**
   * Within the cap, the new frame goes in front, every older frame moves back by one
   * and the oldest is dropped once the cap is reached.
   */
  lemma PushFrameLaws(history: seq<seq<real>>, frame: seq<real>, max: nat)
    requires |history| <= max
    ensures var r := PushFrame(history, frame, max);
      && |r| == Min(|history| + 1, max)
      && (max > 0 ==> r[0] == frame)
      && (forall k :: 1 <= k < |r| ==> r[k] == history[k - 1])
      && r == ([frame] + history)[..Min(|history| + 1, max)]
  {
  }

  function Reverse<T>(s: seq<T>): (r: seq<T>)
    ensures |r| == |s|
    ensures forall k :: 0 <= k < |s| ==> r[k] == s[|s| - 1 - k]
  {
    if s == [] then [] else Reverse(s[1..]) + [s[0]]
  }

  /** Adding several frames in order, one call each. */
  function PushFrames(history: seq<seq<real>>, frames: seq<seq<real>>, max: nat): seq<seq<real>>
    decreases |frames|
  {
    if frames == [] then history else PushFrames(PushFrame(history, frames[0], max), frames[1..], max)
  }

  /** Cutting the tail short before a prefix that does not reach the cut changes nothing. */
  lemma PrefixOfCut<T>(a: seq<T>, b: seq<T>, m: nat, n: nat)
    requires m <= |b| && n <= |a| + m
    ensures (a + b[..m])[..n] == (a + b)[..n]
  {
    assert forall k :: 0 <= k < n ==> (a + b[..m])[k] == (a + b)[k];
  }

  /** The history holds the most recent frames, newest first, up to the cap. */
  lemma {:induction false} HistoryIsRecentFrames(history: seq<seq<real>>, frames: seq<seq<real>>, max: nat)
    requires |history| <= max
    ensures PushFrames(history, frames, max) == (Reverse(frames) + history)[..Min(|frames| + |history|, max)]
    decreases |frames|
  {
    if frames == [] {
      assert Reverse(frames) + history == history;
    } else {
      var f := frames[0];
      var h1 := PushFrame(history, f, max);
      var m1 := Min(|history| + 1, max);
      PushFrameLaws(history, f, max);
      HistoryIsRecentFrames(h1, frames[1..], max);
      var rest := Reverse(frames[1..]);
      assert Reverse(frames) == rest + [f];
      var n := Min(|frames[1..]| + m1, max);
      assert n == Min(|frames| + |history|, max);
      PrefixOfCut(rest, [f] + history, m1, n);
      assert rest + ([f] + history) == Reverse(frames) + history;
    }
  }

  class WaterfallState {
    var historyFrames: seq<seq<real>>
    const maxHistoryFrames: nat
    const transitionAlpha: real

    /** `createWaterfallState()`. */
    constructor()
      ensures historyFrames == [] && maxHistoryFrames == MaxHistoryFrames && transitionAlpha == TransitionAlpha
    {
      historyFrames := [];
      maxHistoryFrames := MaxHistoryFrames;
      transitionAlpha := TransitionAlpha;
    }

    /** `clearWaterfallState`. */
    method Clear()
      modifies this
      ensures historyFrames == []
    {
      historyFrames := historyFrames[..0];
    }

    /** `addWaterfallFrame`: copy the values element by element, put the copy in front, drop the oldest when over the cap. */
    method AddWaterfallFrame(values: seq<real>)
      modifies this
      ensures historyFrames == PushFrame(old(historyFrames), values, maxHistoryFrames)
    {
      var frame := new real[|values|];
      for i := 0 to |values|
        invariant frame[..i] == values[..i]
        invariant historyFrames == old(historyFrames)
      {
        frame[i] := values[i];
      }
      assert frame[..] == values;
      historyFrames := [frame[..]] + historyFrames;
      if |historyFrames| > maxHistoryFrames {
        historyFrames := historyFrames[..|historyFrames| - 1];
      }
    }
  }

  // ---------------------------------------------------------------------------
  // Jumping bars
  // ---------------------------------------------------------------------------

  function Zeros(n: nat): (r: seq<real>)
    ensures |r| == n && forall k :: 0 <= k < n ==> r[k] == 0.0
  {
    seq(n, _ => 0.0)
  }

  /** `ensureBarArrays` on one array: grow with zeros up to `bars` but not past the cap, or cut down to `bars`. */
  function Resized(s: seq<real>, bars: nat): seq<real> {
    if |s| < bars then s + Zeros(Max(0, Min(bars, MaxBars) - |s|))
    else if |s| > bars then s[..bars]
    else s
  }

  /**
   * Growing keeps the values there and appends zeros up to `min(bars, maxBars)`;
   * shrinking cuts to exactly `bars`; an array within the cap stays within it.
   */
  lemma ResizedLaws(s: seq<real>, bars: nat)
    ensures var r := Resized(s, bars);
      && (|s| < bars ==> |r| == Max(|s|, Min(bars, MaxBars)) && r[..|s|] == s && forall k :: |s| <= k < |r| ==> r[k] == 0.0)
      && (|s| >= bars ==> r == s[..bars])
      && (|s| <= MaxBars ==> |r| <= MaxBars)
      && (bars <= MaxBars ==> |r| == bars)
  {
  }

  /** Asking again for the same number of bars changes nothing. */
  lemma ResizedIdempotent(s: seq<real>, bars: nat)
    ensures Resized(Resized(s, bars), bars) == Resized(s, bars)
  {
    var r := Resized(s, bars);
    ResizedLaws(s, bars);
    if |s| >= bars {
      assert |r| == bars;
    }
  }

  class JumpingBarsState {
    var barHeights: seq<real>
    var barVelocities: seq<real>
    var lastUpdate: real
    const maxBars: nat

    /** Heights and velocities are kept in step, one of each per bar. */
    predicate Valid()
      reads this
    {
      |barHeights| == |barVelocities| && maxBars == MaxBars
    }

    /** `createJumpingBarsState()`. */
    constructor()
      ensures Valid() && barHeights == [] && barVelocities == [] && lastUpdate == 0.0
    {
      barHeights := [];
      barVelocities := [];
      lastUpdate := 0.0;
      maxBars := MaxBars;
    }

    /** `clearJumpingBarsState`. */
    method Clear()
      requires Valid()
      modifies this
      ensures Valid() && barHeights == [] && barVelocities == [] && lastUpdate == 0.0
    {
      barHeights := barHeights[..0];
      barVelocities := barVelocities[..0];
      lastUpdate := 0.0;
    }

    /** `ensureBarArrays`: push zero pairs while below `bars` and the cap, or truncate both to `bars`. */
    method EnsureBarArrays(bars: nat)
      requires Valid()
      modifies this
      ensures Valid()
      ensures barHeights == Resized(old(barHeights), bars) && barVelocities == Resized(old(barVelocities), bars)
      ensures lastUpdate == old(lastUpdate)
    {
      var currentLength := |barHeights|;
      if currentLength < bars {
        var i := currentLength;
        while i < bars && i < maxBars
          invariant currentLength <= i <= Max(currentLength, Min(bars, MaxBars))
          invariant barHeights == old(barHeights) + Zeros(i - currentLength)
          invariant barVelocities == old(barVelocities) + Zeros(i - currentLength)
          invariant lastUpdate == old(lastUpdate) && maxBars == MaxBars
        {
          assert Zeros(i - currentLength) + [0.0] == Zeros(i + 1 - currentLength);
          barHeights := barHeights + [0.0];
          barVelocities := barVelocities + [0.0];
          i := i + 1;
        }
      } else if currentLength > bars {
        barHeights := barHeights[..bars];
        barVelocities := barVelocities[..bars];
      }
    }
  }
}
