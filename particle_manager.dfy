/**
 * The particle pool (src/particle_manager.rs): a bounded vector of
 * particles, each with a lifetime, a tick counter and a short tail of past
 * positions. Every frame each particle ticks, and the dead ones are removed
 * by swapping them with the last element and popping.
 *
 * Randomness (jitter, diameter roll, colour, spawn coordinates) and the
 * flux-field step are parameters: each tick that extends a tail is handed
 * the new tail position.
 */
module Particles {
  import opened Vectors
  import opened Bounds

  const MAX_PARTICLES: nat := 1000
  const MAX_PARTICLE_TAIL_COUNT: nat := 9
  /** `(3.0 * 60.) as u32`: three seconds at 60 frames per second. */
  const PARTICLE_LIFETIME: nat := 180

  datatype Particle = Particle(isAlive: bool, jitter: real, diameter: nat, color: bv32,
                               positions: seq<Vector2>, lifetime: nat,
                               updateInterval: nat, intervalCount: nat)
  {
    /**
     * What a particle keeps between ticks: a live particle has time left,
     * the tail holds between 1 and `MAX_PARTICLE_TAIL_COUNT - 1` positions,
     * and the tick counter never passes the interval.
     */
    predicate WellFormed() {
      && (isAlive ==> 1 <= lifetime)
      && 1 <= |positions| < MAX_PARTICLE_TAIL_COUNT
      && intervalCount <= updateInterval
    }

    /**
     * `Particle::update` for one frame. A dead particle is left alone. A live
     * one loses a unit of lifetime and dies when none is left; otherwise its
     * counter advances, and when the counter wraps to 0 the tail grows by
     * `next`, dropping its oldest position once it reaches
     * `MAX_PARTICLE_TAIL_COUNT`. The `u32` decrement would fail on a live
     * particle with no lifetime left.
     */
    function Update(next: Vector2): (p: Particle)
      requires isAlive ==> 1 <= lifetime
      ensures !isAlive ==> p == this
      ensures isAlive ==> p.lifetime + 1 == lifetime && (p.isAlive <==> p.lifetime != 0)
      ensures p.isAlive ==> 1 <= p.lifetime
      ensures p.jitter == jitter && p.diameter == diameter && p.color == color && p.updateInterval == updateInterval
      ensures p.positions != positions ==>
                p.intervalCount == 0 && p.positions == TailAfterPush(positions, next)
      ensures p.isAlive && intervalCount == updateInterval && positions != [] ==>
                p.intervalCount == 0 && p.positions == TailAfterPush(positions, next)
      ensures p.isAlive && intervalCount < updateInterval ==>
                p.intervalCount == intervalCount + 1 && p.positions == positions
      ensures WellFormed() ==> p.WellFormed()
    {
      if !isAlive then this
      else if lifetime - 1 == 0 then this.(lifetime := 0, isAlive := false)
      else if intervalCount < updateInterval then
        this.(lifetime := lifetime - 1, intervalCount := intervalCount + 1)
      else if positions == [] then
        this.(lifetime := lifetime - 1, intervalCount := 0)
      else
        this.(lifetime := lifetime - 1, intervalCount := 0, positions := TailAfterPush(positions, next))
    }
  }

  /** The tail after `push_back(next)` and the `pop_front` that keeps it short. */
  function TailAfterPush(positions: seq<Vector2>, next: Vector2): (tail: seq<Vector2>)
    ensures 0 < |tail|
    ensures tail[|tail| - 1] == next
    ensures |positions| + 1 < MAX_PARTICLE_TAIL_COUNT ==> tail == positions + [next]
    ensures |positions| + 1 >= MAX_PARTICLE_TAIL_COUNT ==> tail == positions[1..] + [next]
    ensures 1 <= |positions| < MAX_PARTICLE_TAIL_COUNT ==> 2 <= |tail| < MAX_PARTICLE_TAIL_COUNT
  {
    var pushed := positions + [next];
    if |pushed| >= MAX_PARTICLE_TAIL_COUNT then pushed[1..] else pushed
  }

  /**
   * `Particle::new(x, y, lifetime)`, with the random jitter, the diameter
   * roll and the colour given: a live particle whose tail is its one
   * starting position. The diameter is `1 + roll % 3`.
   */
  function NewParticle(x: real, y: real, lifetime: nat, jitter: real, roll: nat, color: bv32): (p: Particle)
    ensures p.isAlive && p.positions == [Vector2(x, y)] && p.lifetime == lifetime
    ensures 1 <= p.diameter <= 3
    ensures p.intervalCount == 0 && p.updateInterval == 2
    ensures 1 <= lifetime ==> p.WellFormed()
  {
    Particle(true, jitter, 1 + roll % 3, color, [Vector2(x, y)], lifetime, 2, 0)
  }

  /** The random draws `generate_box_of_particles` makes for one particle. */
  datatype ParticleSeed = ParticleSeed(x: real, y: real, jitter: real, roll: nat, color: bv32)

  /** Every particle of `ps` ticked once, the `i`-th with tail position `nexts[i]`. */
  function Ticked(ps: seq<Particle>, nexts: seq<Vector2>): (r: seq<Particle>)
    requires |nexts| == |ps|
    requires forall i :: 0 <= i < |ps| ==> (ps[i].isAlive ==> 1 <= ps[i].lifetime)
    ensures |r| == |ps|
    ensures forall i :: 0 <= i < |ps| ==> (r[i].isAlive <==> ps[i].isAlive && 1 < ps[i].lifetime)
    ensures forall i :: 0 <= i < |ps| ==> r[i].lifetime == if ps[i].isAlive then ps[i].lifetime - 1 else ps[i].lifetime
  {
    seq(|ps|, i requires 0 <= i < |ps| => ps[i].Update(nexts[i]))
  }

  /**
   * `after` holds exactly the live particles of `before`, each as many
   * times as there, in any order: what the removal loop leaves.
   */
  ghost predicate LiveSurvivors(before: seq<Particle>, after: seq<Particle>) {
    forall p: Particle :: multiset(after)[p] == if p.isAlive then multiset(before)[p] else 0
  }

  /** Swapping the particle at `idx` with the last one and popping removes exactly that particle. */
  lemma SwapRemoveMultiset(ps: seq<Particle>, idx: int, swapped: seq<Particle>)
    requires 0 <= idx < |ps|
    requires swapped == ps[idx := ps[|ps| - 1]][..|ps| - 1]
    ensures multiset(swapped) == multiset(ps) - multiset{ps[idx]}
  {
    var last := |ps| - 1;
    var updated := ps[idx := ps[last]];
    assert updated == swapped + [ps[last]];
    var removed := multiset(ps) - multiset{ps[idx]};
    assert multiset(updated) == multiset(swapped) + multiset{ps[last]};
    assert multiset(updated) == removed + multiset{ps[last]};
    forall p
      ensures multiset(swapped)[p] == removed[p]
    {
      assert multiset(updated)[p] == multiset(swapped)[p] + multiset{ps[last]}[p];
      assert multiset(updated)[p] == removed[p] + multiset{ps[last]}[p];
    }
  }

  /** Indices in strictly increasing order. */
  predicate Increasing(s: seq<nat>) {
    forall k, l :: 0 <= k < l < |s| ==> s[k] < s[l]
  }

  /** `dead` lists, in increasing order, exactly the indices of the dead particles of `pool`. */
  predicate DeadIndices(pool: seq<Particle>, dead: seq<nat>) {
    && Increasing(dead)
    && (forall k :: 0 <= k < |dead| ==> dead[k] < |pool|)
    && (forall i :: 0 <= i < |pool| ==> (!pool[i].isAlive <==> i in dead))
  }

  /**
   * One step of the removal loop: removing the largest dead index by a
   * swap with the last particle leaves the remaining indices describing
   * the dead particles of the shorter pool, with the same live particles.
   */
  lemma RemoveLargestDead(pool: seq<Particle>, dead: seq<nat>, pool': seq<Particle>, dead': seq<nat>)
    requires DeadIndices(pool, dead) && 0 < |dead|
    requires pool' == pool[dead[|dead| - 1] := pool[|pool| - 1]][..|pool| - 1]
    requires dead' == dead[..|dead| - 1]
    ensures DeadIndices(pool', dead')
    ensures forall p: Particle :: p.isAlive ==> multiset(pool')[p] == multiset(pool)[p]
    ensures forall i :: 0 <= i < |pool'| ==> pool'[i] in pool
  {
    var idx, last := dead[|dead| - 1], |pool| - 1;
    assert idx in dead;
    SwapRemoveMultiset(pool, idx, pool');
    forall k | 0 <= k < |dead'|
      ensures dead'[k] < idx
    {
      assert dead'[k] == dead[k];
    }
    forall i | 0 <= i < |pool'|
      ensures !pool'[i].isAlive <==> i in dead'
    {
      if i == idx {
        assert pool'[i] == pool[last];
        assert last !in dead by {
          forall k | 0 <= k < |dead| ensures dead[k] != last {
            assert dead[k] <= idx;
          }
        }
        assert i !in dead';
      } else {
        assert pool'[i] == pool[i];
        assert i in dead <==> i in dead' by {
          if i in dead {
            var k :| 0 <= k < |dead| && dead[k] == i;
            assert k < |dead'|;
            assert dead'[k] == i;
          }
        }
      }
    }
  }

  /** Puts `byte` in the low byte of `color` and keeps its upper 24 bits. */
  function WithLowByte(color: bv32, byte: bv32): (c: bv32)
    requires byte < 0x100
    ensures c & 0xffff_ff00 == color & 0xffff_ff00
    ensures c & 0xff == byte
  {
    (color & 0xffff_ff00) | byte
  }

  /** `alpha` in `[0, 1]` scaled by `k` and rounded toward zero. */
  function Scaled(alpha: real, k: nat): (n: nat)
    requires 0.0 <= alpha <= 1.0
    ensures n <= k
  {
    assert alpha * k as real <= 1.0 * k as real;
    (alpha * k as real).Floor
  }

  /**
   * The corrected `change_alpha`: for an alpha in `[0, 1]` the upper 24 bits
   * of `color` are kept and the low byte becomes `alpha * 255` rounded
   * toward zero; any other alpha leaves `color` unchanged.
   */
  function ChangeAlpha(color: bv32, alpha: real): (c: bv32)
    ensures 0.0 <= alpha <= 1.0 ==> c & 0xffff_ff00 == color & 0xffff_ff00
    ensures 0.0 <= alpha <= 1.0 ==> c & 0xff == Scaled(alpha, 255) as bv32
    ensures !(0.0 <= alpha <= 1.0) ==> c == color
  {
    if 0.0 <= alpha <= 1.0 then WithLowByte(color, Scaled(alpha, 255) as bv32)
    else color
  }

  /**
   * `change_alpha` as written: `(alpha * 256.) as u32` is masked to its low
   * byte, so an alpha of exactly 1.0 gives 256, whose low byte is 0.
   */
  function ChangeAlphaAsWritten(color: bv32, alpha: real): (c: bv32)
    ensures 0.0 <= alpha <= 1.0 ==> c & 0xffff_ff00 == color & 0xffff_ff00
    ensures 0.0 <= alpha < 1.0 ==> c & 0xff == Scaled(alpha, 256) as bv32
    ensures !(0.0 <= alpha <= 1.0) ==> c == color
  {
    if 0.0 <= alpha <= 1.0 then
      var scaled := Scaled(alpha, 256);
      WithLowByte(color, if scaled == 256 then 0 else scaled as bv32)
    else color
  }

  /**
   * As written, full opacity is lost: an alpha of 1.0 yields a low byte of
   * 0 (fully transparent), while 0.999 yields 255.
   */
  lemma ChangeAlphaAsWrittenDropsFullOpacity(color: bv32)
    ensures ChangeAlphaAsWritten(color, 1.0) & 0xff == 0
    ensures ChangeAlphaAsWritten(color, 0.999) & 0xff == 255
  {
    assert Scaled(1.0, 256) == 256;
    assert 0.999 * 256 as real == 255.744;
    assert Scaled(0.999, 256) == 255;
  }

  /** Corrected, the low byte grows with alpha, and full opacity gives 255. */
  lemma ChangeAlphaMonotone(color: bv32, a: real, b: real)
    requires 0.0 <= a <= b <= 1.0
    ensures Scaled(a, 255) <= Scaled(b, 255)
    ensures ChangeAlpha(color, 1.0) & 0xff == 0xff
  {
    assert a * 255.0 <= b * 255.0;
    assert Scaled(1.0, 255) == 255;
  }

  class ParticleManager {
    var particlePool: seq<Particle>

    /** The pool never exceeds `MAX_PARTICLES`, and every particle in it is well formed. */
    ghost predicate Valid()
      reads this
    {
      && |particlePool| <= MAX_PARTICLES
      && forall i :: 0 <= i < |particlePool| ==> particlePool[i].WellFormed()
    }

    /** `ParticleManager::new`: an empty pool. */
    constructor ()
      ensures Valid() && particlePool == []
    {
      particlePool := [];
    }

    /**
     * `ParticleManager::update`: every particle ticks (the `i`-th with tail
     * position `nexts[i]`); afterwards the pool holds exactly the particles
     * that are still alive, in some order.
     */
    method Update(nexts: seq<Vector2>)
      requires Valid() && |nexts| == |particlePool|
      modifies this
      ensures Valid()
      ensures LiveSurvivors(Ticked(old(particlePool), nexts), particlePool)
      ensures forall i :: 0 <= i < |particlePool| ==> particlePool[i].isAlive
    {
      var dead := TickAll(nexts);
      RemoveDead(dead);
    }

    /** The first loop of `update`: tick every particle and record the dead indices in increasing order. */
    method TickAll(nexts: seq<Vector2>) returns (dead: seq<nat>)
      requires Valid() && |nexts| == |particlePool|
      modifies this
      ensures Valid()
      ensures particlePool == Ticked(old(particlePool), nexts)
      ensures DeadIndices(particlePool, dead)
    {
      dead := [];
      for idx := 0 to |particlePool|
        invariant |particlePool| == |nexts|
        invariant forall i :: 0 <= i < idx ==> particlePool[i] == old(particlePool)[i].Update(nexts[i])
        invariant forall i :: idx <= i < |particlePool| ==> particlePool[i] == old(particlePool)[i]
        invariant Valid()
        invariant forall k, l :: 0 <= k < l < |dead| ==> dead[k] < dead[l]
        invariant forall k :: 0 <= k < |dead| ==> dead[k] < idx
        invariant forall i :: 0 <= i < idx ==> (!particlePool[i].isAlive <==> i in dead)
      {
        var particle := particlePool[idx].Update(nexts[idx]);
        particlePool := particlePool[idx := particle];
        if !particle.isAlive {
          dead := dead + [idx];
        }
      }
    }

    /**
     * The second loop of `update`: pop the dead indices from the largest
     * down, each time swapping that particle with the last one and popping
     * it. Every index above the one being removed has already been dealt
     * with, so the particle swapped in is alive.
     */
    method RemoveDead(dead: seq<nat>)
      requires Valid() && DeadIndices(particlePool, dead)
      modifies this
      ensures Valid()
      ensures LiveSurvivors(old(particlePool), particlePool)
      ensures forall i :: 0 <= i < |particlePool| ==> particlePool[i].isAlive
    {
      var rest := dead;
      while |rest| > 0
        invariant Valid() && DeadIndices(particlePool, rest)
        invariant forall p: Particle :: p.isAlive ==> multiset(particlePool)[p] == multiset(old(particlePool))[p]
        decreases |rest|
      {
        var idx := rest[|rest| - 1];
        var lastElementIdx := |particlePool| - 1;
        var pool := particlePool[idx := particlePool[lastElementIdx]][..lastElementIdx];
        RemoveLargestDead(particlePool, rest, pool, rest[..|rest| - 1]);
        particlePool := pool;
        rest := rest[..|rest| - 1];
      }
      forall p: Particle | !p.isAlive
        ensures multiset(particlePool)[p] == 0
      {
        assert p !in particlePool;
      }
    }

    /**
     * `generate_box_of_particles`: unless the pool would exceed
     * `MAX_PARTICLES`, appends `n` new particles with lifetime 180 at the
     * drawn coordinates; `random::between` keeps those inside the box.
     */
    method GenerateBoxOfParticles(n: nat, box: BoundingBox, seeds: seq<ParticleSeed>)
      requires Valid() && |seeds| == n
      requires forall s :: s in seeds ==> box.left <= s.x <= box.right && box.top <= s.y <= box.bottom
      modifies this
      ensures Valid()
      ensures old(|particlePool|) + n > MAX_PARTICLES ==> particlePool == old(particlePool)
      ensures old(|particlePool|) + n <= MAX_PARTICLES ==>
                && |particlePool| == old(|particlePool|) + n
                && particlePool[..old(|particlePool|)] == old(particlePool)
                && forall k :: old(|particlePool|) <= k < |particlePool| ==>
                     var s := seeds[k - old(|particlePool|)];
                     particlePool[k] == NewParticle(s.x, s.y, PARTICLE_LIFETIME, s.jitter, s.roll, s.color)
      ensures forall k :: old(|particlePool|) <= k < |particlePool| ==>
                && particlePool[k].isAlive && particlePool[k].lifetime == PARTICLE_LIFETIME
                && box.left <= particlePool[k].positions[0].x <= box.right
                && box.top <= particlePool[k].positions[0].y <= box.bottom
    {
      if |particlePool| + n > MAX_PARTICLES {
        return;
      }
      for i := 0 to n
        invariant |particlePool| == old(|particlePool|) + i
        invariant particlePool[..old(|particlePool|)] == old(particlePool)
        invariant forall k :: old(|particlePool|) <= k < |particlePool| ==>
                    var s := seeds[k - old(|particlePool|)];
                    particlePool[k] == NewParticle(s.x, s.y, PARTICLE_LIFETIME, s.jitter, s.roll, s.color)
        invariant Valid()
      {
        var s := seeds[i];
        particlePool := particlePool + [NewParticle(s.x, s.y, PARTICLE_LIFETIME, s.jitter, s.roll, s.color)];
      }
      forall k | old(|particlePool|) <= k < |particlePool|
        ensures box.left <= particlePool[k].positions[0].x <= box.right
      {
        assert seeds[k - old(|particlePool|)] in seeds;
      }
    }
  }
}
