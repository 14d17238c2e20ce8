/** Trail: a fading marker left at an agent's position, stamped with a millisecond time. */
module Trails {
  import opened Seqs
  import opened Plane

  /** The colour of a marker; derived from the agent's speed outside this model. */
  datatype Color = Rgb(red: int, green: int, blue: int)

  /** Trails older than this many milliseconds are expired. */
  const LIFETIME_MS: int := 2000

  datatype Trail = Trail(pos: Point, color: Color, createTime: int)
  {
    /** Expired strictly after an age of LIFETIME_MS. */
    predicate Expired(now: int)
    {
      now - createTime > LIFETIME_MS
    }

    /** Opacity fading linearly from 1 at creation to 0 at the end of the lifetime. */
    function Alpha(now: int): real
    {
      1.0 - ((now - createTime) as real) / (LIFETIME_MS as real)
    }
  }

  /** The constructor `Trail(pos, color)`, with the clock read as `now`. */
  function NewTrail(pos: Point, color: Color, now: int): (t: Trail)
    ensures t.pos == pos && t.color == color
    ensures !t.Expired(now) && t.Alpha(now) == 1.0
  {
    Trail(pos, color, now)
  }

  /** A trail is present up to and including age LIFETIME_MS and gone one millisecond later. */
  lemma ExpiryBoundary(t: Trail)
    ensures !t.Expired(t.createTime + LIFETIME_MS)
    ensures t.Expired(t.createTime + LIFETIME_MS + 1)
    ensures t.Alpha(t.createTime) == 1.0
    ensures t.Alpha(t.createTime + LIFETIME_MS) == 0.0
  {
  }

  /** The opacity strictly decreases as time passes. */
  lemma AlphaStrictlyDecreasing(t: Trail, now: int, later: int)
    requires now < later
    ensures t.Alpha(later) < t.Alpha(now)
  {
  }

  /** A live trail of non-negative age has an opacity in [0, 1]. */
  lemma AlphaInUnitRange(t: Trail, now: int)
    requires now >= t.createTime && !t.Expired(now)
    ensures 0.0 <= t.Alpha(now) <= 1.0
  {
  }

  /** A trail list with every trail expired at `now` removed, the rest kept in order. */
  function Unexpired(ts: seq<Trail>, now: int): (r: seq<Trail>)
    ensures forall i :: 0 <= i < |r| ==> r[i] in ts && !r[i].Expired(now)
    ensures forall i :: 0 <= i < |ts| && !ts[i].Expired(now) ==> ts[i] in r
    ensures forall t :: Count(r, t) == if t.Expired(now) then 0 else Count(ts, t)
    ensures SubSeq(r, ts)
  {
    Keep(ts, (t: Trail) => !t.Expired(now))
  }
}
