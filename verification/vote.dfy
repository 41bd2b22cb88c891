/** The tri-state vote rule shared by the question cards and the question page: one viewer's
    marker on an entity is none, up or down, and a click on the up or down arrow moves both the
    marker and the entity's displayed vote count. */
module Vote {

  import opened Wrappers

  datatype Direction = Up | Down

  /** The viewer's marker; None is the source's `null` (or an absent `userVote`). */
  type Marker = Option<Direction>

  /** What the viewer's marker adds to the count: +1 for up, -1 for down, 0 for none. */
  function Contribution(m: Marker): int
  {
    match m
    case None => 0
    case Some(Up) => 1
    case Some(Down) => -1
  }

  /** The transition table, one row per (marker, click) pair: the new marker and the change
      in the count. */
  function Transition(m: Marker, click: Direction): (r: (Marker, int))
    ensures r.0 == (if m == Some(click) then None else Some(click))
    ensures r.1 == Contribution(r.0) - Contribution(m)
    ensures -2 <= r.1 <= 2
  {
    match (m, click)
    case (None, Up) => (Some(Up), 1)
    case (None, Down) => (Some(Down), -1)
    case (Some(Up), Up) => (None, -1)
    case (Some(Down), Down) => (None, 1)
    case (Some(Up), Down) => (Some(Down), -2)
    case (Some(Down), Up) => (Some(Up), 2)
  }

  /** A displayed count together with the viewer's marker. */
  datatype Tally = Tally(votes: int, userVote: Marker)

  /** The count with the viewer's own contribution taken out: what every other voter gave. */
  function Base(t: Tally): int
  {
    t.votes - Contribution(t.userVote)
  }

  /** Applies one click to a tally through the transition table. */
  function Cast(t: Tally, click: Direction): (r: Tally)
    ensures Base(r) == Base(t)
    ensures r.userVote == (if t.userVote == Some(click) then None else Some(click))
  {
    var (m, delta) := Transition(t.userVote, click);
    Tally(t.votes + delta, m)
  }

  /** Applies a sequence of clicks, first to last. */
  function CastAll(t: Tally, clicks: seq<Direction>): Tally
    decreases |clicks|
  {
    if |clicks| == 0 then t else CastAll(Cast(t, clicks[0]), clicks[1..])
  }

  /** Over any click sequence the count minus the viewer's contribution never changes, so the
      count is always the other voters' total plus +1, -1 or 0 for the viewer. */
  lemma {:induction false} CastAllKeepsBase(t: Tally, clicks: seq<Direction>)
    ensures Base(CastAll(t, clicks)) == Base(t)
    ensures Contribution(CastAll(t, clicks).userVote) in {-1, 0, 1}
    decreases |clicks|
  {
    if |clicks| > 0 {
      CastAllKeepsBase(Cast(t, clicks[0]), clicks[1..]);
    }
  }

  /** Clicking the same arrow twice from no vote restores both the count and the marker. */
  lemma SameClickTwiceRestores(votes: int, click: Direction)
    ensures Cast(Cast(Tally(votes, None), click), click) == Tally(votes, None)
  {
  }

  /** No click moves the count by more than two. */
  lemma CastMovesAtMostTwo(t: Tally, click: Direction)
    ensures -2 <= Cast(t, click).votes - t.votes <= 2
  {
  }
}
