/** The compact question card: the same voting behaviour as the full-size card, and a tag row
    that shows at most three tags followed by a "+n" overflow marker. */
module QuestionCardCompact {

  import opened Wrappers
  import opened Vote
  import opened Questions
  import QuestionCard

  /** `handleVote` as the compact card writes it. */
  function HandleVote(q: Question, s: Tally, click: Direction, hasCallback: bool): (r: QuestionCard.Clicked)
    ensures r.state == Cast(s, click)
    ensures r.reported == (if hasCallback then Some(QuestionCard.VoteChange(q.id, r.state.votes)) else None)
  {
    var newVotes :=
      if s.userVote == Some(click) then (if click == Up then s.votes - 1 else s.votes + 1)
      else if s.userVote.Some? then (if click == Up then s.votes + 2 else s.votes - 2)
      else (if click == Up then s.votes + 1 else s.votes - 1);
    var newUserVote: Marker := if s.userVote == Some(click) then None else Some(click);
    QuestionCard.Clicked(Tally(newVotes, newUserVote),
      if hasCallback then Some(QuestionCard.VoteChange(q.id, newVotes)) else None)
  }

  /** The compact card and the full-size card react identically to every click. */
  lemma SameAsFullCard(q: Question, s: Tally, click: Direction, hasCallback: bool)
    ensures HandleVote(q, s, click, hasCallback) == QuestionCard.HandleVote(q, s, click, hasCallback)
  {
  }

  /** The tag row: the first three tags, and the number behind the "+n" marker when there are more. */
  datatype TagRow = TagRow(shown: seq<string>, more: Option<int>)

  function TagBadges(tags: seq<string>): (r: TagRow)
    ensures |r.shown| <= 3 && r.shown <= tags
    ensures |r.shown| == if |tags| < 3 then |tags| else 3
    ensures r.more.Some? <==> |tags| > 3
    ensures r.more.Some? ==> r.more.value > 0
    ensures |r.shown| + r.more.GetOr(0) == |tags|
  {
    TagRow(if |tags| <= 3 then tags else tags[..3], if |tags| > 3 then Some(|tags| - 3) else None)
  }
}
