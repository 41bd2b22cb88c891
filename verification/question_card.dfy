/** The full-size question card: it keeps its own vote count and marker, starting from the
    question's count and no marker, and reports every new count to an optional callback. */
module QuestionCard {

  import opened Wrappers
  import opened Vote
  import opened Questions

  /** The arguments the `onVoteChange` callback is called with. */
  datatype VoteChange = VoteChange(questionId: string, newVoteCount: int)

  /** The card's state after a click, and the callback call it made, if any. */
  datatype Clicked = Clicked(state: Tally, reported: Option<VoteChange>)

  /** The card's state when it is first shown. */
  function Initial(q: Question): (t: Tally)
    ensures t.userVote == None && Base(t) == q.votes
  {
    Tally(q.votes, None)
  }

  /** `handleVote` as the card writes it; `hasCallback` says whether `onVoteChange` was supplied. */
  function HandleVote(q: Question, s: Tally, click: Direction, hasCallback: bool): (r: Clicked)
    ensures r.state == Cast(s, click)
    ensures r.reported == (if hasCallback then Some(VoteChange(q.id, r.state.votes)) else None)
  {
    var newVotes :=
      if s.userVote == Some(click) then (if click == Up then s.votes - 1 else s.votes + 1)
      else if s.userVote.Some? then (if click == Up then s.votes + 2 else s.votes - 2)
      else (if click == Up then s.votes + 1 else s.votes - 1);
    var newUserVote := if s.userVote == Some(click) then None else Some(click);
    Clicked(Tally(newVotes, newUserVote), if hasCallback then Some(VoteChange(q.id, newVotes)) else None)
  }
}
