/** The question page: voting on the question and on each answer, accepting an answer,
    submitting a new answer, and the order in which answers are listed. */
module QuestionDetail {

  import opened Wrappers
  import opened Vote
  import Text
  import Sorting

  datatype Answer = Answer(
    id: string,
    content: string,
    author: string,
    votes: int,
    isAccepted: bool,
    createdAt: string,
    userVote: Marker)

  datatype Question = Question(
    id: string,
    title: string,
    description: string,
    tags: seq<string>,
    author: string,
    votes: int,
    answers: int,
    isAnswered: bool,
    createdAt: string,
    userVote: Marker)

  /** The page's state: the question, its answers, the answer draft and the login flag. */
  datatype Page = Page(question: Question, answers: seq<Answer>, newAnswer: string, isLoggedIn: bool)

  /** The toast each handler raises. */
  datatype Notice =
    | AuthenticationRequired
    | VoteRecorded
    | PermissionDenied
    | AnswerAccepted
    | AnswerRequired
    | AnswerSubmitted

  datatype Outcome = Outcome(page: Page, notice: Notice)

  /** What a vote button is attached to; an answer button carries the answer's id, which the
      handler treats as missing when it is absent or the empty string. */
  datatype Target = OnQuestion | OnAnswer(targetId: Option<string>)

  /** The only author allowed to accept answers. */
  const QuestionAuthor: string := "User Name"

  /** The vote rule as the page writes it inline, on a count and a marker. */
  function Revote(votes: int, current: Marker, click: Direction): (r: Tally)
    ensures r == Cast(Tally(votes, current), click)
  {
    if current == Some(click) then Tally(if click == Up then votes - 1 else votes + 1, None)
    else if current.Some? then Tally(if click == Up then votes + 2 else votes - 2, Some(click))
    else Tally(if click == Up then votes + 1 else votes - 1, Some(click))
  }

  /** The answers after a click on the vote buttons of the answer with id `targetId`. */
  function VoteAnswers(answers: seq<Answer>, targetId: string, click: Direction): (r: seq<Answer>)
    ensures |r| == |answers|
    ensures forall i :: 0 <= i < |answers| && answers[i].id != targetId ==> r[i] == answers[i]
    ensures forall i :: 0 <= i < |answers| && answers[i].id == targetId ==>
      r[i].(votes := answers[i].votes, userVote := answers[i].userVote) == answers[i]
      && Tally(r[i].votes, r[i].userVote) == Cast(Tally(answers[i].votes, answers[i].userVote), click)
  {
    seq(|answers|, i requires 0 <= i < |answers| =>
      var a := answers[i];
      if a.id == targetId then
        var t := Revote(a.votes, a.userVote, click);
        a.(votes := t.votes, userVote := t.userVote)
      else a)
  }

  /** `handleVote(type, targetType, targetId)`. */
  function HandleVote(p: Page, click: Direction, target: Target): (r: Outcome)
    ensures !p.isLoggedIn ==> r == Outcome(p, AuthenticationRequired)
    ensures p.isLoggedIn ==>
      r.notice == VoteRecorded && r.page.newAnswer == p.newAnswer && r.page.isLoggedIn
    ensures p.isLoggedIn && target == OnQuestion ==>
      r.page.answers == p.answers
      && r.page.question.(votes := p.question.votes, userVote := p.question.userVote) == p.question
      && Tally(r.page.question.votes, r.page.question.userVote)
         == Cast(Tally(p.question.votes, p.question.userVote), click)
    ensures p.isLoggedIn && target.OnAnswer? ==> r.page.question == p.question
    ensures p.isLoggedIn && target.OnAnswer? && target.targetId.Some? && target.targetId.value != "" ==>
      r.page.answers == VoteAnswers(p.answers, target.targetId.value, click)
    ensures p.isLoggedIn && target.OnAnswer? && (target.targetId.None? || target.targetId == Some("")) ==>
      r.page == p
  {
    if !p.isLoggedIn then Outcome(p, AuthenticationRequired)
    else if target == OnQuestion then
      var t := Revote(p.question.votes, p.question.userVote, click);
      Outcome(p.(question := p.question.(votes := t.votes, userVote := t.userVote)), VoteRecorded)
    else if target.targetId.Some? && target.targetId.value != "" then
      Outcome(p.(answers := VoteAnswers(p.answers, target.targetId.value, click)), VoteRecorded)
    else Outcome(p, VoteRecorded)
  }

  /** A vote on one answer touches only the answers carrying that id. */
  lemma AnswerVoteIsLocal(p: Page, click: Direction, id: string, i: int)
    requires p.isLoggedIn && 0 <= i < |p.answers| && p.answers[i].id != id
    ensures |HandleVote(p, click, OnAnswer(Some(id))).page.answers| == |p.answers|
    ensures HandleVote(p, click, OnAnswer(Some(id))).page.answers[i] == p.answers[i]
  {
  }

  /** Whether the accept handler lets the current viewer through. */
  predicate MayAccept(p: Page)
  {
    p.isLoggedIn && p.question.author == QuestionAuthor
  }

  /** `handleAcceptAnswer(answerId)`: toggles the target's accepted flag, clears every other
      answer's flag and marks the question answered. */
  function AcceptAnswer(p: Page, answerId: string): (r: Outcome)
    ensures !MayAccept(p) ==> r == Outcome(p, PermissionDenied)
    ensures MayAccept(p) ==>
      && r.notice == AnswerAccepted
      && r.page.question == p.question.(isAnswered := true)
      && r.page.newAnswer == p.newAnswer && r.page.isLoggedIn == p.isLoggedIn
      && |r.page.answers| == |p.answers|
      && (forall i :: 0 <= i < |p.answers| ==>
            r.page.answers[i].(isAccepted := p.answers[i].isAccepted) == p.answers[i])
      && (forall i :: 0 <= i < |p.answers| ==>
            (r.page.answers[i].isAccepted <==> p.answers[i].id == answerId && !p.answers[i].isAccepted))
  {
    if !p.isLoggedIn || p.question.author != QuestionAuthor then Outcome(p, PermissionDenied)
    else
      var answers := seq(|p.answers|, i requires 0 <= i < |p.answers| =>
        p.answers[i].(isAccepted := if p.answers[i].id == answerId then !p.answers[i].isAccepted else false));
      Outcome(p.(answers := answers, question := p.question.(isAnswered := true)), AnswerAccepted)
  }

  /** No two answers share an id. */
  ghost predicate UniqueIds(answers: seq<Answer>)
  {
    forall i, j :: 0 <= i < j < |answers| ==> answers[i].id != answers[j].id
  }

  /** At most one answer is accepted. */
  ghost predicate AtMostOneAccepted(answers: seq<Answer>)
  {
    forall i, j :: 0 <= i < |answers| && 0 <= j < |answers| && answers[i].isAccepted && answers[j].isAccepted ==> i == j
  }

  /** With distinct ids, a permitted accept leaves at most one answer accepted, whatever came
      before. */
  lemma AcceptLeavesAtMostOne(p: Page, answerId: string)
    requires MayAccept(p) && UniqueIds(p.answers)
    ensures AtMostOneAccepted(AcceptAnswer(p, answerId).page.answers)
  {
  }

  /** Accepting the answer that is already accepted withdraws it, yet the question stays
      marked answered with no accepted answer left. */
  lemma UnacceptKeepsAnsweredFlag(p: Page, k: int)
    requires MayAccept(p) && UniqueIds(p.answers) && AtMostOneAccepted(p.answers)
    requires 0 <= k < |p.answers| && p.answers[k].isAccepted
    ensures var r := AcceptAnswer(p, p.answers[k].id).page;
      r.question.isAnswered && forall i :: 0 <= i < |r.answers| ==> !r.answers[i].isAccepted
  {
  }

  /** The answer a submission appends; `now` stands for `Date.now().toString()`. */
  function NewAnswer(content: string, now: string): (a: Answer)
    ensures a.id == now && a.content == content && a.votes == 0 && !a.isAccepted && a.userVote == None
    ensures a.author == "Current User" && a.createdAt == "just now"
  {
    Answer(now, content, "Current User", 0, false, "just now", None)
  }

  /** `handleSubmitAnswer`, up to and including the delayed commit. */
  function SubmitAnswer(p: Page, now: string): (r: Outcome)
    ensures !p.isLoggedIn ==> r == Outcome(p, AuthenticationRequired)
    ensures p.isLoggedIn && Text.IsBlank(p.newAnswer) ==> r == Outcome(p, AnswerRequired)
    ensures p.isLoggedIn && !Text.IsBlank(p.newAnswer) ==>
      && r.notice == AnswerSubmitted
      && r.page.answers == p.answers + [NewAnswer(p.newAnswer, now)]
      && r.page.question == p.question.(answers := p.question.answers + 1)
      && r.page.newAnswer == ""
      && r.page.isLoggedIn
  {
    if !p.isLoggedIn then Outcome(p, AuthenticationRequired)
    else if Text.Trim(p.newAnswer) == "" then Outcome(p, AnswerRequired)
    else
      var answer := Answer(now, p.newAnswer, "Current User", 0, false, "just now", None);
      Outcome(Page(p.question.(answers := p.question.answers + 1), p.answers + [answer], "", p.isLoggedIn),
        AnswerSubmitted)
  }

  /** The sort key of the listing comparator `(b.isAccepted ? 1 : 0) - (a.isAccepted ? 1 : 0)`. */
  function AcceptedRank(a: Answer): int
  {
    if a.isAccepted then 1 else 0
  }

  /** The answers in display order: a stable sort putting accepted answers first. */
  function DisplayOrder(answers: seq<Answer>): (r: seq<Answer>)
    ensures multiset(r) == multiset(answers)
    ensures forall i, j :: 0 <= i < j < |r| && r[j].isAccepted ==> r[i].isAccepted
  {
    var r := Sorting.SortDesc(AcceptedRank, answers);
    assert forall i, j :: 0 <= i < j < |r| ==> AcceptedRank(r[i]) >= AcceptedRank(r[j]);
    r
  }

  /** Among the accepted answers, and among the others, the display keeps the stored order. */
  lemma DisplayOrderIsStable(answers: seq<Answer>)
    ensures Sorting.WithKey(AcceptedRank, 1, DisplayOrder(answers)) == Sorting.WithKey(AcceptedRank, 1, answers)
    ensures Sorting.WithKey(AcceptedRank, 0, DisplayOrder(answers)) == Sorting.WithKey(AcceptedRank, 0, answers)
  {
    Sorting.SortDescIsStable(AcceptedRank, answers, 1);
    Sorting.SortDescIsStable(AcceptedRank, answers, 0);
  }
}
