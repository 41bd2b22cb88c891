/** The home page's question list: the search, status and tag filters and the sorts by votes
    and by answers. */
module Home {

  import opened Seqs
  import opened Text
  import opened Sorting
  import opened Questions

  /** Some tag of `q` contains the (lower-cased) query, ignoring case. */
  predicate TagMatches(q: Question, lowered: string)
  {
    exists i :: 0 <= i < |q.tags| && Includes(ToLower(q.tags[i]), lowered)
  }

  /** `matchesSearch`: the query occurs, ignoring case, in the title, the description or a tag. */
  predicate MatchesSearch(q: Question, query: string)
  {
    var lowered := ToLower(query);
    Includes(ToLower(q.title), lowered) || Includes(ToLower(q.description), lowered) || TagMatches(q, lowered)
  }

  /** `matchesStatus`: 'all' keeps everything, 'answered' and 'unanswered' keep one side, and
      any other value keeps nothing. */
  predicate MatchesStatus(q: Question, status: string)
  {
    status == "all" || (status == "answered" && q.isAnswered) || (status == "unanswered" && !q.isAnswered)
  }

  /** `matchesTag`: 'all-tags' keeps everything, any other value must be one of the tags
      exactly. */
  predicate MatchesTag(q: Question, tag: string)
  {
    tag == "all-tags" || tag in q.tags
  }

  predicate Matches(q: Question, query: string, status: string, tag: string)
  {
    MatchesSearch(q, query) && MatchesStatus(q, status) && MatchesTag(q, tag)
  }

  /** The filter callback for one choice of query, status and tag. */
  function Keeps(query: string, status: string, tag: string): Question -> bool
  {
    (q: Question) => Matches(q, query, status, tag)
  }

  /** The filtering half of `filteredAndSortedQuestions`. */
  function FilterQuestions(qs: seq<Question>, query: string, status: string, tag: string): (r: seq<Question>)
    ensures |r| <= |qs|
    ensures forall i :: 0 <= i < |r| ==> MatchesSearch(r[i], query)
    ensures forall i :: 0 <= i < |r| ==> MatchesStatus(r[i], status)
    ensures forall i :: 0 <= i < |r| ==> MatchesTag(r[i], tag)
  {
    Filter(Keeps(query, status, tag), qs)
  }

  /** Every question satisfying all three predicates is kept, as often as it occurs, and
      nothing else is. */
  lemma FilterQuestionsIsExact(qs: seq<Question>, query: string, status: string, tag: string, q: Question)
    ensures multiset(FilterQuestions(qs, query, status, tag))[q]
         == if Matches(q, query, status, tag) then multiset(qs)[q] else 0
    ensures Matches(q, query, status, tag) && q in qs ==> q in FilterQuestions(qs, query, status, tag)
  {
    FilterMultiplicity(Keeps(query, status, tag), qs, q);
  }

  /** The filters keep order: filtering a concatenation filters each part. */
  lemma FilterQuestionsKeepsOrder(a: seq<Question>, b: seq<Question>, query: string, status: string, tag: string)
    ensures FilterQuestions(a + b, query, status, tag)
         == FilterQuestions(a, query, status, tag) + FilterQuestions(b, query, status, tag)
  {
    FilterConcat(Keeps(query, status, tag), a, b);
  }

  /** The page's initial choices (empty search, 'all', 'all-tags') show every question. */
  lemma DefaultFiltersKeepAll(qs: seq<Question>)
    ensures FilterQuestions(qs, "", "all", "all-tags") == qs
  {
    forall i | 0 <= i < |qs|
      ensures Keeps("", "all", "all-tags")(qs[i])
    {
      IncludesEmpty(ToLower(qs[i].title));
    }
    FilterKeepsAll(Keeps("", "all", "all-tags"), qs);
  }

  /** A status other than 'all', 'answered' and 'unanswered' shows nothing. */
  lemma UnknownStatusKeepsNothing(qs: seq<Question>, query: string, status: string, tag: string)
    requires status != "all" && status != "answered" && status != "unanswered"
    ensures FilterQuestions(qs, query, status, tag) == []
  {
    FilterDropsAll(Keeps(query, status, tag), qs);
  }

  /** Search ignores the case of the query: lower-casing it first changes nothing. */
  lemma SearchIgnoresQueryCase(q: Question, query: string)
    ensures MatchesSearch(q, ToLower(query)) == MatchesSearch(q, query)
  {
    assert ToLower(ToLower(query)) == ToLower(query);
  }

  function VotesOf(q: Question): int
  {
    q.votes
  }

  function AnswersOf(q: Question): int
  {
    q.answers
  }

  /** Sort 'votes': the same questions, most votes first, ties in their filtered order. */
  function SortByVotes(qs: seq<Question>): (r: seq<Question>)
    ensures multiset(r) == multiset(qs)
    ensures forall i, j :: 0 <= i < j < |r| ==> r[i].votes >= r[j].votes
  {
    var r := SortDesc(VotesOf, qs);
    assert forall i, j :: 0 <= i < j < |r| ==> VotesOf(r[i]) >= VotesOf(r[j]);
    r
  }

  /** Sort 'answers': the same questions, most answers first, ties in their filtered order. */
  function SortByAnswers(qs: seq<Question>): (r: seq<Question>)
    ensures multiset(r) == multiset(qs)
    ensures forall i, j :: 0 <= i < j < |r| ==> r[i].answers >= r[j].answers
  {
    var r := SortDesc(AnswersOf, qs);
    assert forall i, j :: 0 <= i < j < |r| ==> AnswersOf(r[i]) >= AnswersOf(r[j]);
    r
  }

  /** Both sorts are stable: questions with equal votes (equal answers) keep their order. */
  lemma SortsAreStable(qs: seq<Question>, k: int)
    ensures WithKey(VotesOf, k, SortByVotes(qs)) == WithKey(VotesOf, k, qs)
    ensures WithKey(AnswersOf, k, SortByAnswers(qs)) == WithKey(AnswersOf, k, qs)
  {
    SortDescIsStable(VotesOf, qs, k);
    SortDescIsStable(AnswersOf, qs, k);
  }
}
