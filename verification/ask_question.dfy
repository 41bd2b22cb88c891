/** The ask-a-question form's submit check: title, description and tags are validated in that
    order, and the first one missing is reported. */
module AskQuestion {

  import opened Text

  datatype Problem = TitleRequired | DescriptionRequired | TagsRequired

  /** Either the form goes on to submit, or it stops with the first problem found. */
  datatype Verdict = Submit | Reject(problem: Problem)

  /** `handleSubmit`'s checks before `isSubmitting` is set. */
  function Validate(title: string, description: string, tags: seq<string>): (v: Verdict)
    ensures v == Submit <==> !IsBlank(title) && !IsBlank(description) && |tags| > 0
    ensures v == Reject(TitleRequired) <==> IsBlank(title)
    ensures v == Reject(DescriptionRequired) <==> !IsBlank(title) && IsBlank(description)
    ensures v == Reject(TagsRequired) <==> !IsBlank(title) && !IsBlank(description) && |tags| == 0
  {
    if Trim(title) == [] then Reject(TitleRequired)
    else if Trim(description) == [] then Reject(DescriptionRequired)
    else if |tags| == 0 then Reject(TagsRequired)
    else Submit
  }

  /** The checks in the order the form runs them, each as "fails" and the problem it reports. */
  function Checks(title: string, description: string, tags: seq<string>): seq<(bool, Problem)>
  {
    [(IsBlank(title), TitleRequired), (IsBlank(description), DescriptionRequired), (|tags| == 0, TagsRequired)]
  }

  /** The problem of the first failing check, if any. */
  function FirstFailure(checks: seq<(bool, Problem)>): (r: Verdict)
    ensures r.Reject? <==> exists i :: 0 <= i < |checks| && checks[i].0
    decreases |checks|
  {
    if |checks| == 0 then Submit
    else if checks[0].0 then Reject(checks[0].1)
    else
      var r := FirstFailure(checks[1..]);
      assert forall i :: 0 < i < |checks| ==> checks[i] == checks[1..][i - 1];
      r
  }

  /** The verdict is that of the first failing check in title, description, tags order. */
  lemma ValidateReportsFirstFailure(title: string, description: string, tags: seq<string>)
    ensures Validate(title, description, tags) == FirstFailure(Checks(title, description, tags))
  {
    var c := Checks(title, description, tags);
    var c1 := [(IsBlank(description), DescriptionRequired), (|tags| == 0, TagsRequired)];
    var c2 := [(|tags| == 0, TagsRequired)];
    assert c[1..] == c1 && c1[1..] == c2 && c2[1..] == [];
    assert FirstFailure(c2) == if |tags| == 0 then Reject(TagsRequired) else Submit;
  }
}
