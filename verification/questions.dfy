/** The question summary shown on the home page and on both question cards. */
module Questions {

  datatype Question = Question(
    id: string,
    title: string,
    description: string,
    tags: seq<string>,
    author: string,
    votes: int,
    answers: int,
    isAnswered: bool,
    createdAt: string)
}
