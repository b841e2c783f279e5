/** One session from topic to the end of a two-question set, with every reply given:
    the topic is entered, the generator answers with a two-line numbered list, the first
    question is answered and reviewed, the page moves on, the second is answered and
    reviewed, and finishing takes the page back to the topic form. */
module Walkthrough {
  import opened Text
  import opened Parser
  import opened Listing
  import opened Gateway
  import opened Quiz

  /** What the user types and what the service replies along the way. */
  predicate Inputs(topic: string, tags: seq<string>, items: seq<string>, answers: seq<string>, reviews: seq<string>) {
    !AllSpace(topic)
    && |tags| == |items| == |answers| == |reviews| == 2
    && IsOrdinal(tags[0]) && IsOrdinal(tags[1]) && Plain(items[0]) && Plain(items[1])
    && !AllSpace(answers[0]) && !AllSpace(answers[1])
    && reviews[0] != [] && reviews[1] != []
  }

  /** The questions are the list's texts renumbered 1 and 2, the first review is shown
      verbatim, and finishing the set leaves the topic form with no questions. */
  method TwoQuestionSession(topic: string, tags: seq<string>, items: seq<string>, answers: seq<string>, reviews: seq<string>)
    returns (generated: seq<Question>, firstFeedback: string, final: Page)
    requires Inputs(topic, tags, items, answers, reviews)
    ensures generated == [Question(1, items[0]), Question(2, items[1])]
    ensures firstFeedback == reviews[0]
    ensures final == TopicEntry
  {
    var page := new Session();
    generated := Start(page, topic, tags, items);
    firstFeedback := AnswerFirst(page, answers[0], reviews[0]);
    final := AnswerLast(page, answers[1], reviews[1]);
  }

  /** The topic is typed in and the generator replies with the rendered list. */
  method Start(page: Session, topic: string, tags: seq<string>, items: seq<string>) returns (qs: seq<Question>)
    requires page.Valid() && !AllSpace(topic)
    requires |tags| == |items| == 2 && IsOrdinal(tags[0]) && IsOrdinal(tags[1]) && Plain(items[0]) && Plain(items[1])
    modifies page
    ensures page.Valid() && page.questions == qs && page.currentIndex == 0
    ensures qs == [Question(1, items[0]), Question(2, items[1])]
  {
    page.EditTopic(topic);
    var list := Render(tags, items);
    ListParsed(tags, items);
    var _ := page.GenerateQuestions(Decoded(Some(list)));
    qs := page.questions;
  }

  /** The first question is answered, the review is shown, and "Next Question" moves on. */
  method AnswerFirst(page: Session, answer: string, review: string) returns (shown: string)
    requires page.Valid() && |page.questions| == 2 && page.currentIndex == 0
    requires !AllSpace(answer) && review != []
    modifies page
    ensures page.Valid() && page.questions == old(page.questions) && page.currentIndex == 1
    ensures shown == review
  {
    page.EditAnswer(answer);
    var _ := page.EvaluateAnswer(Decoded(Some(review)));
    shown := page.feedback;
    page.NextQuestion();
  }

  /** The second question is answered and reviewed, and "Finish Quiz" ends the set. */
  method AnswerLast(page: Session, answer: string, review: string) returns (final: Page)
    requires page.Valid() && |page.questions| == 2 && page.currentIndex == 1
    requires !AllSpace(answer) && review != []
    modifies page
    ensures page.Valid() && page.questions == [] && final == TopicEntry
  {
    page.EditAnswer(answer);
    var _ := page.EvaluateAnswer(Decoded(Some(review)));
    assert page.AdvanceLabel() == FinishLabel;
    page.NextQuestion();
    final := page.Screen();
  }

  /** A two-line list is not empty and parses to its two texts. */
  lemma ListParsed(tags: seq<string>, items: seq<string>)
    requires |tags| == |items| == 2 && IsOrdinal(tags[0]) && IsOrdinal(tags[1]) && Plain(items[0]) && Plain(items[1])
    ensures Render(tags, items) != []
    ensures Parse(Render(tags, items)) == [Question(1, items[0]), Question(2, items[1])]
  {
    assert tags == [tags[0], tags[1]] && items == [items[0], items[1]];
    RenderTwo(tags[0], tags[1], items[0], items[1]);
    ParseTwoLines(tags[0], tags[1], items[0], items[1]);
  }
}
