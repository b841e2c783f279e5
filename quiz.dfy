/** The quiz controller: the page's state and the three handlers that change it. Each
    handler's call to the service is one sequential step whose result comes in as an
    `Outcome`; the page's "loading" flag is raised before that step and lowered after it. */
module Quiz {
  import opened Text
  import opened Parser
  import opened Gateway

  /** What the page shows, read off the state as the page does: the topic form while there
      are no questions, the current question while there is no feedback, and the feedback
      with the button to go on once there is some. */
  datatype Page = TopicEntry | Answering | Reviewing

  const GenerationHead: string := "Generate 5 simple AI interview questions about "
  const GenerationTail: string := ". Return as a numbered list."

  /** The request for a question set: the topic, verbatim, inside a fixed sentence. */
  function GenerationPrompt(topic: string): (p: string)
    ensures |p| == |GenerationHead| + |topic| + |GenerationTail|
    ensures p[..|GenerationHead|] == GenerationHead
    ensures p[|GenerationHead|..|GenerationHead| + |topic|] == topic
    ensures p[|GenerationHead| + |topic|..] == GenerationTail
  {
    GenerationHead + topic + GenerationTail
  }

  const EvaluationHead: string := "Evaluate this answer: \""
  const EvaluationMiddle: string := "\" for the question: \""
  const EvaluationTail: string := "\". Provide short constructive feedback."

  /** The request for feedback: the answer and then the question, each verbatim and in
      double quotes, inside a fixed sentence. */
  function EvaluationPrompt(answer: string, question: string): (p: string)
    ensures |p| == |EvaluationHead| + |answer| + |EvaluationMiddle| + |question| + |EvaluationTail|
    ensures p[..|EvaluationHead|] == EvaluationHead
    ensures p[|EvaluationHead|..|EvaluationHead| + |answer|] == answer
    ensures var at := |EvaluationHead| + |answer|;
      p[at..at + |EvaluationMiddle|] == EvaluationMiddle
    ensures var at := |EvaluationHead| + |answer| + |EvaluationMiddle|;
      p[at..at + |question|] == question
    ensures var at := |EvaluationHead| + |answer| + |EvaluationMiddle| + |question|;
      p[at..] == EvaluationTail
  {
    EvaluationHead + answer + EvaluationMiddle + question + EvaluationTail
  }

  const NextLabel: string := "Next Question"
  const FinishLabel: string := "Finish Quiz"

  class Session {
    var topic: string
    var questions: seq<Question>
    var currentIndex: int
    var answer: string
    var feedback: string
    var loading: bool

    /** Between two events: when there are questions the index points at one of them, the
        list is numbered by position, and no call to the service is in flight. */
    ghost predicate Valid()
      reads this
    {
      0 <= currentIndex && (questions != [] ==> currentIndex < |questions|)
      && WellFormed(questions) && !loading
    }

    /** The form the page shows: the topic form (line 127), the current question (147),
        and below it the feedback with the button that moves on (166). */
    function Screen(): Page
      reads this
    {
      if questions == [] then TopicEntry
      else if feedback == [] then Answering
      else Reviewing
    }

    /** The number in the heading above the current question: its position, counted from 1. */
    function ShownNumber(): (n: nat)
      reads this
      requires Valid() && questions != []
      ensures n == currentIndex + 1
    {
      questions[currentIndex].number
    }

    /** The caption of the button that ends a review. */
    function AdvanceLabel(): string
      reads this
    {
      if currentIndex + 1 < |questions| then NextLabel else FinishLabel
    }

    /** The page's initial state: no topic, no questions, nothing in flight. */
    constructor ()
      ensures Valid() && Screen() == TopicEntry
      ensures topic == [] && questions == [] && currentIndex == 0
      ensures answer == [] && feedback == [] && !loading
    {
      topic := [];
      questions := [];
      currentIndex := 0;
      answer := [];
      feedback := [];
      loading := false;
    }

    /** Typing in the topic field. */
    method EditTopic(text: string)
      requires Valid()
      modifies this`topic
      ensures Valid() && topic == text
    {
      topic := text;
    }

    /** Typing in the answer field. */
    method EditAnswer(text: string)
      requires Valid()
      modifies this`answer
      ensures Valid() && answer == text
    {
      answer := text;
    }

    /** "Generate Questions". A blank topic is refused before anything changes and nothing
        is sent; otherwise the reply to the generation request, parsed, replaces the question
        list, and the quiz restarts at the first question with no answer and no feedback. */
    method GenerateQuestions(outcome: Outcome) returns (sent: Option<string>)
      requires Valid()
      modifies this`questions, this`currentIndex, this`answer, this`feedback, this`loading
      ensures Valid()
      ensures AllSpace(topic) ==> sent == None
      ensures AllSpace(topic) ==> questions == old(questions) && currentIndex == old(currentIndex)
      ensures AllSpace(topic) ==> answer == old(answer) && feedback == old(feedback)
      ensures !AllSpace(topic) ==> sent == Some(GenerationPrompt(topic))
      ensures !AllSpace(topic) ==> questions == Parse(Ask(outcome))
      ensures !AllSpace(topic) ==> currentIndex == 0 && answer == [] && feedback == []
      ensures !AllSpace(topic) ==> Screen() == if questions == [] then TopicEntry else Answering
    {
      if Trim(topic) == [] {
        sent := None;
        return;
      }
      loading := true;
      sent := Some(GenerationPrompt(topic));
      var reply := Ask(outcome);
      Restart(Parse(reply));
    }

    /** The state updates that end a generation: the new list, the first question, an empty
        answer and no feedback, and the call no longer in flight. */
    method Restart(qs: seq<Question>)
      requires WellFormed(qs)
      modifies this`questions, this`currentIndex, this`answer, this`feedback, this`loading
      ensures Valid()
      ensures questions == qs && currentIndex == 0 && answer == [] && feedback == []
      ensures Screen() == if qs == [] then TopicEntry else Answering
    {
      questions := qs;
      currentIndex := 0;
      answer := [];
      feedback := [];
      loading := false;
    }

    /** "Get Feedback", offered only while a question is shown. A blank answer is refused
        before anything changes and nothing is sent; otherwise the reply to the evaluation
        request becomes the feedback verbatim, and since a reply is never empty the page
        moves on to reviewing it. */
    method EvaluateAnswer(outcome: Outcome) returns (sent: Option<string>)
      requires Valid() && questions != []
      modifies this`feedback, this`loading
      ensures Valid()
      ensures AllSpace(answer) ==> sent == None && feedback == old(feedback)
      ensures questions == old(questions) && currentIndex == old(currentIndex) && answer == old(answer)
      ensures !AllSpace(answer) ==>
        sent == Some(EvaluationPrompt(answer, questions[currentIndex].question))
        && feedback == Ask(outcome) && Screen() == Reviewing
    {
      if Trim(answer) == [] {
        sent := None;
        return;
      }
      loading := true;
      sent := Some(EvaluationPrompt(answer, questions[currentIndex].question));
      var reply := Ask(outcome);
      feedback := reply;
      loading := false;
    }

    /** "Next Question" / "Finish Quiz". The answer and feedback are cleared; then the index
        moves to the next question when there is one, and otherwise the list is emptied,
        which takes the page back to the topic form. The caption shown beforehand says
        which of the two happens. */
    method NextQuestion()
      requires Valid()
      modifies this`answer, this`feedback, this`currentIndex, this`questions
      ensures Valid() && answer == [] && feedback == []
      ensures old(currentIndex + 1 < |questions|) ==>
        currentIndex == old(currentIndex) + 1 && questions == old(questions) && Screen() == Answering
      ensures !old(currentIndex + 1 < |questions|) ==>
        questions == [] && currentIndex == old(currentIndex) && Screen() == TopicEntry
      ensures old(AdvanceLabel()) == FinishLabel <==> questions == []
    {
      answer := [];
      feedback := [];
      if currentIndex + 1 < |questions| {
        currentIndex := currentIndex + 1;
      } else {
        questions := [];
      }
    }
  }

  /** A failed call during generation still yields a quiz: the fallback string is one
      question numbered 1. */
  lemma ParseFallback(reply: string)
    requires IsFallback(reply)
    ensures Parse(reply) == [Question(1, reply)]
  {
    if reply == NoResponse {
      NoResponseParsed(reply);
    } else {
      ContactErrorParsed(reply);
    }
  }

  lemma NoResponseParsed(reply: string)
    requires reply == NoResponse
    ensures Parse(reply) == [Question(1, reply)]
  {
    NoResponseDigitFree();
    UnmarkedTrimmedParsed(reply);
  }

  lemma ContactErrorParsed(reply: string)
    requires reply == ContactError
    ensures Parse(reply) == [Question(1, reply)]
  {
    ContactErrorDigitFree();
    UnmarkedTrimmedParsed(reply);
  }

  /** A digit-free, trimmed, non-empty reply is a single question. */
  lemma UnmarkedTrimmedParsed(reply: string)
    requires reply != [] && Trimmed(reply) && DigitFree(reply)
    ensures Parse(reply) == [Question(1, reply)]
  {
    DigitFreeUnmarked(reply);
    ParseUnmarked(reply);
    TrimTrimmed(reply);
  }
}
