/** The `RestReveal` component: its four pieces of state are fields, and each
    handler replaces them as its setters do. Each handler is proved to
    produce the state the matching function of QuizSpec gives. */
module RestRevealComponent {
  import opened Catalogue
  import opened Answers
  import opened Scoring
  import opened QuizSpec

  class RestReveal {
    var currentStep: int
    var answers: map<Category, AnswerList>
    var showResults: bool
    var started: bool

    function State(): QuizState
      reads this
    {
      QuizState(currentStep, answers, showResults, started)
    }

    constructor ()
      ensures State() == Initial
      ensures Consistent(PageGate, State()) && Consistent(IntendedGate, State())
    {
      currentStep := 0;
      answers := map[];
      showResults := false;
      started := false;
    }

    method Start()
      modifies this
      ensures State() == QuizSpec.Start(old(State()))
    {
      started := true;
    }

    /** Copies the current rest type's list with the spread operator, writes
        one index and stores the copy under the rest type. */
    method HandleAnswer(questionIndex: nat, value: int)
      requires Valid(State())
      modifies this
      ensures State() == QuizSpec.HandleAnswer(old(State()), questionIndex, value)
      ensures Rating(CurrentAnswers(State()), questionIndex) == Some(value)
      ensures forall c: Category :: c != currentStep ==> ListOf(answers, c) == ListOf(old(answers), c)
    {
      var restType: Category := currentStep;
      var currentAnswers := if restType in answers then answers[restType] else [];
      var newAnswers := Spread(currentAnswers);
      if questionIndex < |newAnswers| {
        newAnswers := newAnswers[questionIndex := Rated(value)];
      } else {
        newAnswers := newAnswers + seq(questionIndex - |newAnswers|, _ => Hole) + [Rated(value)];
      }
      answers := answers[restType := newAnswers];
    }

    method NextStep()
      modifies this
      ensures State() == QuizSpec.NextStep(old(State()))
      ensures old(Valid(State())) ==> Valid(State())
    {
      if currentStep < CategoryCount - 1 {
        currentStep := currentStep + 1;
      } else {
        showResults := true;
      }
    }

    method PrevStep()
      modifies this
      ensures State() == QuizSpec.PrevStep(old(State()))
      ensures old(Valid(State())) ==> Valid(State())
    {
      if currentStep > 0 {
        currentStep := currentStep - 1;
      }
    }

    method Restart()
      modifies this
      ensures State() == QuizSpec.Restart(old(State()))
      ensures State() == Initial && PhaseOf(State()) == Intro
    {
      currentStep := 0;
      answers := map[];
      showResults := false;
      started := false;
    }
  }
}
