/** The registration wizard of `src/app/register/page.tsx`: six steps (sign-up, welcome,
    "first exam?", exam name, gender, education) over one record of answers.

    `Page` is the component's state and `Transition` what a user action does to it, with
    the enablement rules of the step components folded in: a button that is not shown
    or is disabled changes nothing. `RegisterPage` holds the same state in fields; its
    handlers are proved to perform those transitions. */
module Register {
  import opened Wrappers
  import JsText

  /** The school and status chosen in the last step. */
  datatype Education = Education(school: string, status: string)

  /** The answers collected so far. */
  datatype FormData = FormData(
    username: string,
    password: string,
    passwordConfirm: string,
    exam: string,
    gender: string,
    education: Education)

  /** The top-level text fields `handleSignupChange` can set. */
  datatype Field = Username | Password | PasswordConfirm | Exam | Gender

  /** The component's state: the step shown and the answers. */
  datatype Page = Page(step: int, form: FormData)

  const LastStep := 6

  /** The first render: step 1, every answer empty. */
  function InitialPage(): (p: Page)
    ensures p.step == 1 && Reachable(p)
    ensures forall f :: Get(p.form, f) == ""
    ensures p.form.education == Education("", "")
  {
    Page(1, FormData("", "", "", "", "", Education("", "")))
  }

  function Get(form: FormData, f: Field): string {
    match f
    case Username => form.username
    case Password => form.password
    case PasswordConfirm => form.passwordConfirm
    case Exam => form.exam
    case Gender => form.gender
  }

  // ----------------------------------------------------------------------------
  // The updaters
  // ----------------------------------------------------------------------------

  /** `{ ...prev, [field]: value }`: the field is set and nothing else changes. */
  function WithField(form: FormData, f: Field, value: string): (r: FormData)
    ensures Get(r, f) == value
    ensures forall g :: g != f ==> Get(r, g) == Get(form, g)
    ensures r.education == form.education
  {
    match f
    case Username => form.(username := value)
    case Password => form.(password := value)
    case PasswordConfirm => form.(passwordConfirm := value)
    case Exam => form.(exam := value)
    case Gender => form.(gender := value)
  }

  /** `{ ...prev, education: { ...prev.education, school: value } }`. */
  function WithSchool(form: FormData, value: string): (r: FormData)
    ensures r.education.school == value && r.education.status == form.education.status
    ensures forall g :: Get(r, g) == Get(form, g)
  {
    form.(education := form.education.(school := value))
  }

  /** `{ ...prev, education: { ...prev.education, status: value } }`. */
  function WithStatus(form: FormData, value: string): (r: FormData)
    ensures r.education.status == value && r.education.school == form.education.school
    ensures forall g :: Get(r, g) == Get(form, g)
  {
    form.(education := form.education.(status := value))
  }

  /** Setting a field twice keeps the second value; setting different fields commutes. */
  lemma WithFieldLastWriteWins(form: FormData, f: Field, a: string, b: string)
    ensures WithField(WithField(form, f, a), f, b) == WithField(form, f, b)
  {
  }

  lemma WithFieldCommutes(form: FormData, f: Field, g: Field, a: string, b: string)
    requires f != g
    ensures WithField(WithField(form, f, a), g, b) == WithField(WithField(form, g, b), f, a)
  {
    var x := WithField(WithField(form, f, a), g, b);
    var y := WithField(WithField(form, g, b), f, a);
    assert forall h :: Get(x, h) == Get(y, h);
    assert Get(x, Username) == Get(y, Username) && Get(x, Password) == Get(y, Password);
    assert Get(x, PasswordConfirm) == Get(y, PasswordConfirm) && Get(x, Exam) == Get(y, Exam);
    assert Get(x, Gender) == Get(y, Gender);
  }

  // ----------------------------------------------------------------------------
  // User actions
  // ----------------------------------------------------------------------------

  /** The sign-up step's fields. */
  datatype SignupField = SignupUsername | SignupPassword | SignupPasswordConfirm

  function FieldOf(f: SignupField): Field {
    match f
    case SignupUsername => Username
    case SignupPassword => Password
    case SignupPasswordConfirm => PasswordConfirm
  }

  /** What the user can do on some step. */
  datatype UiEvent =
    | SignupInput(field: SignupField, value: string)  // step 1: typing into the sign-up form
    | Next                                            // steps 1, 2 and 4: the "next" button
    | FirstExamAnswer(yes: bool)                      // step 3: "yes" or "no"
    | ExamInput(value: string)                        // step 4: typing the exam name
    | GenderAnswer(male: bool)                        // step 5: "male" or "female"
    | SchoolChange(value: string)                     // step 6: the school select
    | StatusChange(value: string)                     // step 6: the status radio group
    | Finish                                          // step 6: the finish button

  /** The exam step's button is disabled while `value.trim()` is empty: it is enabled
      exactly when the exam name holds a character that is not whitespace. */
  function ExamNextEnabled(p: Page): (enabled: bool)
    ensures enabled <==> exists i :: 0 <= i < |p.form.exam| && !JsText.IsJsWhitespace(p.form.exam[i])
  {
    JsText.TrimEmptyIffBlank(p.form.exam);
    JsText.Trim(p.form.exam) != ""
  }

  /** What an action does: only the current step's controls are on screen, and a
      disabled button does nothing. The yes/no step writes its answer into `gender`,
      which the gender step later overwrites. `handleFinish` only logs the form. */
  function Transition(p: Page, e: UiEvent): (r: Page)
    ensures r.step == p.step || r.step == p.step + 1
    ensures r.step == p.step + 1 ==> 1 <= p.step <= 5
    ensures e.Finish? ==> r == p
  {
    match e
    case SignupInput(f, v) => if p.step == 1 then p.(form := WithField(p.form, FieldOf(f), v)) else p
    case Next =>
      if p.step == 1 || p.step == 2 || (p.step == 4 && ExamNextEnabled(p)) then p.(step := p.step + 1) else p
    case FirstExamAnswer(yes) =>
      if p.step == 3 then Page(p.step + 1, WithField(p.form, Gender, if yes then "yes" else "no")) else p
    case ExamInput(v) => if p.step == 4 then p.(form := WithField(p.form, Exam, v)) else p
    case GenderAnswer(male) =>
      if p.step == 5 then Page(p.step + 1, WithField(p.form, Gender, if male then "male" else "female")) else p
    case SchoolChange(v) => if p.step == 6 then p.(form := WithSchool(p.form, v)) else p
    case StatusChange(v) => if p.step == 6 then p.(form := WithStatus(p.form, v)) else p
    case Finish => p
  }

  /** The form `handleFinish` logs, when the finish button is shown and enabled (it is
      disabled while `!school || !status`). A form logged from a reachable page is
      complete: the exam name is not blank, the gender is the gender answer, and school
      and status are chosen. */
  function Submission(p: Page, e: UiEvent): (r: Option<FormData>)
    ensures r.Some? <==>
              e.Finish? && p.step == LastStep && p.form.education.school != "" && p.form.education.status != ""
    ensures r.Some? ==> r.value == p.form
    ensures Reachable(p) && r.Some? ==>
              && JsText.Trim(r.value.exam) != ""
              && (r.value.gender == "male" || r.value.gender == "female")
              && r.value.education.school != "" && r.value.education.status != ""
  {
    if e.Finish? && p.step == LastStep && p.form.education.school != "" && p.form.education.status != "" then
      Some(p.form)
    else
      None
  }

  function Run(p: Page, events: seq<UiEvent>): Page
    decreases |events|
  {
    if events == [] then p else Run(Transition(p, events[0]), events[1..])
  }

  // ----------------------------------------------------------------------------
  // Properties of the wizard
  // ----------------------------------------------------------------------------

  /** What holds on every page the wizard can show: the step is between 1 and 6; on
      steps 4 and 5 `gender` holds the yes/no answer, on step 6 the gender answer; from
      step 5 on the exam name is not blank. */
  predicate Reachable(p: Page) {
    && 1 <= p.step <= LastStep
    && (p.step == 4 || p.step == 5 ==> p.form.gender == "yes" || p.form.gender == "no")
    && (p.step == 6 ==> p.form.gender == "male" || p.form.gender == "female")
    && (p.step >= 5 ==> JsText.Trim(p.form.exam) != "")
  }

  lemma TransitionKeepsReachable(p: Page, e: UiEvent)
    requires Reachable(p)
    ensures Reachable(Transition(p, e))
  {
  }

  lemma {:induction false} RunKeepsReachable(p: Page, events: seq<UiEvent>)
    requires Reachable(p)
    ensures Reachable(Run(p, events))
    decreases |events|
  {
    if events != [] {
      TransitionKeepsReachable(p, events[0]);
      RunKeepsReachable(Transition(p, events[0]), events[1..]);
    }
  }

  /** Every page reachable from the first render satisfies `Reachable`. */
  lemma ReachableFromStart(events: seq<UiEvent>)
    ensures Reachable(Run(InitialPage(), events))
  {
    RunKeepsReachable(InitialPage(), events);
  }

  /** Only the exam step writes `exam`; only steps 3 and 5 write `gender`. */
  lemma WhoWritesWhat(p: Page, e: UiEvent)
    ensures Transition(p, e).form.exam != p.form.exam ==> p.step == 4 && e.ExamInput?
    ensures Transition(p, e).form.gender != p.form.gender ==>
              (p.step == 3 && e.FirstExamAnswer?) || (p.step == 5 && e.GenderAnswer?)
  {
  }

  /** The wizard reaches the last step from the first render: sign up, two "next"s, an
      answer, an exam name and a gender answer. */
  lemma SixStepsToTheEnd(yes: bool, exam: string, male: bool)
    requires JsText.Trim(exam) != ""
    ensures Run(InitialPage(), [Next, Next, FirstExamAnswer(yes), ExamInput(exam), Next, GenderAnswer(male)]).step == LastStep
  {
    var events := [Next, Next, FirstExamAnswer(yes), ExamInput(exam), Next, GenderAnswer(male)];
    var p0 := InitialPage();
    var p1 := Transition(p0, Next);
    assert p1.step == 2;
    var p2 := Transition(p1, Next);
    assert p2.step == 3;
    var p3 := Transition(p2, FirstExamAnswer(yes));
    assert p3.step == 4;
    var p4 := Transition(p3, ExamInput(exam));
    assert p4.step == 4 && p4.form.exam == exam;
    var p5 := Transition(p4, Next);
    assert p5.step == 5;
    var p6 := Transition(p5, GenderAnswer(male));
    assert p6.step == 6;
    RunFirst(p0, events);
    RunFirst(p1, events[1..]);
    RunFirst(p2, events[2..]);
    RunFirst(p3, events[3..]);
    RunFirst(p4, events[4..]);
    RunFirst(p5, events[5..]);
    assert events[6..] == [];
  }

  lemma RunFirst(p: Page, events: seq<UiEvent>)
    requires events != []
    ensures Run(p, events) == Run(Transition(p, events[0]), events[1..])
  {
  }

  /** A blank exam name keeps the wizard on step 4, however often "next" is pressed. */
  lemma BlankExamBlocksNext(p: Page)
    requires p.step == 4 && forall i :: 0 <= i < |p.form.exam| ==> JsText.IsJsWhitespace(p.form.exam[i])
    ensures Transition(p, Next) == p
  {
    JsText.TrimEmptyIffBlank(p.form.exam);
  }

  // ----------------------------------------------------------------------------
  // The component
  // ----------------------------------------------------------------------------

  class RegisterPage {
    var step: int
    var formData: FormData

    function Snapshot(): Page
      reads this
    {
      Page(step, formData)
    }

    constructor ()
      ensures Snapshot() == InitialPage()
    {
      step := 1;
      formData := FormData("", "", "", "", "", Education("", ""));
    }

    method HandleSignupChange(field: Field, value: string)
      modifies this
      ensures step == old(step) && formData == WithField(old(formData), field, value)
    {
      formData := match field
        case Username => formData.(username := value)
        case Password => formData.(password := value)
        case PasswordConfirm => formData.(passwordConfirm := value)
        case Exam => formData.(exam := value)
        case Gender => formData.(gender := value);
    }

    method HandleNext()
      modifies this
      ensures step == old(step) + 1 && formData == old(formData)
    {
      step := step + 1;
    }

    /** Logs the form and changes nothing. */
    method HandleFinish() returns (logged: FormData)
      ensures logged == formData
    {
      logged := formData;
    }

    method SetSchool(value: string)
      modifies this
      ensures step == old(step) && formData == WithSchool(old(formData), value)
    {
      formData := formData.(education := formData.education.(school := value));
    }

    method SetStatus(value: string)
      modifies this
      ensures step == old(step) && formData == WithStatus(old(formData), value)
    {
      formData := formData.(education := formData.education.(status := value));
    }

    /** The user acts on the current step: the step component calls the page's
        handlers as its controls allow. */
    method Dispatch(e: UiEvent) returns (logged: Option<FormData>)
      modifies this
      ensures Snapshot() == Transition(old(Snapshot()), e)
      ensures logged == Submission(old(Snapshot()), e)
    {
      logged := None;
      match e {
        case SignupInput(f, v) =>
          if step == 1 {
            HandleSignupChange(FieldOf(f), v);
          }
        case Next =>
          if step == 1 || step == 2 || (step == 4 && JsText.Trim(formData.exam) != "") {
            HandleNext();
          }
        case FirstExamAnswer(yes) =>
          if step == 3 {
            formData := formData.(gender := if yes then "yes" else "no");
            HandleNext();
          }
        case ExamInput(v) =>
          if step == 4 {
            formData := formData.(exam := v);
          }
        case GenderAnswer(male) =>
          if step == 5 {
            formData := formData.(gender := if male then "male" else "female");
            HandleNext();
          }
        case SchoolChange(v) =>
          if step == 6 {
            SetSchool(v);
          }
        case StatusChange(v) =>
          if step == 6 {
            SetStatus(v);
          }
        case Finish =>
          if step == LastStep && formData.education.school != "" && formData.education.status != "" {
            var form := HandleFinish();
            logged := Some(form);
          }
      }
    }
  }
}
