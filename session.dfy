/**
 * The session controller of `create_streamlit_app`: the three keys it keeps
 * in the per-user session state (`prev_analysis_type`, `result`, `messages`)
 * and the three events that change them on each rerun of the script:
 * choosing an analysis kind, pressing "Generate Analysis", and submitting a
 * follow-up question.
 *
 * The hosted model is a parameter `model: Prompt -> string`; a `Prompt`
 * records exactly what a template interpolates, not the template's fixed
 * instruction text.
 */
module Session {
  import opened Wrappers
  import opened PyStr
  import opened Extraction

  /** The seven entries of the analysis selector. */
  datatype AnalysisKind =
    | BasicAnalysis | SkillGapAnalysis | CoverLetter | InterviewPrep
    | ResumeVersions | IndustryFeedback | GrammarCheck

  /** A prompt sent to the hosted model, by template and interpolated values. */
  datatype Prompt =
    | MatchPrompt(resume: string, job: string)
    | SkillGapPrompt(resume: string, job: string)
    | CoverLetterPrompt(resume: string, job: string)
    | InterviewPrompt(resume: string, job: string)
    | VersionsPrompt(resume: string, job: string)
    | IndustryLabelPrompt(job: string)
    | IndustryFeedbackPrompt(industry: string, resume: string, job: string)
    | FollowUpPrompt(question: string, resume: string, job: string)

  datatype Role = User | Assistant

  /** One entry of `messages`: `{"role": ..., "content": ...}`. */
  datatype Turn = Turn(role: Role, content: string)

  /**
   * The analysis a kind dispatches to. Grammar Check has no branch (it is
   * commented out), so pressing Generate with it leaves `result` unbound:
   * None here. Industry feedback first asks for a label and embeds that
   * reply, stripped of surrounding whitespace, in its second prompt.
   */
  function Analyze(kind: AnalysisKind, resume: string, job: string, model: Prompt -> string): (r: Option<string>)
    ensures r.None? <==> kind == GrammarCheck
    ensures kind == BasicAnalysis ==> r == Some(model(MatchPrompt(resume, job)))
    ensures kind == SkillGapAnalysis ==> r == Some(model(SkillGapPrompt(resume, job)))
    ensures kind == CoverLetter ==> r == Some(model(CoverLetterPrompt(resume, job)))
    ensures kind == InterviewPrep ==> r == Some(model(InterviewPrompt(resume, job)))
    ensures kind == ResumeVersions ==> r == Some(model(VersionsPrompt(resume, job)))
    ensures kind == IndustryFeedback ==>
      var industry := Strip(model(IndustryLabelPrompt(job)));
      r == Some(model(IndustryFeedbackPrompt(industry, resume, job)))
  {
    match kind
    case BasicAnalysis => Some(model(MatchPrompt(resume, job)))
    case SkillGapAnalysis => Some(model(SkillGapPrompt(resume, job)))
    case CoverLetter => Some(model(CoverLetterPrompt(resume, job)))
    case InterviewPrep => Some(model(InterviewPrompt(resume, job)))
    case ResumeVersions => Some(model(VersionsPrompt(resume, job)))
    case IndustryFeedback =>
      var industry := Strip(model(IndustryLabelPrompt(job)));
      Some(model(IndustryFeedbackPrompt(industry, resume, job)))
    case GrammarCheck => None
  }

  /** The session-state keys; None is a key that is absent (never set, or popped). */
  datatype SessionView = SessionView(
    prevKind: Option<AnalysisKind>,
    result: Option<string>,
    messages: Option<seq<Turn>>)

  const Fresh := SessionView(None, None, None)

  /** A transcript of question-and-answer pairs: user, assistant, user, assistant, ... */
  ghost predicate Alternating(ms: seq<Turn>) {
    && |ms| % 2 == 0
    && forall i :: 0 <= i < |ms| ==> ms[i].role == (if i % 2 == 0 then User else Assistant)
  }

  /**
   * What every rerun keeps true: `result` and `messages` are present together,
   * the transcript alternates, and a result belongs to the selected kind,
   * which is never Grammar Check.
   */
  ghost predicate Consistent(v: SessionView) {
    && (v.result.Some? <==> v.messages.Some?)
    && (v.messages.Some? ==> Alternating(v.messages.value))
    && (v.result.Some? ==> v.prevKind.Some? && v.prevKind.value != GrammarCheck)
  }

  /** Choosing a kind: a different kind is recorded and drops `result` and `messages`. */
  function SelectStep(v: SessionView, kind: AnalysisKind): (w: SessionView)
    ensures w.prevKind == Some(kind)
    ensures v.prevKind != Some(kind) ==> w.result.None? && w.messages.None?
    ensures v.prevKind == Some(kind) ==> w == v
  {
    if v.prevKind != Some(kind) then SessionView(Some(kind), None, None) else v
  }

  /**
   * Pressing Generate with the selected kind: the analysis becomes `result`
   * and `messages` is emptied. None when the run raises (Grammar Check), in
   * which case the state is left as it was.
   */
  function GenerateStep(v: SessionView, kind: AnalysisKind, resume: string, job: string, model: Prompt -> string)
    : (w: Option<SessionView>)
    requires v.prevKind == Some(kind)
    ensures w.None? <==> kind == GrammarCheck
    ensures w.Some? ==>
      && w.value.prevKind == v.prevKind
      && w.value.result == Analyze(kind, resume, job, model)
      && w.value.messages == Some([])
  {
    match Analyze(kind, resume, job, model)
    case None => None
    case Some(text) => Some(v.(result := Some(text), messages := Some([])))
  }

  /** The two turns one follow-up question adds. */
  function Exchange(question: string, resume: string, job: string, model: Prompt -> string): seq<Turn> {
    [Turn(User, question), Turn(Assistant, model(FollowUpPrompt(question, resume, job)))]
  }

  /**
   * Submitting a follow-up: only when a result is shown and the question is
   * non-empty, the question and then the model's answer are appended.
   */
  function FollowUpStep(v: SessionView, question: Option<string>, resume: string, job: string, model: Prompt -> string)
    : (w: SessionView)
    requires Consistent(v)
    ensures Consistent(w)
    ensures w.prevKind == v.prevKind && w.result == v.result
    ensures v.result.None? || question.None? || question.value == "" ==> w == v
    ensures v.result.Some? && question.Some? && question.value != "" ==>
      w.messages == Some(v.messages.value + Exchange(question.value, resume, job, model))
  {
    if v.result.Some? && question.Some? && question.value != "" then
      var ms := v.messages.value + Exchange(question.value, resume, job, model);
      AlternatingExtend(v.messages.value, Exchange(question.value, resume, job, model));
      v.(messages := Some(ms))
    else v
  }

  lemma AlternatingExtend(ms: seq<Turn>, pair: seq<Turn>)
    requires Alternating(ms) && |pair| == 2 && pair[0].role == User && pair[1].role == Assistant
    ensures Alternating(ms + pair)
  {
  }

  /** The uploads of one rerun: the names of the resume and job-description files. */
  datatype Uploads = Uploads(resumeName: string, jobName: string)

  /** The state after one rerun of the script, and whether that rerun raised. */
  datatype RunOutcome = RunOutcome(view: SessionView, raised: bool)

  /**
   * One rerun: both uploads are saved and extracted (an extraction error
   * raises before the state is touched), then the selected kind is recorded,
   * then Generate if pressed, then the follow-up question if any.
   */
  function RerunStep(
    v: SessionView, up: Uploads, rd: Readers, kind: AnalysisKind,
    pressed: bool, question: Option<string>, model: Prompt -> string)
    : (r: RunOutcome)
    requires Consistent(v)
    ensures Consistent(r.view)
    ensures ExtractUpload("temp_resume", up.resumeName, rd).Failure? ==> r == RunOutcome(v, true)
    ensures ExtractUpload("temp_job", up.jobName, rd).Failure? ==> r == RunOutcome(v, true)
    ensures r.raised <==>
      || ExtractUpload("temp_resume", up.resumeName, rd).Failure?
      || ExtractUpload("temp_job", up.jobName, rd).Failure?
      || (pressed && kind == GrammarCheck)
    ensures r.raised && r.view != v ==> pressed && kind == GrammarCheck && r.view == SelectStep(v, kind)
    ensures !r.raised ==> r.view.prevKind == Some(kind)
  {
    match ExtractUpload("temp_resume", up.resumeName, rd)
    case Failure(_) => RunOutcome(v, true)
    case Success(resume) =>
      match ExtractUpload("temp_job", up.jobName, rd)
      case Failure(_) => RunOutcome(v, true)
      case Success(job) =>
        var v1 := SelectStep(v, kind);
        if pressed then
          match GenerateStep(v1, kind, resume, job, model)
          case None => RunOutcome(v1, true)
          case Some(v2) => RunOutcome(FollowUpStep(v2, question, resume, job, model), false)
        else RunOutcome(FollowUpStep(v1, question, resume, job, model), false)
  }

  // ------------------------------------------------------------------ lemmas

  /** Choosing the same kind twice is choosing it once. */
  lemma SelectIdempotent(v: SessionView, kind: AnalysisKind)
    ensures SelectStep(SelectStep(v, kind), kind) == SelectStep(v, kind)
  {
  }

  /** Each step keeps the session consistent. */
  lemma StepsKeepConsistent(v: SessionView, kind: AnalysisKind, resume: string, job: string, model: Prompt -> string)
    requires Consistent(v)
    ensures Consistent(SelectStep(v, kind))
    ensures var s := SelectStep(v, kind);
      GenerateStep(s, kind, resume, job, model).Some? ==> Consistent(GenerateStep(s, kind, resume, job, model).value)
  {
  }

  /**
   * Switching to another kind starts the chat afresh: nothing is shown and a
   * follow-up question changes nothing until Generate is pressed again.
   */
  lemma SwitchClearsChat(v: SessionView, b: AnalysisKind, question: Option<string>, resume: string, job: string, model: Prompt -> string)
    requires v.prevKind != Some(b)
    ensures SelectStep(v, b).messages.None? && SelectStep(v, b).result.None?
    ensures FollowUpStep(SelectStep(v, b), question, resume, job, model) == SelectStep(v, b)
  {
  }

  /** The follow-up questions of a conversation, one rerun each. */
  function FollowUps(v: SessionView, qs: seq<string>, resume: string, job: string, model: Prompt -> string)
    : (w: SessionView)
    requires Consistent(v)
    ensures Consistent(w)
    decreases |qs|
  {
    if qs == [] then v else FollowUps(FollowUpStep(v, Some(qs[0]), resume, job, model), qs[1..], resume, job, model)
  }

  /** The turns a list of questions adds: each question's exchange, in order. */
  function Conversation(qs: seq<string>, resume: string, job: string, model: Prompt -> string): seq<Turn>
    decreases |qs|
  {
    if qs == [] then [] else Exchange(qs[0], resume, job, model) + Conversation(qs[1..], resume, job, model)
  }

  /**
   * After a result is shown, a run of non-empty questions appends their
   * exchanges to the transcript in order and leaves every earlier turn as it was.
   */
  lemma {:induction false} FollowUpsAppend(v: SessionView, qs: seq<string>, resume: string, job: string, model: Prompt -> string)
    requires Consistent(v) && v.result.Some?
    requires forall i :: 0 <= i < |qs| ==> qs[i] != ""
    ensures FollowUps(v, qs, resume, job, model).messages == Some(v.messages.value + Conversation(qs, resume, job, model))
    ensures FollowUps(v, qs, resume, job, model).result == v.result
    decreases |qs|
  {
    if qs != [] {
      var v1 := FollowUpStep(v, Some(qs[0]), resume, job, model);
      var e := Exchange(qs[0], resume, job, model);
      var c := Conversation(qs[1..], resume, job, model);
      assert qs[0] != "";
      assert v1.messages == Some(v.messages.value + e);
      assert FollowUps(v, qs, resume, job, model) == FollowUps(v1, qs[1..], resume, job, model);
      FollowUpsAppend(v1, qs[1..], resume, job, model);
      assert Conversation(qs, resume, job, model) == e + c;
      assert v.messages.value + e + c == v.messages.value + (e + c);
    } else {
      assert v.messages.value + [] == v.messages.value;
    }
  }

  /**
   * Turn 2i of a conversation is the i-th question and turn 2i+1 the model's
   * answer to a prompt made of that question, the resume and the job text
   * alone: earlier turns never reach the model.
   */
  lemma {:induction false} ConversationTurns(qs: seq<string>, resume: string, job: string, model: Prompt -> string, i: nat)
    requires i < |qs|
    ensures |Conversation(qs, resume, job, model)| == 2 * |qs|
    ensures Conversation(qs, resume, job, model)[2 * i] == Turn(User, qs[i])
    ensures Conversation(qs, resume, job, model)[2 * i + 1] == Turn(Assistant, model(FollowUpPrompt(qs[i], resume, job)))
    decreases |qs|
  {
    if i > 0 {
      ConversationTurns(qs[1..], resume, job, model, i - 1);
    } else if |qs| > 1 {
      ConversationTurns(qs[1..], resume, job, model, 0);
    } else {
      assert qs[1..] == [];
    }
  }

  // ------------------------------------------------------------------ state

  /** `st.session_state` as far as the controller uses it. */
  class SessionState {
    var prevKind: Option<AnalysisKind>
    var result: Option<string>
    var messages: Option<seq<Turn>>

    function View(): SessionView
      reads this
    {
      SessionView(prevKind, result, messages)
    }

    ghost predicate Valid()
      reads this
    {
      Consistent(View())
    }

    /** A new session: no key is set; `prev_analysis_type` starts as None. */
    constructor ()
      ensures Valid() && View() == Fresh
    {
      prevKind := None;
      result := None;
      messages := None;
    }

    /** Lines choosing the kind: a change is recorded and pops `result` and `messages`. */
    method Select(kind: AnalysisKind)
      requires Valid()
      modifies this
      ensures Valid() && View() == SelectStep(old(View()), kind)
    {
      if prevKind != Some(kind) {
        prevKind := Some(kind);
        result := None;
        messages := None;
      }
    }

    /** "Generate Analysis": store the analysis and empty the chat, or raise for Grammar Check. */
    method Generate(kind: AnalysisKind, resume: string, job: string, model: Prompt -> string) returns (raised: bool)
      requires Valid() && prevKind == Some(kind)
      modifies this
      ensures Valid()
      ensures raised <==> GenerateStep(old(View()), kind, resume, job, model).None?
      ensures View() == if raised then old(View()) else GenerateStep(old(View()), kind, resume, job, model).value
    {
      var analysis := Analyze(kind, resume, job, model);
      if analysis.None? {
        return true;
      }
      result := analysis;
      messages := Some([]);
      raised := false;
    }

    /** A follow-up question: append the user's turn, ask the model, append its answer. */
    method FollowUp(question: Option<string>, resume: string, job: string, model: Prompt -> string)
      requires Valid()
      modifies this
      ensures Valid() && View() == FollowUpStep(old(View()), question, resume, job, model)
    {
      if result.Some? && question.Some? && question.value != "" {
        messages := Some(messages.value + [Turn(User, question.value)]);
        var feedback := model(FollowUpPrompt(question.value, resume, job));
        messages := Some(messages.value + [Turn(Assistant, feedback)]);
        assert messages.value == old(messages.value) + Exchange(question.value, resume, job, model);
      }
    }

    /** One rerun of the script with this session's state. */
    method Rerun(up: Uploads, rd: Readers, kind: AnalysisKind, pressed: bool, question: Option<string>, model: Prompt -> string)
      returns (raised: bool)
      requires Valid()
      modifies this
      ensures Valid()
      ensures RunOutcome(View(), raised) == RerunStep(old(View()), up, rd, kind, pressed, question, model)
    {
      var resumeText := ExtractUpload("temp_resume", up.resumeName, rd);
      if resumeText.Failure? {
        return true;
      }
      var jobText := ExtractUpload("temp_job", up.jobName, rd);
      if jobText.Failure? {
        return true;
      }
      Select(kind);
      if pressed {
        raised := Generate(kind, resumeText.value, jobText.value, model);
        if raised {
          return;
        }
      }
      FollowUp(question, resumeText.value, jobText.value, model);
      raised := false;
    }
  }
}
