/** The ordered, first-failure form validator. Both drafts of the form
    controller walk the form the same way and differ only in how they test a
    question, so the walk is written once and takes the question test as a
    parameter. */
module Validation {
  import opened Wrappers
  import opened Text
  import opened Types

  const FormTitleRequired := "Form title is required."
  const FormDescriptionRequired := "Form description is required."
  const SectionRequired := "At least one section is required."
  const SectionTitleRequired := "Section must have a title."
  const SectionQuestionRequired := "Section must have at least one question."
  const QuestionEmpty := "Question cannot be empty."

  /** Every message validation can report; none of them is empty. */
  const Messages: set<string> := {FormTitleRequired, FormDescriptionRequired, SectionRequired,
                                  SectionTitleRequired, SectionQuestionRequired, QuestionEmpty}

  /** The useFormState test: two separate checks, one per text kind. */
  function QuestionErrorTwoChecks(q: Question): (r: Option<string>)
    ensures r.None? <==> QuestionComplete(q)
    ensures r.Some? ==> r.value == QuestionEmpty
  {
    if q.kind == ShortText && IsBlank(q.question) then Some(QuestionEmpty)
    else if q.kind == LongText && IsBlank(q.question) then Some(QuestionEmpty)
    else None
  }

  /** The kinds listed in `['short_text', 'long_text']`. */
  const TextKinds: seq<QuestionType> := [ShortText, LongText]

  /** The useAnamnesisForm test: membership of the kind in `TextKinds`. */
  function QuestionErrorIncludes(q: Question): (r: Option<string>)
    ensures r.None? <==> QuestionComplete(q)
    ensures r.Some? ==> r.value == QuestionEmpty
  {
    if q.kind in TextKinds && IsBlank(q.question) then Some(QuestionEmpty) else None
  }

  /** The first question, in order, that the test rejects. */
  function FirstQuestionError(questions: seq<Question>, rule: Question -> Option<string>): (r: Option<string>)
    ensures r.None? <==> forall k :: 0 <= k < |questions| ==> rule(questions[k]).None?
    ensures r.Some? ==> exists k :: 0 <= k < |questions| && r == rule(questions[k])
    decreases |questions|
  {
    if questions == [] then None
    else if rule(questions[0]).Some? then rule(questions[0])
    else FirstQuestionError(questions[1..], rule)
  }

  /** One section: its title, then that it has questions, then its questions. */
  function SectionError(section: Section, rule: Question -> Option<string>): (r: Option<string>)
    ensures r.None? <==>
      && !IsBlank(section.title)
      && |section.questions| > 0
      && forall k :: 0 <= k < |section.questions| ==> rule(section.questions[k]).None?
    ensures r.Some? ==>
      || r.value in {SectionTitleRequired, SectionQuestionRequired}
      || exists k :: 0 <= k < |section.questions| && r == rule(section.questions[k])
  {
    if IsBlank(section.title) then Some(SectionTitleRequired)
    else if |section.questions| == 0 then Some(SectionQuestionRequired)
    else FirstQuestionError(section.questions, rule)
  }

  /** The first section, in order, that fails. */
  function FirstSectionError(sections: seq<Section>, rule: Question -> Option<string>): (r: Option<string>)
    ensures r.None? <==> forall k :: 0 <= k < |sections| ==> SectionError(sections[k], rule).None?
    ensures r.Some? ==> exists k :: 0 <= k < |sections| && r == SectionError(sections[k], rule)
    decreases |sections|
  {
    if sections == [] then None
    else if SectionError(sections[0], rule).Some? then SectionError(sections[0], rule)
    else FirstSectionError(sections[1..], rule)
  }

  /** `validateForm`: the message of the first rule that fails, or None. */
  function Validate(title: string, description: string, sections: seq<Section>, rule: Question -> Option<string>): (r: Option<string>)
    ensures r.None? <==>
      && !IsBlank(title) && !IsBlank(description) && |sections| > 0
      && forall k :: 0 <= k < |sections| ==> SectionError(sections[k], rule).None?
    ensures r.Some? ==>
      || r.value in {FormTitleRequired, FormDescriptionRequired, SectionRequired}
      || exists k :: 0 <= k < |sections| && r == SectionError(sections[k], rule)
  {
    if IsBlank(title) then Some(FormTitleRequired)
    else if IsBlank(description) then Some(FormDescriptionRequired)
    else if |sections| == 0 then Some(SectionRequired)
    else FirstSectionError(sections, rule)
  }

  /** useFormState's validator. */
  function ValidateFormState(title: string, description: string, sections: seq<Section>): (r: Option<string>)
    ensures r.None? <==> FormComplete(title, description, sections)
    ensures r.Some? ==> r.value in Messages
  {
    Validate(title, description, sections, QuestionErrorTwoChecks)
  }

  /** useAnamnesisForm's validator. */
  function ValidateAnamnesisForm(title: string, description: string, sections: seq<Section>): (r: Option<string>)
    ensures r.None? <==> FormComplete(title, description, sections)
    ensures r.Some? ==> r.value in Messages
  {
    Validate(title, description, sections, QuestionErrorIncludes)
  }

  // ---- An independent statement of what a complete form is ----

  /** A question kind whose text must not be blank. */
  predicate NeedsText(kind: QuestionType)
  {
    kind == ShortText || kind == LongText
  }

  predicate QuestionComplete(q: Question)
  {
    !(NeedsText(q.kind) && IsBlank(q.question))
  }

  predicate SectionComplete(s: Section)
  {
    && !IsBlank(s.title)
    && |s.questions| > 0
    && forall j :: 0 <= j < |s.questions| ==> QuestionComplete(s.questions[j])
  }

  predicate FormComplete(title: string, description: string, sections: seq<Section>)
  {
    && !IsBlank(title)
    && !IsBlank(description)
    && |sections| > 0
    && forall i :: 0 <= i < |sections| ==> SectionComplete(sections[i])
  }

  // ---- Properties ----

  /** The two question tests agree on every question. */
  lemma QuestionRulesAgree(q: Question)
    ensures QuestionErrorTwoChecks(q) == QuestionErrorIncludes(q)
    ensures QuestionErrorIncludes(q) == if QuestionComplete(q) then None else Some(QuestionEmpty)
  {
  }

  /** A multiple-choice or date/time question never fails, whatever its text. */
  lemma ChoiceAndDateNeverFail(q: Question)
    requires q.kind == MultipleChoice || q.kind == DateTime
    ensures QuestionErrorTwoChecks(q) == None && QuestionErrorIncludes(q) == None
  {
  }

  lemma {:induction false} FirstQuestionErrorRulesAgree(questions: seq<Question>)
    ensures FirstQuestionError(questions, QuestionErrorTwoChecks) == FirstQuestionError(questions, QuestionErrorIncludes)
    decreases |questions|
  {
    if questions != [] {
      QuestionRulesAgree(questions[0]);
      FirstQuestionErrorRulesAgree(questions[1..]);
    }
  }

  lemma {:induction false} FirstSectionErrorRulesAgree(sections: seq<Section>)
    ensures FirstSectionError(sections, QuestionErrorTwoChecks) == FirstSectionError(sections, QuestionErrorIncludes)
    decreases |sections|
  {
    if sections != [] {
      FirstQuestionErrorRulesAgree(sections[0].questions);
      FirstSectionErrorRulesAgree(sections[1..]);
    }
  }

  /** The two drafts' validators return the same result on every form. */
  lemma ValidatorsAgree(title: string, description: string, sections: seq<Section>)
    ensures ValidateFormState(title, description, sections) == ValidateAnamnesisForm(title, description, sections)
  {
    FirstSectionErrorRulesAgree(sections);
  }

  lemma {:induction false} FirstQuestionErrorSpec(questions: seq<Question>)
    ensures FirstQuestionError(questions, QuestionErrorIncludes) ==
      if forall j :: 0 <= j < |questions| ==> QuestionComplete(questions[j]) then None else Some(QuestionEmpty)
    decreases |questions|
  {
    if questions != [] {
      QuestionRulesAgree(questions[0]);
      FirstQuestionErrorSpec(questions[1..]);
      assert forall j :: 1 <= j < |questions| ==> questions[j] == questions[1..][j - 1];
    }
  }

  /** A section fails with the message of the first of its rules that it
      breaks: title, then having questions, then the questions' text. */
  lemma SectionErrorSpec(s: Section)
    ensures SectionError(s, QuestionErrorIncludes) ==
      if IsBlank(s.title) then Some(SectionTitleRequired)
      else if |s.questions| == 0 then Some(SectionQuestionRequired)
      else if exists j :: 0 <= j < |s.questions| && !QuestionComplete(s.questions[j]) then Some(QuestionEmpty)
      else None
    ensures SectionError(s, QuestionErrorIncludes) == None <==> SectionComplete(s)
  {
    FirstQuestionErrorSpec(s.questions);
  }

  /** The section walk reports exactly the error of the first failing
      section, after sections that all pass. */
  lemma {:induction false} FirstSectionErrorSpec(sections: seq<Section>, m: string)
    ensures FirstSectionError(sections, QuestionErrorIncludes) == Some(m) <==>
      exists k :: 0 <= k < |sections| &&
        (forall i :: 0 <= i < k ==> SectionComplete(sections[i])) &&
        SectionError(sections[k], QuestionErrorIncludes) == Some(m)
    decreases |sections|
  {
    if sections != [] {
      var rest := sections[1..];
      SectionErrorSpec(sections[0]);
      FirstSectionErrorSpec(rest, m);
      if SectionError(sections[0], QuestionErrorIncludes).None? {
        assert FirstSectionError(sections, QuestionErrorIncludes) == FirstSectionError(rest, QuestionErrorIncludes);
        FirstSectionErrorShift(sections, m);
      } else {
        assert !SectionComplete(sections[0]);
        if FirstSectionError(sections, QuestionErrorIncludes) == Some(m) {
          assert SectionError(sections[0], QuestionErrorIncludes) == Some(m);
        }
      }
    }
  }

  /** Helper for `FirstSectionErrorSpec`: when the first section is complete,
      the first failing section of the whole list is one past the first
      failing section of the rest. */
  lemma FirstSectionErrorShift(sections: seq<Section>, m: string)
    requires |sections| > 0 && SectionComplete(sections[0])
    ensures (exists k :: 0 <= k < |sections| &&
              (forall i :: 0 <= i < k ==> SectionComplete(sections[i])) &&
              SectionError(sections[k], QuestionErrorIncludes) == Some(m))
        <==>
            (exists k :: 0 <= k < |sections| - 1 &&
              (forall i :: 0 <= i < k ==> SectionComplete(sections[1..][i])) &&
              SectionError(sections[1..][k], QuestionErrorIncludes) == Some(m))
  {
    var rest := sections[1..];
    SectionErrorSpec(sections[0]);
    if exists k :: 0 <= k < |rest| && (forall i :: 0 <= i < k ==> SectionComplete(rest[i])) &&
                   SectionError(rest[k], QuestionErrorIncludes) == Some(m) {
      var k :| 0 <= k < |rest| && (forall i :: 0 <= i < k ==> SectionComplete(rest[i])) &&
               SectionError(rest[k], QuestionErrorIncludes) == Some(m);
      assert forall i :: 0 < i < k + 1 ==> sections[i] == rest[i - 1];
      assert sections[k + 1] == rest[k];
    }
    if exists k :: 0 <= k < |sections| && (forall i :: 0 <= i < k ==> SectionComplete(sections[i])) &&
                   SectionError(sections[k], QuestionErrorIncludes) == Some(m) {
      var k :| 0 <= k < |sections| && (forall i :: 0 <= i < k ==> SectionComplete(sections[i])) &&
               SectionError(sections[k], QuestionErrorIncludes) == Some(m);
      assert k > 0;
      assert forall i :: 0 <= i < k - 1 ==> rest[i] == sections[i + 1];
      assert rest[k - 1] == sections[k];
    }
  }

  /** The section walk passes exactly when every section is complete. */
  lemma {:induction false} FirstSectionErrorNone(sections: seq<Section>)
    ensures FirstSectionError(sections, QuestionErrorIncludes) == None <==>
      forall i :: 0 <= i < |sections| ==> SectionComplete(sections[i])
    decreases |sections|
  {
    if sections != [] {
      SectionErrorSpec(sections[0]);
      FirstSectionErrorNone(sections[1..]);
      assert forall i :: 1 <= i < |sections| ==> sections[i] == sections[1..][i - 1];
    }
  }

  /** Validation passes exactly when the form is complete; otherwise the
      message is that of the first rule broken, in the order title,
      description, presence of sections, then section by section. */
  lemma ValidateSpec(title: string, description: string, sections: seq<Section>)
    ensures ValidateAnamnesisForm(title, description, sections) == None <==> FormComplete(title, description, sections)
    ensures IsBlank(title) ==> ValidateAnamnesisForm(title, description, sections) == Some(FormTitleRequired)
    ensures !IsBlank(title) && IsBlank(description) ==>
      ValidateAnamnesisForm(title, description, sections) == Some(FormDescriptionRequired)
    ensures !IsBlank(title) && !IsBlank(description) && |sections| == 0 ==>
      ValidateAnamnesisForm(title, description, sections) == Some(SectionRequired)
    ensures !IsBlank(title) && !IsBlank(description) && |sections| > 0 ==>
      ValidateAnamnesisForm(title, description, sections) == FirstSectionError(sections, QuestionErrorIncludes)
  {
    FirstSectionErrorNone(sections);
  }

  /** The draft with title "X", description "Y" and one section "S1" holding
      one short-text question with empty text fails on that question. */
  lemma EmptyShortTextScenario()
    ensures ValidateFormState("X", "Y", [Section("s", "S1", [Question("q", ShortText, "", Some([]))])]) == Some(QuestionEmpty)
  {
    assert !IsBlank("X") by { assert "X"[0] == 'X'; }
    assert !IsBlank("Y") by { assert "Y"[0] == 'Y'; }
    assert !IsBlank("S1") by { assert "S1"[0] == 'S'; }
  }
}
