/** The first draft of the form controller (the `useFormState` hook used by
    the create and update pages). */
module FormState {
  import opened Wrappers
  import opened Text
  import opened Types
  import SectionOps
  import opened Validation
  import opened SaveDecision

  const SaveFailed := "Failed to save data."

  class FormStateHook {
    /** `existingFormData`: the stored form being edited, if any. */
    const existing: Option<AnamnesisForm>
    var formTitle: string
    var formDescription: string
    var sections: seq<Section>
    var isSaving: bool
    var error: Option<string>

    /** A draft starts from the stored form, or empty. */
    constructor (existing: Option<AnamnesisForm>)
      ensures this.existing == existing
      ensures existing.Some? ==> formTitle == existing.value.title && formDescription == existing.value.description
                                 && sections == existing.value.sections
      ensures existing.None? ==> formTitle == "" && formDescription == "" && sections == []
      ensures !isSaving && error == None
    {
      this.existing := existing;
      formTitle := if existing.Some? then existing.value.title else "";
      formDescription := if existing.Some? then existing.value.description else "";
      sections := if existing.Some? then existing.value.sections else [];
      isSaving := false;
      error := None;
    }

    method AddSection(freshId: string)
      modifies this`sections
      ensures sections == SectionOps.AddSection(old(sections), freshId)
    {
      sections := SectionOps.AddSection(sections, freshId);
    }

    method AddQuestion(sectionId: string, kind: QuestionType, freshId: string)
      modifies this`sections
      ensures sections == SectionOps.AddQuestion(old(sections), sectionId, kind, freshId)
    {
      sections := SectionOps.AddQuestion(sections, sectionId, kind, freshId);
    }

    method UpdateQuestion(sectionId: string, updated: Question)
      modifies this`sections
      ensures sections == SectionOps.UpdateQuestion(old(sections), sectionId, updated)
    {
      sections := SectionOps.UpdateQuestion(sections, sectionId, updated);
    }

    method RemoveQuestion(sectionId: string, questionId: string)
      modifies this`sections
      ensures sections == SectionOps.RemoveQuestion(old(sections), sectionId, questionId)
    {
      sections := SectionOps.RemoveQuestion(sections, sectionId, questionId);
    }

    /** `validateForm`: loops that return at the first failing rule. */
    method ValidateForm() returns (result: Option<string>)
      ensures result == ValidateFormState(formTitle, formDescription, sections)
    {
      if IsBlank(formTitle) {
        return Some(FormTitleRequired);
      }
      if IsBlank(formDescription) {
        return Some(FormDescriptionRequired);
      }
      if |sections| == 0 {
        return Some(SectionRequired);
      }
      for i := 0 to |sections|
        invariant FirstSectionError(sections[i..], QuestionErrorTwoChecks) == FirstSectionError(sections, QuestionErrorTwoChecks)
      {
        var section := sections[i];
        assert sections[i..][0] == section;
        if IsBlank(section.title) {
          assert FirstSectionError(sections[i..], QuestionErrorTwoChecks) == Some(SectionTitleRequired);
          return Some(SectionTitleRequired);
        }
        if |section.questions| == 0 {
          assert FirstSectionError(sections[i..], QuestionErrorTwoChecks) == Some(SectionQuestionRequired);
          return Some(SectionQuestionRequired);
        }
        for j := 0 to |section.questions|
          invariant FirstQuestionError(section.questions[j..], QuestionErrorTwoChecks) ==
                    FirstQuestionError(section.questions, QuestionErrorTwoChecks)
        {
          var question := section.questions[j];
          assert section.questions[j..][0] == question;
          if question.kind == ShortText && IsBlank(question.question) {
            assert FirstQuestionError(section.questions[j..], QuestionErrorTwoChecks) == Some(QuestionEmpty);
            return Some(QuestionEmpty);
          }
          if question.kind == LongText && IsBlank(question.question) {
            assert FirstQuestionError(section.questions[j..], QuestionErrorTwoChecks) == Some(QuestionEmpty);
            return Some(QuestionEmpty);
          }
          assert section.questions[j..][1..] == section.questions[j + 1..];
        }
        assert section.questions[|section.questions|..] == [];
        assert sections[i..][1..] == sections[i + 1..];
      }
      assert sections[|sections|..] == [];
      return None;
    }

    /** `handleSave`: an invalid draft only records the message; a valid one
        marks the draft as saving, clears the error and sends the request
        chosen by the stored form's id. A thrown request records a fixed
        message and leaves `isSaving` set; a non-ok response is not checked. */
    method HandleSave(freshId: int, now: string, outcome: Outcome<()>) returns (request: Option<SaveRequest>)
      modifies this`isSaving, this`error
      ensures var invalid := ValidateFormState(formTitle, formDescription, sections);
        && (invalid.Some? ==> request == None && error == invalid && isSaving == old(isSaving))
        && (invalid.None? ==>
              && request == Some(SaveRequestFor(existing, formTitle, formDescription, sections, freshId, now))
              && isSaving
              && error == (if outcome.Threw? then Some(SaveFailed) else None))
    {
      var validationError := ValidateForm();
      if validationError.Some? {
        error := validationError;
        return None;
      }
      isSaving := true;
      error := None;
      request := Some(SaveRequestFor(existing, formTitle, formDescription, sections, freshId, now));
      if outcome.Threw? {
        error := Some(SaveFailed);
      }
    }
  }
}
