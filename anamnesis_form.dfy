/** The second draft of the form controller (the `useAnamnesisForm` hook):
    the same draft editing as `FormState`, plus the detail view's modal,
    pending section deletion and reordering that is saved at once. */
module AnamnesisFormHook {
  import opened Wrappers
  import opened Text
  import opened Types
  import opened DnDUtils
  import SectionOps
  import opened Validation
  import opened SaveDecision

  /** The modal's `type`: '', 'error', 'success' or 'confirm'. */
  datatype ModalKind = NoModal | ErrorModal | SuccessModal | ConfirmModal

  datatype ModalState = ModalState(kind: ModalKind, isActive: bool)

  const InitialModal := ModalState(NoModal, false)

  const DeleteSectionFailed := "Failed to delete the section."
  const UpdateFormFailed := "Failed to update the form data."

  /** The PATCH sent to delete a section of a stored form: its id and the
      sections that remain. */
  datatype SectionsPatch = SectionsPatch(formId: int, sections: seq<Section>)

  class AnamnesisFormController {
    const existing: Option<AnamnesisForm>
    var formTitle: string
    var sections: seq<Section>
    var formDescription: string
    var selectedAnamnesis: AnamnesisForm
    var sectionToDelete: Option<string>
    var showModal: ModalState
    var isSaving: bool
    var isLoading: bool
    var error: Option<string>

    constructor (existing: Option<AnamnesisForm>)
      ensures this.existing == existing
      ensures existing.Some? ==> formTitle == existing.value.title && formDescription == existing.value.description
                                 && sections == existing.value.sections
      ensures existing.None? ==> formTitle == "" && formDescription == "" && sections == []
      ensures selectedAnamnesis == InitialAnamnesis && sectionToDelete == None && showModal == InitialModal
      ensures !isSaving && isLoading && error == None
    {
      this.existing := existing;
      formTitle := if existing.Some? then existing.value.title else "";
      sections := if existing.Some? then existing.value.sections else [];
      formDescription := if existing.Some? then existing.value.description else "";
      selectedAnamnesis := InitialAnamnesis;
      sectionToDelete := None;
      showModal := InitialModal;
      isSaving := false;
      isLoading := true;
      error := None;
    }

    /** `fetchFormData`: whatever body arrives becomes the selected form (the
        response's `ok` flag is not looked at); a thrown request records its
        message. Loading ends either way. */
    method FetchFormData(outcome: Outcome<AnamnesisForm>)
      modifies this`selectedAnamnesis, this`error, this`isLoading
      ensures !isLoading
      ensures outcome.Responded? ==> selectedAnamnesis == outcome.body && error == old(error)
      ensures outcome.Threw? ==> selectedAnamnesis == old(selectedAnamnesis) && error == Some(outcome.message)
    {
      match outcome {
        case Responded(_, form) => selectedAnamnesis := form;
        case Threw(message) => error := Some(message);
      }
      isLoading := false;
    }

    /** `validateForm`: loops that return at the first failing rule. */
    method ValidateForm() returns (result: Option<string>)
      ensures result == ValidateAnamnesisForm(formTitle, formDescription, sections)
    {
      if IsBlank(formTitle) {
        return Some(FormTitleRequired);
      }
      if IsBlank(formDescription) {
        return Some(FormDescriptionRequired);
      }
      if |sections| == 0 {
        return Some(SectionRequired);
      }
      for i := 0 to |sections|
        invariant FirstSectionError(sections[i..], QuestionErrorIncludes) == FirstSectionError(sections, QuestionErrorIncludes)
      {
        var section := sections[i];
        if IsBlank(section.title) {
          return Some(SectionTitleRequired);
        }
        if |section.questions| == 0 {
          return Some(SectionQuestionRequired);
        }
        for j := 0 to |section.questions|
          invariant FirstQuestionError(section.questions[j..], QuestionErrorIncludes) ==
                    FirstQuestionError(section.questions, QuestionErrorIncludes)
        {
          var question := section.questions[j];
          if question.kind in TextKinds && IsBlank(question.question) {
            return Some(QuestionEmpty);
          }
          assert section.questions[j..][1..] == section.questions[j + 1..];
        }
        assert section.questions[|section.questions|..] == [];
        assert sections[i..][1..] == sections[i + 1..];
      }
      assert sections[|sections|..] == [];
      return None;
    }

    /** `handleSave`: an invalid draft only records the message; a valid one
        marks the draft as saving, clears the error and sends the request
        chosen by the stored form's id. Any response, ok or not, opens the
        success modal; a thrown request records its message and leaves
        `isSaving` set. */
    method HandleSave(freshId: int, now: string, outcome: Outcome<()>) returns (request: Option<SaveRequest>)
      modifies this`isSaving, this`error, this`showModal
      ensures var invalid := ValidateAnamnesisForm(formTitle, formDescription, sections);
        && (invalid.Some? ==>
              request == None && error == invalid && isSaving == old(isSaving) && showModal == old(showModal))
        && (invalid.None? ==>
              && request == Some(SaveRequestFor(existing, formTitle, formDescription, sections, freshId, now))
              && isSaving
              && (outcome.Responded? ==> error == None && showModal == ModalState(SuccessModal, true))
              && (outcome.Threw? ==> error == Some(outcome.message) && showModal == old(showModal)))
    {
      var validationError := ValidateForm();
      if validationError.Some? {
        error := validationError;
        return None;
      }
      isSaving := true;
      error := None;
      request := Some(SaveRequestFor(existing, formTitle, formDescription, sections, freshId, now));
      match outcome {
        case Responded(_, _) => showModal := ModalState(SuccessModal, true);
        case Threw(message) => error := Some(message);
      }
    }

    /** `handleOnCloseModal` as run by a handler created when `isSaving` and
        `error` had the given values: it always closes the modal, clears the
        error and ends saving, and navigates home only for a save that was in
        progress with no error. */
    method CloseModalWith(renderedIsSaving: bool, renderedError: Option<string>) returns (navigateHome: bool)
      modifies this`showModal, this`error, this`isSaving
      ensures showModal == InitialModal && error == None && !isSaving
      ensures navigateHome == (renderedIsSaving && Falsy(renderedError))
    {
      showModal := InitialModal;
      error := None;
      navigateHome := renderedIsSaving && Falsy(renderedError);
      isSaving := false;
    }

    /** `handleOnCloseModal`, called from the modal. */
    method HandleOnCloseModal() returns (navigateHome: bool)
      modifies this`showModal, this`error, this`isSaving
      ensures showModal == InitialModal && error == None && !isSaving
      ensures navigateHome == (old(isSaving) && Falsy(old(error)))
    {
      navigateHome := CloseModalWith(isSaving, error);
    }

    /** Pressing "Save" and then closing the modal that follows. A valid
        draft leads home exactly when the request got a response: a thrown
        request leaves an error behind, which is always truthy. */
    method SaveThenCloseModal(freshId: int, now: string, outcome: Outcome<()>) returns (request: Option<SaveRequest>, navigateHome: bool)
      modifies this`isSaving, this`error, this`showModal
      ensures ValidateAnamnesisForm(formTitle, formDescription, sections) == None ==>
        request.Some? && (navigateHome <==> outcome.Responded?)
      ensures ValidateAnamnesisForm(formTitle, formDescription, sections).Some? ==>
        request == None && !navigateHome
      ensures showModal == InitialModal && error == None && !isSaving
    {
      request := HandleSave(freshId, now, outcome);
      navigateHome := HandleOnCloseModal();
    }

    /** `handleDeleteClick`: remember the section and ask for confirmation. */
    method HandleDeleteClick(sectionId: string)
      modifies this`sectionToDelete, this`showModal
      ensures sectionToDelete == Some(sectionId) && showModal == ModalState(ConfirmModal, true)
    {
      sectionToDelete := Some(sectionId);
      showModal := ModalState(ConfirmModal, true);
    }

    /** `handleCancelDelete`: close the modal, then forget the pending section. */
    method HandleCancelDelete() returns (navigateHome: bool)
      modifies this`showModal, this`error, this`isSaving, this`sectionToDelete
      ensures showModal == InitialModal && error == None && !isSaving && sectionToDelete == None
      ensures navigateHome == (old(isSaving) && Falsy(old(error)))
    {
      navigateHome := CloseModalWith(isSaving, error);
      sectionToDelete := None;
    }

    /** `handleDeleteSectionDetail`: with no pending section nothing happens.
        Otherwise the remaining sections are sent as a PATCH; only an ok
        response removes the section locally. Whatever the outcome, the
        modal is then closed (with the `isSaving` and `error` the handler was
        created with), which also clears any error just recorded, and the
        pending section is forgotten. */
    method HandleDeleteSectionDetail(outcome: Outcome<()>) returns (patch: Option<SectionsPatch>, navigateHome: bool)
      modifies this`selectedAnamnesis, this`error, this`showModal, this`isSaving, this`sectionToDelete
      ensures Falsy(old(sectionToDelete)) ==>
        && patch == None && !navigateHome
        && selectedAnamnesis == old(selectedAnamnesis) && error == old(error) && showModal == old(showModal)
        && isSaving == old(isSaving) && sectionToDelete == old(sectionToDelete)
      ensures !Falsy(old(sectionToDelete)) ==>
        var remaining := SectionOps.DeleteSection(old(selectedAnamnesis.sections), old(sectionToDelete).value);
        && patch == Some(SectionsPatch(old(selectedAnamnesis.id), remaining))
        && selectedAnamnesis == (if outcome.Responded? && outcome.ok
                                 then old(selectedAnamnesis).(sections := remaining)
                                 else old(selectedAnamnesis))
        && sectionToDelete == None
        && showModal == InitialModal && error == None && !isSaving
        && navigateHome == (old(isSaving) && Falsy(old(error)))
    {
      if Falsy(sectionToDelete) {
        return None, false;
      }
      var pending := sectionToDelete.value;
      var renderedIsSaving, renderedError := isSaving, error;
      var remaining := SectionOps.DeleteSection(selectedAnamnesis.sections, pending);
      patch := Some(SectionsPatch(selectedAnamnesis.id, remaining));
      match outcome {
        case Responded(ok, _) =>
          if ok {
            selectedAnamnesis := selectedAnamnesis.(sections := SectionOps.DeleteSection(selectedAnamnesis.sections, pending));
          } else {
            error := Some(DeleteSectionFailed);
          }
        case Threw(message) => error := Some(message);
      }
      navigateHome := CloseModalWith(renderedIsSaving, renderedError);
      sectionToDelete := None;
    }

    /** `updateSectionsOnServer`: an ok response opens the success modal; a
        failed or thrown one records an error. */
    method UpdateSectionsOnServer(outcome: Outcome<()>)
      modifies this`showModal, this`error
      ensures outcome.Responded? && outcome.ok ==> showModal == ModalState(SuccessModal, true) && error == old(error)
      ensures outcome.Responded? && !outcome.ok ==> showModal == old(showModal) && error == Some(UpdateFormFailed)
      ensures outcome.Threw? ==> showModal == old(showModal) && error == Some(outcome.message)
    {
      match outcome {
        case Responded(ok, _) =>
          if ok {
            showModal := ModalState(SuccessModal, true);
          } else {
            error := Some(UpdateFormFailed);
          }
        case Threw(message) => error := Some(message);
      }
    }

    method AddSection(freshId: string)
      modifies this`sections
      ensures sections == SectionOps.AddSection(old(sections), freshId)
    {
      sections := SectionOps.AddSection(sections, freshId);
    }

    method AddQuestion(sectionId: string, kind: QuestionType, freshId: string)
      modifies this`sections
      ensures sections == SectionOps.AddQuestion(old(sections), sectionId, kind, freshId)
    {
      sections := SectionOps.AddQuestion(sections, sectionId, kind, freshId);
    }

    method UpdateQuestion(sectionId: string, updated: Question)
      modifies this`sections
      ensures sections == SectionOps.UpdateQuestion(old(sections), sectionId, updated)
    {
      sections := SectionOps.UpdateQuestion(sections, sectionId, updated);
    }

    method RemoveQuestion(sectionId: string, questionId: string)
      modifies this`sections
      ensures sections == SectionOps.RemoveQuestion(old(sections), sectionId, questionId)
    {
      sections := SectionOps.RemoveQuestion(sections, sectionId, questionId);
    }

    /** `handleDeleteSection`: drop the draft's sections with that id. */
    method HandleDeleteSection(id: string)
      modifies this`sections
      ensures sections == SectionOps.DeleteSection(old(sections), id)
    {
      sections := SectionOps.DeleteSection(sections, id);
    }

    /** `handleDragEnd`: reorder the draft's sections. */
    method HandleDragEnd(event: DragEndEvent)
      requires IsMove(event) ==> HasId(sections, event.active) && HasId(sections, event.over.value)
      modifies this`sections
      ensures sections == ReorderItems(old(sections), event)
    {
      sections := ReorderItems(sections, event);
    }

    /** `handleDragEndDetail`: the stored form's sections move only for a drop
        over another section when both ids are found; every other field of
        the form stays. */
    method HandleDragEndDetail(event: DragEndEvent)
      modifies this`selectedAnamnesis
      ensures var before := old(selectedAnamnesis.sections);
        var oldIndex := FindIndex(before, event.active);
        var newIndex := if event.over.Some? then FindIndex(before, event.over.value) else -1;
        if IsMove(event) && oldIndex != -1 && newIndex != -1
        then selectedAnamnesis == old(selectedAnamnesis).(sections := ArrayMove(before, oldIndex, newIndex))
        else selectedAnamnesis == old(selectedAnamnesis)
      ensures selectedAnamnesis.sections == GuardedReorder(old(selectedAnamnesis.sections), event)
    {
      if event.over.Some? && event.active != event.over.value {
        var oldIndex := FindIndex(selectedAnamnesis.sections, event.active);
        var newIndex := FindIndex(selectedAnamnesis.sections, event.over.value);
        if oldIndex != -1 && newIndex != -1 {
          var updatedSections := ArrayMove(selectedAnamnesis.sections, oldIndex, newIndex);
          selectedAnamnesis := selectedAnamnesis.(sections := updatedSections);
        }
      }
    }
  }
}
