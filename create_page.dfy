/** The create/update page: the `useFormState` draft plus the page's own
    error-modal flag, its section handlers and its button guards. */
module CreatePage {
  import opened Wrappers
  import opened Types
  import opened DnDUtils
  import SectionOps
  import opened Validation
  import opened SaveDecision
  import opened FormState

  datatype ButtonState = Hidden | Disabled | Enabled

  /** "Add Section" is disabled while the title is empty (`!formTitle`). */
  function AddSectionButton(formTitle: string): (r: ButtonState)
    ensures r != Hidden
    ensures r == Enabled <==> formTitle != ""
  {
    if formTitle == "" then Disabled else Enabled
  }

  /** "Save" is shown only when there is a section, and enabled only when no
      save is running and the title is not empty. */
  function SaveButton(sections: seq<Section>, isSaving: bool, formTitle: string): (r: ButtonState)
    ensures r == Hidden <==> |sections| == 0
    ensures r == Enabled <==> |sections| > 0 && !isSaving && formTitle != ""
  {
    if |sections| == 0 then Hidden
    else if isSaving || formTitle == "" then Disabled
    else Enabled
  }

  /** A form that passes validation, while no save runs, can be saved and
      extended. */
  lemma CompleteFormCanBeSaved(title: string, description: string, sections: seq<Section>)
    requires ValidateFormState(title, description, sections) == None
    ensures SaveButton(sections, false, title) == Enabled && AddSectionButton(title) == Enabled
  {
    ValidatorsAgree(title, description, sections);
    ValidateSpec(title, description, sections);
  }

  /** The guards test emptiness, not blankness: a title of one space enables
      "Save", and the save is then refused by validation. */
  lemma BlankTitlePassesGuard(description: string, section: Section)
    ensures SaveButton([section], false, " ") == Enabled
    ensures ValidateFormState(" ", description, [section]) == Some(FormTitleRequired)
  {
  }

  class AnamnesisFormCreate {
    const form: FormStateHook
    var isErrorModalOpen: bool

    constructor (existing: Option<AnamnesisForm>)
      ensures fresh(form) && form.existing == existing && !isErrorModalOpen
      ensures existing.Some? ==> form.formTitle == existing.value.title && form.formDescription == existing.value.description
                                 && form.sections == existing.value.sections
      ensures existing.None? ==> form.formTitle == "" && form.formDescription == "" && form.sections == []
      ensures !form.isSaving && form.error == None
    {
      form := new FormStateHook(existing);
      isErrorModalOpen := false;
    }

    /** `handleDragEnd`: hand the drop to `reorderItems`. */
    method HandleDragEnd(event: DragEndEvent)
      requires IsMove(event) ==> HasId(form.sections, event.active) && HasId(form.sections, event.over.value)
      modifies form`sections
      ensures form.sections == ReorderItems(old(form.sections), event)
    {
      form.sections := ReorderItems(form.sections, event);
    }

    /** `handleDeleteSection`: drop the sections with that id. */
    method HandleDeleteSection(id: string)
      modifies form`sections
      ensures form.sections == SectionOps.DeleteSection(old(form.sections), id)
    {
      form.sections := SectionOps.DeleteSection(form.sections, id);
    }

    /** The section-title input's change handler. */
    method ChangeSectionTitle(sectionId: string, title: string)
      modifies form`sections
      ensures form.sections == SectionOps.SetSectionTitle(old(form.sections), sectionId, title)
    {
      form.sections := SectionOps.SetSectionTitle(form.sections, sectionId, title);
    }

    /** `closeErrorModal`, the close handler of both the error and the success
        modal: it always closes the error modal and clears the error; while a
        save is marked as running it also ends it and navigates home. */
    method CloseErrorModal() returns (navigateHome: bool)
      modifies this`isErrorModalOpen, form`error, form`isSaving
      ensures !isErrorModalOpen && form.error == None && !form.isSaving
      ensures navigateHome == old(form.isSaving)
    {
      isErrorModalOpen := false;
      form.error := None;
      navigateHome := false;
      if form.isSaving {
        form.isSaving := false;
        navigateHome := true;
      }
    }

    /** Pressing "Save" and then closing the modal that follows. A valid
        draft leads home even when the request threw, because a failed
        save leaves `isSaving` set. */
    method SaveThenClose(freshId: int, now: string, outcome: Outcome<()>) returns (request: Option<SaveRequest>, navigateHome: bool)
      modifies this`isErrorModalOpen, form`error, form`isSaving
      ensures ValidateFormState(form.formTitle, form.formDescription, form.sections) == None ==> request.Some? && navigateHome
      ensures ValidateFormState(form.formTitle, form.formDescription, form.sections).Some? ==>
        request == None && navigateHome == old(form.isSaving)
      ensures !form.isSaving && form.error == None && !isErrorModalOpen
    {
      request := form.HandleSave(freshId, now, outcome);
      navigateHome := CloseErrorModal();
    }
  }
}
