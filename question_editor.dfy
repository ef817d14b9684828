/** The question editor's handlers: each builds a new question from the one
    shown, which the caller then hands to `updateQuestion`. */
module QuestionEditor {
  import opened Wrappers
  import opened Types
  import opened Seqs
  import SectionOps

  /** `question.options || []`: a missing option list reads as empty. */
  function OptionsOf(q: Question): seq<string>
  {
    if q.options.Some? then q.options.value else []
  }

  /** `handleContentChange`: the text is replaced, nothing else. */
  function ContentChange(q: Question, value: string): (r: Question)
    ensures r.question == value
    ensures r.id == q.id && r.kind == q.kind && r.options == q.options
  {
    q.(question := value)
  }

  /** `handleOptionChange`: the option at `index` is replaced. The editor only
      offers indices of options it displays. */
  function OptionChange(q: Question, index: nat, value: string): (r: Question)
    requires index < |OptionsOf(q)|
    ensures r.id == q.id && r.kind == q.kind && r.question == q.question && r.options.Some?
    ensures |OptionsOf(r)| == |OptionsOf(q)| && OptionsOf(r)[index] == value
    ensures forall k :: 0 <= k < |OptionsOf(q)| && k != index ==> OptionsOf(r)[k] == OptionsOf(q)[k]
  {
    q.(options := Some(OptionsOf(q)[index := value]))
  }

  /** `handleRemoveOption`: `splice(index, 1)`, which removes nothing when the
      index is past the end. */
  function RemoveOption(q: Question, index: nat): (r: Question)
    ensures r.id == q.id && r.kind == q.kind && r.question == q.question && r.options.Some?
    ensures index < |OptionsOf(q)| ==> OptionsOf(r) == RemoveAt(OptionsOf(q), index)
    ensures index >= |OptionsOf(q)| ==> OptionsOf(r) == OptionsOf(q)
  {
    var options := OptionsOf(q);
    q.(options := Some(if index < |options| then options[..index] + options[index + 1..] else options))
  }

  /** The "Add Option" button: one empty option at the end. */
  function AddOption(q: Question): (r: Question)
    ensures r.id == q.id && r.kind == q.kind && r.question == q.question && r.options.Some?
    ensures |OptionsOf(r)| == |OptionsOf(q)| + 1
    ensures OptionsOf(r)[..|OptionsOf(q)|] == OptionsOf(q) && OptionsOf(r)[|OptionsOf(q)|] == ""
  {
    q.(options := Some(OptionsOf(q) + [""]))
  }

  /** What `handleRemoveQuestion` passes to `onRemove`. */
  datatype RemoveRequest = RemoveRequest(sectionId: string, questionId: string)

  /** `handleRemoveQuestion`: name the enclosing section and the question. */
  function HandleRemoveQuestion(sectionId: string, q: Question): (r: RemoveRequest)
    ensures r.sectionId == sectionId && r.questionId == q.id
  {
    RemoveRequest(sectionId, q.id)
  }

  // ---- Properties ----

  /** Removing the option just added gives back the option list. */
  lemma AddThenRemoveOption(q: Question)
    ensures OptionsOf(RemoveOption(AddOption(q), |OptionsOf(q)|)) == OptionsOf(q)
  {
    var added := OptionsOf(AddOption(q));
    assert added[..|OptionsOf(q)|] == OptionsOf(q);
  }

  /** An absent option list behaves as an empty one under every option edit. */
  lemma AbsentOptionsAreEmpty(q: Question, index: nat)
    requires q.options.None?
    ensures AddOption(q) == AddOption(q.(options := Some([])))
    ensures RemoveOption(q, index) == RemoveOption(q.(options := Some([])), index)
    ensures AddOption(q).options == Some([""])
  {
  }

  /** The remove request of an editor, fed to `removeQuestion`, takes that
      question out of the section that shows it and leaves the other sections
      alone. */
  lemma RemoveRequestRemovesQuestion(sections: seq<Section>, i: nat, q: Question)
    requires i < |sections|
    ensures var req := HandleRemoveQuestion(sections[i].id, q);
      var r := SectionOps.RemoveQuestion(sections, req.sectionId, req.questionId);
      && q !in r[i].questions
      && (forall k :: 0 <= k < |sections| && sections[k].id != sections[i].id ==> r[k] == sections[k])
  {
    SectionOps.RemoveQuestionDropsExactly(sections, sections[i].id, q.id, i);
  }

  /** A text edit, fed to `updateQuestion`, changes the text of exactly that
      question in its section. */
  lemma ContentChangeUpdatesOneQuestion(sections: seq<Section>, i: nat, j: nat, value: string)
    requires i < |sections| && j < |sections[i].questions|
    requires forall l :: 0 <= l < |sections[i].questions| && l != j ==>
      sections[i].questions[l].id != sections[i].questions[j].id
    ensures var q := sections[i].questions[j];
      var r := SectionOps.UpdateQuestion(sections, sections[i].id, ContentChange(q, value));
      && r[i].questions[j] == q.(question := value)
      && (forall l :: 0 <= l < |sections[i].questions| && l != j ==> r[i].questions[l] == sections[i].questions[l])
  {
  }
}
