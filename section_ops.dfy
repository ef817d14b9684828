/** The list updates the form builder applies to its sections: the
    map/filter/spread expressions shared, word for word, by both drafts of
    the form controller and by the create page. */
module SectionOps {
  import opened Wrappers
  import opened Types
  import opened Seqs

  /** A fresh section: empty title, no questions. */
  function NewSection(freshId: string): Section
  {
    Section(freshId, "", [])
  }

  /** A fresh question of the given kind: empty text, empty option list. */
  function NewQuestion(freshId: string, kind: QuestionType): Question
  {
    Question(freshId, kind, "", Some([]))
  }

  /** `addSection`: one new section at the end; earlier sections untouched. */
  function AddSection(sections: seq<Section>, freshId: string): (r: seq<Section>)
    ensures |r| == |sections| + 1
    ensures r[..|sections|] == sections
    ensures r[|sections|].id == freshId && r[|sections|].title == "" && r[|sections|].questions == []
  {
    sections + [NewSection(freshId)]
  }

  /** `addQuestion`: the new question goes at the end of every section with
      the given id; all other sections are untouched. */
  function AddQuestion(sections: seq<Section>, sectionId: string, kind: QuestionType, freshId: string): (r: seq<Section>)
    ensures |r| == |sections|
    ensures forall i :: 0 <= i < |r| ==> r[i].id == sections[i].id && r[i].title == sections[i].title
    ensures forall i :: 0 <= i < |r| && sections[i].id != sectionId ==> r[i] == sections[i]
    ensures forall i :: 0 <= i < |r| && sections[i].id == sectionId ==>
      |r[i].questions| == |sections[i].questions| + 1 &&
      r[i].questions[..|sections[i].questions|] == sections[i].questions &&
      r[i].questions[|sections[i].questions|] == Question(freshId, kind, "", Some([]))
  {
    seq(|sections|, i requires 0 <= i < |sections| =>
      if sections[i].id == sectionId
      then sections[i].(questions := sections[i].questions + [NewQuestion(freshId, kind)])
      else sections[i])
  }

  /** `question.id === updated.id ? updated : question` over one section's questions. */
  function ReplaceQuestion(questions: seq<Question>, updated: Question): (r: seq<Question>)
    ensures |r| == |questions|
    ensures forall j :: 0 <= j < |r| ==> r[j] == if questions[j].id == updated.id then updated else questions[j]
  {
    seq(|questions|, j requires 0 <= j < |questions| =>
      if questions[j].id == updated.id then updated else questions[j])
  }

  /** `updateQuestion`: in the sections with the given id, every question
      carrying the updated question's id is replaced by it. */
  function UpdateQuestion(sections: seq<Section>, sectionId: string, updated: Question): (r: seq<Section>)
    ensures |r| == |sections|
    ensures forall i :: 0 <= i < |r| ==> r[i].id == sections[i].id && r[i].title == sections[i].title
    ensures forall i :: 0 <= i < |r| && sections[i].id != sectionId ==> r[i] == sections[i]
    ensures forall i :: 0 <= i < |r| && sections[i].id == sectionId ==>
      r[i].questions == ReplaceQuestion(sections[i].questions, updated)
  {
    seq(|sections|, i requires 0 <= i < |sections| =>
      if sections[i].id == sectionId
      then sections[i].(questions := ReplaceQuestion(sections[i].questions, updated))
      else sections[i])
  }

  /** `question.id !== questionId` */
  function KeepQuestion(questionId: string): Question -> bool
  {
    (q: Question) => q.id != questionId
  }

  /** `removeQuestion`: the sections with the given id lose every question
      carrying `questionId`; everything else is untouched. */
  function RemoveQuestion(sections: seq<Section>, sectionId: string, questionId: string): (r: seq<Section>)
    ensures |r| == |sections|
    ensures forall i :: 0 <= i < |r| ==> r[i].id == sections[i].id && r[i].title == sections[i].title
    ensures forall i :: 0 <= i < |r| && sections[i].id != sectionId ==> r[i] == sections[i]
    ensures forall i :: 0 <= i < |r| && sections[i].id == sectionId ==>
      r[i].questions == Filter(sections[i].questions, KeepQuestion(questionId))
  {
    seq(|sections|, i requires 0 <= i < |sections| =>
      if sections[i].id == sectionId
      then sections[i].(questions := Filter(sections[i].questions, KeepQuestion(questionId)))
      else sections[i])
  }

  /** `section.id !== id` */
  function KeepSection(id: string): Section -> bool
  {
    (s: Section) => s.id != id
  }

  /** `handleDeleteSection`: drop every section with that id. */
  function DeleteSection(sections: seq<Section>, id: string): (r: seq<Section>)
    ensures |r| <= |sections|
    ensures forall k :: 0 <= k < |r| ==> r[k].id != id
  {
    Filter(sections, KeepSection(id))
  }

  /** The create page's section-title input: `s.id === section.id ? { ...s, title } : s`. */
  function SetSectionTitle(sections: seq<Section>, sectionId: string, title: string): (r: seq<Section>)
    ensures |r| == |sections|
    ensures forall i :: 0 <= i < |r| && sections[i].id != sectionId ==> r[i] == sections[i]
  {
    seq(|sections|, i requires 0 <= i < |sections| =>
      if sections[i].id == sectionId then sections[i].(title := title) else sections[i])
  }

  // ---- Properties ----

  /** Adding a question to a section id nobody carries changes nothing. */
  lemma AddQuestionNoMatch(sections: seq<Section>, sectionId: string, kind: QuestionType, freshId: string)
    requires forall i :: 0 <= i < |sections| ==> sections[i].id != sectionId
    ensures AddQuestion(sections, sectionId, kind, freshId) == sections
  {
  }

  /** An update replaces only the questions with the updated id: every other
      question, and the number of questions in every section, stays. */
  lemma UpdateQuestionOnlyTouchesMatch(sections: seq<Section>, sectionId: string, updated: Question)
    ensures var r := UpdateQuestion(sections, sectionId, updated);
      forall i, j :: 0 <= i < |r| && 0 <= j < |sections[i].questions| ==>
        |r[i].questions| == |sections[i].questions| &&
        r[i].questions[j] == (if sections[i].id == sectionId && sections[i].questions[j].id == updated.id
                              then updated else sections[i].questions[j])
  {
  }

  /** Removing a question is idempotent. */
  lemma RemoveQuestionIdempotent(sections: seq<Section>, sectionId: string, questionId: string)
    ensures var once := RemoveQuestion(sections, sectionId, questionId);
      RemoveQuestion(once, sectionId, questionId) == once
  {
    var once := RemoveQuestion(sections, sectionId, questionId);
    var twice := RemoveQuestion(once, sectionId, questionId);
    forall i | 0 <= i < |sections| && sections[i].id == sectionId
      ensures twice[i] == once[i]
    {
      FilterIdempotent(sections[i].questions, KeepQuestion(questionId));
    }
  }

  /** Removing a question drops exactly the questions with that id from the
      matching sections; the rest keep their multiplicity and order. */
  lemma RemoveQuestionDropsExactly(sections: seq<Section>, sectionId: string, questionId: string, i: nat)
    requires i < |sections| && sections[i].id == sectionId
    ensures var qs := RemoveQuestion(sections, sectionId, questionId)[i].questions;
      && (forall q :: q in qs <==> q in sections[i].questions && q.id != questionId)
      && (forall q: Question :: multiset(qs)[q] == if q.id != questionId then multiset(sections[i].questions)[q] else 0)
      && IsSubsequence(qs, sections[i].questions)
  {
    FilterMembership(sections[i].questions, KeepQuestion(questionId));
    FilterMultiset(sections[i].questions, KeepQuestion(questionId));
    FilterIsSubsequence(sections[i].questions, KeepQuestion(questionId));
  }

  /** Adding a question with an id no question of the matching sections
      carries, then removing that id, gives back the original sections. */
  lemma AddThenRemoveQuestion(sections: seq<Section>, sectionId: string, kind: QuestionType, freshId: string)
    requires forall i, j :: 0 <= i < |sections| && sections[i].id == sectionId && 0 <= j < |sections[i].questions| ==>
      sections[i].questions[j].id != freshId
    ensures RemoveQuestion(AddQuestion(sections, sectionId, kind, freshId), sectionId, freshId) == sections
  {
    var added := AddQuestion(sections, sectionId, kind, freshId);
    var r := RemoveQuestion(added, sectionId, freshId);
    forall i | 0 <= i < |sections|
      ensures r[i] == sections[i]
    {
      if sections[i].id == sectionId {
        var qs := sections[i].questions;
        assert added[i].questions == qs + [NewQuestion(freshId, kind)];
        FilterAppend(qs, [NewQuestion(freshId, kind)], KeepQuestion(freshId));
        FilterKeepsAll(qs, KeepQuestion(freshId));
        assert Filter([NewQuestion(freshId, kind)], KeepQuestion(freshId)) == [];
      }
    }
  }

  /** Deleting a section keeps, in order and with their multiplicity, exactly
      the sections whose id differs. */
  lemma DeleteSectionKeepsOthers(sections: seq<Section>, id: string)
    ensures var r := DeleteSection(sections, id);
      && (forall s :: s in r <==> s in sections && s.id != id)
      && (forall s: Section :: s.id != id ==> multiset(r)[s] == multiset(sections)[s])
      && IsSubsequence(r, sections)
  {
    FilterMembership(sections, KeepSection(id));
    FilterMultiset(sections, KeepSection(id));
    FilterIsSubsequence(sections, KeepSection(id));
  }

  /** Deleting the same section twice is deleting it once. */
  lemma DeleteSectionIdempotent(sections: seq<Section>, id: string)
    ensures DeleteSection(DeleteSection(sections, id), id) == DeleteSection(sections, id)
  {
    FilterIdempotent(sections, KeepSection(id));
  }

  /** Editing a section title changes that field of the matching sections
      and nothing else: ids, questions, order and length stay. */
  lemma SetSectionTitleOnlyTitle(sections: seq<Section>, sectionId: string, title: string)
    ensures var r := SetSectionTitle(sections, sectionId, title);
      forall i :: 0 <= i < |r| ==>
        && r[i].id == sections[i].id
        && r[i].questions == sections[i].questions
        && r[i].title == (if sections[i].id == sectionId then title else sections[i].title)
  {
  }
}
