/** The records an anamnesis form is made of. */
module Types {
  import opened Wrappers

  /** The four question kinds: 'short_text' | 'long_text' | 'multiple_choice' | 'date_time'. */
  datatype QuestionType = ShortText | LongText | MultipleChoice | DateTime

  /** A question; `options` is the optional `options?: string[]`. */
  datatype Question = Question(id: string, kind: QuestionType, question: string, options: Option<seq<string>>)

  /** A titled, ordered group of questions. */
  datatype Section = Section(id: string, title: string, questions: seq<Question>)

  /** A whole form. An `id` of 0 marks a form that was never saved. */
  datatype AnamnesisForm = AnamnesisForm(
    id: int,
    title: string,
    description: string,
    createdAt: string,
    sections: seq<Section>,
    actions: Option<string>)

  /** The empty form a detail view starts from before its data is loaded. */
  const InitialAnamnesis: AnamnesisForm := AnamnesisForm(0, "", "", "", [], None)
}
