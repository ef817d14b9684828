/** What `handleSave` sends once the form is valid: POST for a form that was
    never saved, PUT for one that was, and the body it carries. */
module SaveDecision {
  import opened Wrappers
  import opened Types

  datatype HttpMethod = Post | Put

  /** `/anamnesis` or `/anamnesis/{id}` on the backend. */
  datatype Endpoint = Collection | Item(id: int)

  datatype SaveRequest = SaveRequest(verb: HttpMethod, endpoint: Endpoint, body: AnamnesisForm)

  /** `existingFormData?.id`, with a missing form read as 0: both are falsy. */
  function ExistingId(existing: Option<AnamnesisForm>): int
  {
    if existing.Some? then existing.value.id else 0
  }

  /** `existingFormData?.createdAt || now`: an absent or empty timestamp is
      replaced by the current one. */
  function CreatedAtFor(existing: Option<AnamnesisForm>, now: string): string
  {
    if existing.Some? && existing.value.createdAt != "" then existing.value.createdAt else now
  }

  /** The request built from the draft, a fresh numeric id (`Date.now()`) and
      the current ISO timestamp. */
  function SaveRequestFor(existing: Option<AnamnesisForm>, title: string, description: string,
                          sections: seq<Section>, freshId: int, now: string): (r: SaveRequest)
    ensures r.verb == Put <==> ExistingId(existing) != 0
    ensures r.verb == Put ==> existing.Some? && r.endpoint == Item(existing.value.id) && r.body.id == existing.value.id
    ensures r.verb == Post ==> r.endpoint == Collection && r.body.id == freshId
    ensures r.body.title == title && r.body.description == description && r.body.sections == sections
    ensures r.body.createdAt == CreatedAtFor(existing, now)
  {
    var id := ExistingId(existing);
    SaveRequest(
      if id != 0 then Put else Post,
      if id != 0 then Item(id) else Collection,
      AnamnesisForm(if id != 0 then id else freshId, title, description, CreatedAtFor(existing, now), sections, None))
  }

  /** Saving a stored form replaces it in place: PUT to its own id, keeping
      that id and its original creation time. */
  lemma UpdateKeepsIdentity(form: AnamnesisForm, title: string, description: string,
                            sections: seq<Section>, freshId: int, now: string)
    requires form.id != 0 && form.createdAt != ""
    ensures var r := SaveRequestFor(Some(form), title, description, sections, freshId, now);
      r.verb == Put && r.endpoint == Item(form.id) && r.body.id == form.id && r.body.createdAt == form.createdAt
  {
  }

  /** Saving a new draft creates it: POST to the collection with the fresh id
      and the current time. */
  lemma CreateUsesFreshIdentity(title: string, description: string, sections: seq<Section>, freshId: int, now: string)
    ensures var r := SaveRequestFor(None, title, description, sections, freshId, now);
      r.verb == Post && r.endpoint == Collection && r.body.id == freshId && r.body.createdAt == now
  {
  }
}
