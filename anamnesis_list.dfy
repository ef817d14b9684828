/** The list view's controller (the `useAnamnesisList` hook): the fetched
    forms, the search filter and deletion by id. */
module AnamnesisList {
  import opened Wrappers
  import opened Text
  import opened Types
  import opened Seqs

  const FetchFailed := "Failed to fetch data"
  const DeleteFailed := "Failed to delete item"

  /** A form matches a lower-cased term when its lower-cased title or
      description contains it. */
  predicate MatchesLowered(item: AnamnesisForm, loweredTerm: string)
  {
    Contains(Lower(item.title), loweredTerm) || Contains(Lower(item.description), loweredTerm)
  }

  /** `filteredData`: the forms whose title or description contains the
      (already debounced) search term, ignoring letter case. */
  function FilteredData(data: seq<AnamnesisForm>, debouncedTerm: string): (r: seq<AnamnesisForm>)
    ensures |r| <= |data|
    ensures forall k :: 0 <= k < |r| ==> MatchesLowered(r[k], Lower(debouncedTerm))
  {
    var lowered := Lower(debouncedTerm);
    Filter(data, (item: AnamnesisForm) => MatchesLowered(item, lowered))
  }

  /** `item.id !== id` */
  function KeepOtherIds(id: int): AnamnesisForm -> bool
  {
    (item: AnamnesisForm) => item.id != id
  }

  /** The list after the backend confirmed deleting `id`. */
  function RemoveId(data: seq<AnamnesisForm>, id: int): (r: seq<AnamnesisForm>)
    ensures |r| <= |data|
    ensures forall k :: 0 <= k < |r| ==> r[k].id != id
  {
    Filter(data, KeepOtherIds(id))
  }

  // ---- Properties ----

  /** The filter keeps exactly the matching forms, every copy of each, in
      their original order. */
  lemma FilteredDataSpec(data: seq<AnamnesisForm>, term: string)
    ensures var r := FilteredData(data, term);
      && (forall item :: item in r <==>
            (item in data && (Contains(Lower(item.title), Lower(term)) || Contains(Lower(item.description), Lower(term)))))
      && (forall item: AnamnesisForm :: multiset(r)[item] ==
            if Contains(Lower(item.title), Lower(term)) || Contains(Lower(item.description), Lower(term))
            then multiset(data)[item] else 0)
      && IsSubsequence(r, data)
  {
    var lowered := Lower(term);
    FilterMembership(data, (item: AnamnesisForm) => MatchesLowered(item, lowered));
    FilterMultiset(data, (item: AnamnesisForm) => MatchesLowered(item, lowered));
    FilterIsSubsequence(data, (item: AnamnesisForm) => MatchesLowered(item, lowered));
  }

  /** The empty search term keeps every form. */
  lemma EmptyTermKeepsAll(data: seq<AnamnesisForm>)
    ensures FilteredData(data, "") == data
  {
    var lowered := Lower("");
    assert lowered == "";
    forall k | 0 <= k < |data|
      ensures MatchesLowered(data[k], lowered)
    {
      ContainsEmpty(Lower(data[k].title));
    }
    FilterKeepsAll(data, (item: AnamnesisForm) => MatchesLowered(item, lowered));
  }

  /** Terms that differ only in the case of their letters filter alike. */
  lemma FilterIgnoresCase(data: seq<AnamnesisForm>, term1: string, term2: string)
    requires Lower(term1) == Lower(term2)
    ensures FilteredData(data, term1) == FilteredData(data, term2)
  {
  }

  /** Lower-casing the term first changes nothing. */
  lemma FilterOfLoweredTerm(data: seq<AnamnesisForm>, term: string)
    ensures FilteredData(data, Lower(term)) == FilteredData(data, term)
  {
    LowerIdempotent(term);
  }

  /** Deleting by id drops exactly the forms with that id; the others stay,
      in order and with their multiplicity. Deleting again changes nothing. */
  lemma RemoveIdSpec(data: seq<AnamnesisForm>, id: int)
    ensures var r := RemoveId(data, id);
      && (forall item :: item in r <==> item in data && item.id != id)
      && (forall item: AnamnesisForm :: item.id != id ==> multiset(r)[item] == multiset(data)[item])
      && IsSubsequence(r, data)
      && RemoveId(r, id) == r
  {
    FilterMembership(data, KeepOtherIds(id));
    FilterMultiset(data, KeepOtherIds(id));
    FilterIsSubsequence(data, KeepOtherIds(id));
    FilterIdempotent(data, KeepOtherIds(id));
  }

  /** The search example: "flu" finds the "Flu" form and not the "Diabetes" one. */
  lemma FluScenario(a: AnamnesisForm, b: AnamnesisForm)
    requires a.title == "Flu" && a.description == "cold"
    requires b.title == "Diabetes" && b.description == "chronic"
    ensures FilteredData([a, b], "flu") == [a]
  {
    var lowered := Lower("flu");
    assert lowered == "flu" by {
      assert LowerChar('f') == 'f' && LowerChar('l') == 'l' && LowerChar('u') == 'u';
    }
    var keep := (item: AnamnesisForm) => MatchesLowered(item, lowered);
    assert keep(a) by {
      assert Lower(a.title) == "flu" by { assert LowerChar('F') == 'f'; }
      assert "flu" <= Lower(a.title);
    }
    assert !keep(b) by {
      NotContainsMissingFirst(Lower(b.title), "flu");
      NotContainsMissingFirst(Lower(b.description), "flu");
    }
    assert [a, b][1..] == [b];
    assert Filter([a, b], keep) == [a] + Filter([b], keep);
    assert Filter([b], keep) == [];
  }

  class AnamnesisListHook {
    var data: seq<AnamnesisForm>
    var error: Option<string>
    var isLoading: bool
    var searchTerm: string

    constructor ()
      ensures data == [] && error == Some("") && isLoading && searchTerm == ""
    {
      data := [];
      error := Some("");
      isLoading := true;
      searchTerm := "";
    }

    /** `fetchData`: an ok response replaces the list; a failed or thrown one
        records an error and keeps the list. Loading ends either way. */
    method FetchData(outcome: Outcome<seq<AnamnesisForm>>)
      modifies this`data, this`error, this`isLoading
      ensures !isLoading
      ensures outcome.Responded? && outcome.ok ==> data == outcome.body && error == old(error)
      ensures outcome.Responded? && !outcome.ok ==> data == old(data) && error == Some(FetchFailed)
      ensures outcome.Threw? ==> data == old(data) && error == Some(outcome.message)
    {
      isLoading := true;
      match outcome {
        case Responded(ok, result) =>
          if ok {
            data := result;
          } else {
            error := Some(FetchFailed);
          }
        case Threw(message) => error := Some(message);
      }
      isLoading := false;
    }

    /** `deleteItem`: only an ok response removes the forms with that id; a
        failed or thrown one records an error and keeps the list. Loading
        ends either way. */
    method DeleteItem(id: int, outcome: Outcome<()>)
      modifies this`data, this`error, this`isLoading
      ensures !isLoading
      ensures outcome.Responded? && outcome.ok ==> data == RemoveId(old(data), id) && error == old(error)
      ensures outcome.Responded? && !outcome.ok ==> data == old(data) && error == Some(DeleteFailed)
      ensures outcome.Threw? ==> data == old(data) && error == Some(outcome.message)
    {
      isLoading := true;
      match outcome {
        case Responded(ok, _) =>
          if ok {
            data := RemoveId(data, id);
          } else {
            error := Some(DeleteFailed);
          }
        case Threw(message) => error := Some(message);
      }
      isLoading := false;
    }

    method SetSearchTerm(term: string)
      modifies this`searchTerm
      ensures searchTerm == term
    {
      searchTerm := term;
    }
  }
}
