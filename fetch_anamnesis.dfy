/** The older list controller (the `useFetchAnamnesis` hook): the same
    fetch, filter and delete, with the search term passed in. */
module FetchAnamnesis {
  import opened Wrappers
  import opened Text
  import opened Types
  import opened Seqs
  import AnamnesisList

  /** `filteredData`, lower-casing the term inside the per-item test. */
  function FilteredData(data: seq<AnamnesisForm>, debouncedTerm: string): (r: seq<AnamnesisForm>)
    ensures |r| <= |data|
    ensures forall k :: 0 <= k < |r| ==>
      Contains(Lower(r[k].title), Lower(debouncedTerm)) || Contains(Lower(r[k].description), Lower(debouncedTerm))
  {
    Filter(data, (item: AnamnesisForm) =>
      Contains(Lower(item.title), Lower(debouncedTerm)) || Contains(Lower(item.description), Lower(debouncedTerm)))
  }

  /** The two list controllers filter identically. */
  lemma {:induction false} FiltersAgree(data: seq<AnamnesisForm>, term: string)
    ensures FilteredData(data, term) == AnamnesisList.FilteredData(data, term)
    decreases |data|
  {
    if data != [] {
      FiltersAgree(data[1..], term);
    }
  }

  /** The filter keeps exactly the matching forms, every copy of each, in
      their original order, and the empty term keeps them all. */
  lemma FilteredDataSpec(data: seq<AnamnesisForm>, term: string)
    ensures var r := FilteredData(data, term);
      && (forall item :: item in r <==>
            (item in data && (Contains(Lower(item.title), Lower(term)) || Contains(Lower(item.description), Lower(term)))))
      && (forall item: AnamnesisForm :: multiset(r)[item] ==
            if Contains(Lower(item.title), Lower(term)) || Contains(Lower(item.description), Lower(term))
            then multiset(data)[item] else 0)
      && IsSubsequence(r, data)
    ensures FilteredData(data, "") == data
  {
    FiltersAgree(data, term);
    FiltersAgree(data, "");
    AnamnesisList.FilteredDataSpec(data, term);
    AnamnesisList.EmptyTermKeepsAll(data);
  }

  class FetchAnamnesisHook {
    var data: seq<AnamnesisForm>
    var isLoading: bool
    var error: string

    constructor ()
      ensures data == [] && isLoading && error == ""
    {
      data := [];
      isLoading := true;
      error := "";
    }

    /** `fetchData`: an ok response replaces the list; a failed or thrown one
        records an error and keeps the list. Loading ends either way. */
    method FetchData(outcome: Outcome<seq<AnamnesisForm>>)
      modifies this`data, this`error, this`isLoading
      ensures !isLoading
      ensures outcome.Responded? && outcome.ok ==> data == outcome.body && error == old(error)
      ensures outcome.Responded? && !outcome.ok ==> data == old(data) && error == AnamnesisList.FetchFailed
      ensures outcome.Threw? ==> data == old(data) && error == outcome.message
    {
      isLoading := true;
      match outcome {
        case Responded(ok, result) =>
          if ok {
            data := result;
          } else {
            error := AnamnesisList.FetchFailed;
          }
        case Threw(message) => error := message;
      }
      isLoading := false;
    }

    /** `deleteItem`: only an ok response removes the forms with that id. */
    method DeleteItem(id: int, outcome: Outcome<()>)
      modifies this`data, this`error, this`isLoading
      ensures !isLoading
      ensures outcome.Responded? && outcome.ok ==> data == AnamnesisList.RemoveId(old(data), id) && error == old(error)
      ensures outcome.Responded? && !outcome.ok ==> data == old(data) && error == AnamnesisList.DeleteFailed
      ensures outcome.Threw? ==> data == old(data) && error == outcome.message
    {
      isLoading := true;
      match outcome {
        case Responded(ok, _) =>
          if ok {
            data := AnamnesisList.RemoveId(data, id);
          } else {
            error := AnamnesisList.DeleteFailed;
          }
        case Threw(message) => error := message;
      }
      isLoading := false;
    }
  }
}
