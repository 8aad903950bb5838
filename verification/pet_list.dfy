/**
 * The search filter of src/components/pet-list.tsx: the listed pets whose
 * lower-cased name contains the lower-cased query, in list order. The query
 * starts empty (src/contexts/search-context-provider.tsx).
 */
module PetList {
  import opened Wrappers
  import opened Text
  import opened Sequences
  import opened Validations
  import opened PetContext

  /** The search context's initial query. */
  const InitialQuery: string := ""

  /** `pet.name.toLowerCase().includes(searchQuery.toLowerCase())`. */
  predicate MatchesQuery(query: string, p: ListPet)
  {
    Includes(Lower(p.details.name), Lower(query))
  }

  /** `filteredPets`. */
  function FilteredPets(pets: seq<ListPet>, query: string): (r: seq<ListPet>)
    ensures |r| <= |pets|
    ensures IsSubsequence(r, pets)
    ensures forall p :: p in r ==> MatchesQuery(query, p)
    ensures forall p :: p in pets && MatchesQuery(query, p) ==> p in r
    ensures forall p :: MatchesQuery(query, p) ==> multiset(r)[p] == multiset(pets)[p]
  {
    var keep := (p: ListPet) => MatchesQuery(query, p);
    FilterIsSubsequence(pets, keep);
    FilterCountsAll(pets, keep);
    FilterComplete(pets, keep);
    Filter(pets, keep)
  }

  /** With the initial, empty query every pet is listed. */
  lemma InitialQueryListsAll(pets: seq<ListPet>)
    ensures FilteredPets(pets, InitialQuery) == pets
  {
    forall i | 0 <= i < |pets|
      ensures MatchesQuery(InitialQuery, pets[i])
    {
      IncludesEmpty(Lower(pets[i].details.name));
    }
    FilterKeepsAll(pets, (p: ListPet) => MatchesQuery(InitialQuery, p));
  }

  /** Searching the search results again for the same query changes nothing. */
  lemma FilteredPetsIdempotent(pets: seq<ListPet>, query: string)
    ensures FilteredPets(FilteredPets(pets, query), query) == FilteredPets(pets, query)
  {
    FilterIdempotent(pets, (p: ListPet) => MatchesQuery(query, p));
  }

  /** Upper and lower case do not matter in the query: the lower-cased query selects the same pets. */
  lemma CaseInsensitive(pets: seq<ListPet>, query: string)
    ensures FilteredPets(pets, Lower(query)) == FilteredPets(pets, query)
  {
    LowerIdempotent(query);
    FilterSameTest(pets, (p: ListPet) => MatchesQuery(Lower(query), p), (p: ListPet) => MatchesQuery(query, p));
  }

  /** Nor in a name: a pet matches a query exactly when the same pet with its name lower-cased does. */
  lemma NameCaseInsensitive(p: ListPet, query: string)
    ensures MatchesQuery(query, p.(details := p.details.(name := Lower(p.details.name)))) == MatchesQuery(query, p)
  {
    LowerIdempotent(p.details.name);
  }

  function PetNamed(name: string): ListPet
  {
    ListPet(name, PetEssentials(name, "", "", 1, ""), None)
  }

  /** Searching "re" among Rex and Bella finds only Rex. */
  lemma SearchExample()
    ensures FilteredPets([PetNamed("Rex"), PetNamed("Bella")], "re") == [PetNamed("Rex")]
  {
    assert Lower("Rex") == "rex";
    assert Lower("re") == "re";
    assert Lower("Bella") == "bella";
    assert OccursAt("rex", "re", 0);
    assert !Includes("bella", "re") by {
      forall i | 0 <= i <= 5
        ensures !OccursAt("bella", "re", i)
      {
        if i + 2 <= 5 {
          assert "bella"[i] != 'r';
        }
      }
    }
  }
}
