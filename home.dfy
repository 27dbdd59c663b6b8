/** The place search of the home page (src/pages/Home.tsx): a text query
    matched case-insensitively against a place's name and type, a selection of
    tags that a place must all carry, and the tag chips that toggle the
    selection. */
module Home {
  import opened Types
  import Text
  import Seqs

  /** The tag chips offered. */
  const Filters: seq<string> :=
    ["con enchufes", "acepta JUNAEB", "opción vegana", "baño accesible", "wifi rápido", "silencioso"]

  /** The query occurs in the lowercased name or the lowercased type. */
  predicate MatchesSearch(l: Lugar, query: string)
  {
    Text.Contains(Text.Lower(l.nombre), Text.Lower(query))
    || Text.Contains(Text.Lower(TipoName(l.tipo)), Text.Lower(query))
  }

  /** No tag selected, or every selected tag carried. */
  predicate MatchesFilters(l: Lugar, selected: seq<string>)
  {
    |selected| == 0 || forall f :: f in selected ==> f in l.etiquetas
  }

  function Matches(query: string, selected: seq<string>): Lugar -> bool
  {
    (l: Lugar) => MatchesSearch(l, query) && MatchesFilters(l, selected)
  }

  /** `filteredLugares`. */
  function FilteredLugares(catalog: seq<Lugar>, query: string, selected: seq<string>): seq<Lugar>
  {
    Seqs.Filter(catalog, Matches(query, selected))
  }

  /** A place is listed exactly when it is in the catalog, the query occurs
      in its name or type, and it carries every selected tag; the listing keeps
      the catalog's order and lists each such place as often as the catalog
      does. */
  lemma FilteredExactly(catalog: seq<Lugar>, query: string, selected: seq<string>)
    ensures forall l :: l in FilteredLugares(catalog, query, selected) <==>
      l in catalog && MatchesSearch(l, query) && (forall f :: f in selected ==> f in l.etiquetas)
    ensures Seqs.IsSubsequence(FilteredLugares(catalog, query, selected), catalog)
    ensures forall l :: multiset(FilteredLugares(catalog, query, selected))[l] ==
                        (if MatchesSearch(l, query) && MatchesFilters(l, selected) then multiset(catalog)[l] else 0)
  {
    Seqs.FilterIsSubsequence(catalog, Matches(query, selected));
    forall l ensures multiset(FilteredLugares(catalog, query, selected))[l] ==
      if MatchesSearch(l, query) && MatchesFilters(l, selected) then multiset(catalog)[l] else 0
    {
      Seqs.FilterCount(catalog, Matches(query, selected), l);
    }
  }

  /** The description and the tags are not searched: two places that differ
      only there match the same queries. */
  lemma SearchIgnoresDescriptionAndTags(l: Lugar, d: Option<string>, tags: seq<string>, query: string)
    ensures MatchesSearch(l.(descripcion := d, etiquetas := tags), query) == MatchesSearch(l, query)
  {
  }

  /** An empty query and no selected tag list the whole catalog. */
  lemma EmptySearchListsAll(catalog: seq<Lugar>)
    ensures FilteredLugares(catalog, "", []) == catalog
  {
    forall i | 0 <= i < |catalog| ensures Matches("", [])(catalog[i]) {
      Text.ContainsEmpty(Text.Lower(catalog[i].nombre));
    }
    Seqs.FilterKeepsAll(catalog, Matches("", []));
  }

  /** Selecting one more tag never adds a place: the new listing is a
      subsequence of the old one. */
  lemma ExtraFilterNarrows(catalog: seq<Lugar>, query: string, selected: seq<string>, f: string)
    ensures Seqs.IsSubsequence(FilteredLugares(catalog, query, selected + [f]), FilteredLugares(catalog, query, selected))
  {
    forall l | Matches(query, selected + [f])(l) ensures Matches(query, selected)(l) {
      assert forall g :: g in selected ==> g in selected + [f];
    }
    Seqs.FilterMonotone(catalog, Matches(query, selected + [f]), Matches(query, selected));
  }

  /** The tags a result card shows: `etiquetas.slice(0, 3)`. */
  function ShownTags(l: Lugar): (r: seq<string>)
    ensures |r| <= 3 && |r| <= |l.etiquetas| && r == l.etiquetas[..|r|]
    ensures |r| == if |l.etiquetas| < 3 then |l.etiquetas| else 3
  {
    if |l.etiquetas| < 3 then l.etiquetas else l.etiquetas[..3]
  }

  /** `toggleFilter(f)` moves the selection; the results heading counts the
      filtered places. */
  class HomePage {
    var searchQuery: string
    var selectedFilters: seq<string>

    ghost predicate Valid()
      reads this
    {
      Seqs.NoDuplicates(selectedFilters)
    }

    constructor ()
      ensures Valid()
      ensures searchQuery == "" && selectedFilters == []
    {
      searchQuery := "";
      selectedFilters := [];
    }

    /** The search box's `onChange`. */
    method SetSearchQuery(q: string)
      requires Valid()
      modifies this
      ensures Valid()
      ensures searchQuery == q && selectedFilters == old(selectedFilters)
    {
      searchQuery := q;
    }

    /** `toggleFilter(filter)`. */
    method ToggleFilter(filter: string)
      requires Valid()
      modifies this
      ensures Valid()
      ensures selectedFilters == Seqs.Toggle(old(selectedFilters), filter)
      ensures filter in selectedFilters <==> filter !in old(selectedFilters)
      ensures forall g :: g != filter ==> (g in selectedFilters <==> g in old(selectedFilters))
      ensures searchQuery == old(searchQuery)
    {
      Seqs.ToggleNoDuplicates(selectedFilters, filter);
      Seqs.ToggleMembership(selectedFilters, filter);
      selectedFilters := Seqs.Toggle(selectedFilters, filter);
    }

    /** The places listed for the current query and selection. */
    function Results(catalog: seq<Lugar>): seq<Lugar>
      reads this
    {
      FilteredLugares(catalog, searchQuery, selectedFilters)
    }

    /** The number in the "lugares encontrados" heading. */
    function ResultCount(catalog: seq<Lugar>): (n: nat)
      reads this
      ensures n <= |catalog|
      ensures n == |Results(catalog)|
    {
      |Results(catalog)|
    }
  }

  /** Clicking only the chips offered keeps the selection among the offered
      tags. */
  lemma ToggleKeepsOffered(selected: seq<string>, f: string)
    requires forall g :: g in selected ==> g in Filters
    requires f in Filters
    ensures forall g :: g in Seqs.Toggle(selected, f) ==> g in Filters
  {
    Seqs.ToggleMembership(selected, f);
  }

  /** Toggling a chip that is selected and not the last one selected, twice,
      gives back the same tags in another order. */
  lemma ToggleTwiceReorders()
    ensures Seqs.Toggle(Seqs.Toggle(["silencioso", "wifi rápido"], "silencioso"), "silencioso") == ["wifi rápido", "silencioso"]
  {
    var s: seq<string> := ["silencioso", "wifi rápido"];
    assert "silencioso" in s;
    Seqs.FilterCons("silencioso", ["wifi rápido"], Seqs.Differs("silencioso"));
    Seqs.FilterCons("wifi rápido", [], Seqs.Differs("silencioso"));
    assert s == ["silencioso"] + ["wifi rápido"];
    assert Seqs.Toggle(s, "silencioso") == ["wifi rápido"];
  }
}
