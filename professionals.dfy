/**
 * The professional directory (src/pages/Professionals.tsx): the loaded list of
 * professionals is narrowed by an exact category and then by a case-insensitive
 * text search over name, bio and skills.
 */
module Directory {
  import opened Wrappers
  import opened Text
  import opened Backend
  import opened Seqs

  /** A row of `profiles` with user_type 'professional', as the directory and the
      profile dialog read it. */
  datatype Professional = Professional(
    id: string,
    fullName: Option<string>,
    avatarUrl: Option<string>,
    category: Option<string>,
    skills: Option<seq<string>>,
    bio: Option<string>,
    experienceYears: Option<int>,
    hourlyRate: Option<real>,
    location: Option<string>,
    cryptoWalletTrc20: Option<string>,
    acceptsCrypto: Option<bool>)

  /** The category button that stands for "any category". */
  const AllCategories: string := "all"

  /** `p.category === selectedCategory`; a professional without a category never matches. */
  predicate InCategory(p: Professional, category: string) {
    p.category == Some(category)
  }

  /** `field?.toLowerCase().includes(query)`: a null field never matches. */
  predicate FieldMatches(field: Option<string>, query: string) {
    field.Some? && Contains(ToLower(field.value), query)
  }

  /** `skills?.some(skill => skill.toLowerCase().includes(query))` */
  predicate SomeSkillMatches(skills: Option<seq<string>>, query: string) {
    skills.Some? && exists i :: 0 <= i < |skills.value| && Contains(ToLower(skills.value[i]), query)
  }

  /** The text-search predicate for an already lower-cased query. */
  predicate MatchesQuery(p: Professional, query: string) {
    FieldMatches(p.fullName, query) || FieldMatches(p.bio, query) || SomeSkillMatches(p.skills, query)
  }

  /** Whether a professional survives both steps of the filter chain. */
  predicate Selected(p: Professional, category: string, searchQuery: string) {
    (category == AllCategories || InCategory(p, category))
    && (searchQuery == [] || MatchesQuery(p, ToLower(searchQuery)))
  }

  /** `filterProfessionals`: the category step (skipped for 'all'), then the text step
      (skipped for an empty query; a query of spaces is applied as it is). */
  function Search(ps: seq<Professional>, category: string, searchQuery: string): (r: seq<Professional>)
    ensures IsSubsequence(r, ps)
    ensures forall p :: p in r <==> p in ps && Selected(p, category, searchQuery)
    ensures category != AllCategories ==> forall p :: p in r ==> p.category == Some(category)
    ensures category == AllCategories && searchQuery == [] ==> r == ps
  {
    var byCategory := if category != AllCategories then Filter(ps, p => InCategory(p, category)) else ps;
    var r := if searchQuery != [] then Filter(byCategory, p => MatchesQuery(p, ToLower(searchQuery))) else byCategory;
    SearchIsSubsequence(ps, byCategory, r);
    r
  }

  lemma SearchIsSubsequence(ps: seq<Professional>, byCategory: seq<Professional>, r: seq<Professional>)
    requires byCategory == ps || IsSubsequence(byCategory, ps)
    requires r == byCategory || IsSubsequence(r, byCategory)
    ensures IsSubsequence(r, ps)
  {
    SubsequenceReflexive(ps);
    SubsequenceReflexive(byCategory);
    SubsequenceTransitive(r, byCategory, ps);
  }

  /** The filter chain is one filter by `Selected`, an independent single-pass
      definition of the result. */
  lemma SearchIsOneFilter(ps: seq<Professional>, category: string, searchQuery: string)
    ensures Search(ps, category, searchQuery) == Filter(ps, p => Selected(p, category, searchQuery))
  {
    var sel := p => Selected(p, category, searchQuery);
    var inCat := p => InCategory(p, category);
    var matches := p => MatchesQuery(p, ToLower(searchQuery));
    if category != AllCategories && searchQuery != [] {
      FilterFilter(ps, inCat, matches, sel);
    } else if category != AllCategories {
      FilterFilter(ps, inCat, p => true, sel);
      FilterKeepsAll(Filter(ps, inCat), p => true);
    } else if searchQuery != [] {
      FilterFilter(ps, p => true, matches, sel);
      FilterKeepsAll(ps, p => true);
    } else {
      FilterKeepsAll(ps, sel);
    }
  }

  /** Filtering is idempotent: re-filtering the result with the same criteria returns it. */
  lemma SearchIdempotent(ps: seq<Professional>, category: string, searchQuery: string)
    ensures Search(Search(ps, category, searchQuery), category, searchQuery) == Search(ps, category, searchQuery)
  {
    var r := Search(ps, category, searchQuery);
    SearchIsOneFilter(r, category, searchQuery);
    FilterKeepsAll(r, p => Selected(p, category, searchQuery));
  }

  /** The search ignores the case of the query: two queries with the same lower-case
      form select the same professionals. */
  lemma SearchCaseInsensitive(ps: seq<Professional>, category: string, q1: string, q2: string)
    requires ToLower(q1) == ToLower(q2)
    ensures Search(ps, category, q1) == Search(ps, category, q2)
  {
    SearchIsOneFilter(ps, category, q1);
    SearchIsOneFilter(ps, category, q2);
    assert |q1| == |q2|;
    FilterExtensional(ps, p => Selected(p, category, q1), p => Selected(p, category, q2));
  }

  /** A professional with neither name, bio nor skills never matches a query. */
  lemma NullFieldsNeverMatch(p: Professional, query: string)
    requires p.fullName.None? && p.bio.None? && p.skills.None?
    ensures !MatchesQuery(p, query)
  {
  }

  /** The directory page: the loaded list, the visible list and the two criteria. */
  class DirectoryPage {
    var professionals: seq<Professional>
    var filteredProfessionals: seq<Professional>
    var loading: bool
    var selectedCategory: string
    var searchQuery: string

    ghost predicate Valid()
      reads this
    {
      filteredProfessionals == Search(professionals, selectedCategory, searchQuery)
    }

    constructor ()
      ensures Valid() && loading
      ensures professionals == [] && selectedCategory == AllCategories && searchQuery == []
    {
      professionals, filteredProfessionals := [], [];
      loading := true;
      selectedCategory, searchQuery := AllCategories, [];
    }

    /** `filterProfessionals`: narrows a copy of the loaded list step by step and
        publishes it. */
    method FilterProfessionals()
      modifies this`filteredProfessionals
      ensures Valid()
    {
      var filtered := professionals;
      var category := selectedCategory;
      if category != AllCategories {
        filtered := Filter(filtered, p => InCategory(p, category));
      }
      var searchText := searchQuery;
      if searchText != [] {
        var query := ToLower(searchText);
        filtered := Filter(filtered, p => MatchesQuery(p, query));
      }
      filteredProfessionals := filtered;
    }

    /** `loadProfessionals` with the backend's answer; the list is re-filtered as the
        effect on `professionals` does. On an error the old list stays. */
    method LoadProfessionals(answer: Reply, data: seq<Professional>)
      modifies this
      ensures Valid() && !loading
      ensures professionals == if answer.Ok? then data else old(professionals)
      ensures selectedCategory == old(selectedCategory) && searchQuery == old(searchQuery)
    {
      if answer.Ok? {
        professionals := data;
      }
      loading := false;
      FilterProfessionals();
    }

    /** A category button. */
    method SelectCategory(id: string)
      modifies this
      ensures Valid() && selectedCategory == id
      ensures professionals == old(professionals) && searchQuery == old(searchQuery) && loading == old(loading)
    {
      selectedCategory := id;
      FilterProfessionals();
    }

    /** The search box. */
    method SetSearchQuery(text: string)
      modifies this
      ensures Valid() && searchQuery == text
      ensures professionals == old(professionals) && selectedCategory == old(selectedCategory) && loading == old(loading)
    {
      searchQuery := text;
      FilterProfessionals();
    }
  }
}
