/** The landing page's search box: a case-insensitive substring filter over
    the full project list, re-run from scratch on every keystroke. */
module Search {
  import opened Text
  import opened Lists
  import opened Projects

  /** `tech.toLowerCase().includes(term.toLowerCase())` for some entry. */
  predicate AnyTechMatches(techStack: seq<string>, term: string)
  {
    exists k :: 0 <= k < |techStack| && Contains(Lower(techStack[k]), Lower(term))
  }

  /** The predicate passed to `filter`. */
  predicate Matches(p: Project, term: string)
  {
    || Contains(Lower(p.title), Lower(term))
    || Contains(Lower(p.description), Lower(term))
    || AnyTechMatches(p.techStack, term)
  }

  /** The projects a search for `term` keeps, in list order. */
  function Search(all: seq<Project>, term: string): (r: seq<Project>)
    ensures forall i :: 0 <= i < |r| ==> r[i] in all && Matches(r[i], term)
    ensures forall i :: 0 <= i < |all| && Matches(all[i], term) ==> all[i] in r
  {
    Filter(all, p => Matches(p, term))
  }

  /** The page's state: the text in the box and the projects on screen. */
  datatype IndexPage = IndexPage(searchTerm: string, filtered: seq<Project>)

  /** Before any typing: an empty box and every project shown. */
  function Initial(all: seq<Project>): IndexPage
  {
    IndexPage("", all)
  }

  /** `handleSearch(term)`: store the term and re-filter the full list. */
  function HandleSearch(page: IndexPage, all: seq<Project>, term: string): (r: IndexPage)
    ensures r.searchTerm == term
    ensures IsSubsequence(r.filtered, all)
  {
    FilterIsSubsequence(all, p => Matches(p, term));
    IndexPage(term, Search(all, term))
  }

  /** The screen always shows exactly the search result for the stored term. */
  predicate Consistent(page: IndexPage, all: seq<Project>)
  {
    page.filtered == Search(all, page.searchTerm)
  }

  // ---------------------------------------------------------------------
  // Lemmas

  /** The empty term matches every project. */
  lemma EmptyTermMatches(p: Project)
    ensures Matches(p, "")
  {
    ContainsEmpty(Lower(p.title));
  }

  /** The empty term keeps the whole list, so the initial screen is
      consistent. */
  lemma EmptySearchKeepsAll(all: seq<Project>)
    ensures Search(all, "") == all
    ensures Consistent(Initial(all), all)
  {
    forall i | 0 <= i < |all|
      ensures Matches(all[i], "")
    {
      EmptyTermMatches(all[i]);
    }
    FilterKeepsAll(all, p => Matches(p, ""));
  }

  /** Every search leaves the page consistent, whatever was shown before:
      the result depends on the current term only. */
  lemma SearchRestartsFromFullList(page1: IndexPage, page2: IndexPage, all: seq<Project>, term: string)
    ensures HandleSearch(page1, all, term) == HandleSearch(page2, all, term)
    ensures Consistent(HandleSearch(page1, all, term), all)
    ensures HandleSearch(HandleSearch(page1, all, term), all, term) == HandleSearch(page1, all, term)
  {
  }

  /** Terms that agree after lower-casing match the same projects. */
  lemma {:induction false} CaseInsensitive(all: seq<Project>, t1: string, t2: string)
    requires Lower(t1) == Lower(t2)
    ensures Search(all, t1) == Search(all, t2)
  {
    if |all| > 0 {
      CaseInsensitive(all[1..], t1, t2);
      assert Matches(all[0], t1) == Matches(all[0], t2);
    }
  }

  /** A project matching a longer term matches every substring of it. */
  lemma MatchesShorter(p: Project, shorter: string, longer: string)
    requires Contains(longer, shorter)
    requires Matches(p, longer)
    ensures Matches(p, shorter)
  {
    ContainsLower(longer, shorter);
    if Contains(Lower(p.title), Lower(longer)) {
      ContainsTransitive(Lower(p.title), Lower(longer), Lower(shorter));
    } else if Contains(Lower(p.description), Lower(longer)) {
      ContainsTransitive(Lower(p.description), Lower(longer), Lower(shorter));
    } else {
      var k :| 0 <= k < |p.techStack| && Contains(Lower(p.techStack[k]), Lower(longer));
      ContainsTransitive(Lower(p.techStack[k]), Lower(longer), Lower(shorter));
    }
  }

  /** Lengthening the term only narrows the result: searching for the longer
      term equals searching within the shorter term's result. */
  lemma {:induction false} LongerTermNarrows(all: seq<Project>, shorter: string, longer: string)
    requires Contains(longer, shorter)
    ensures Search(all, longer) == Search(Search(all, shorter), longer)
    ensures IsSubsequence(Search(all, longer), Search(all, shorter))
  {
    if |all| > 0 {
      LongerTermNarrows(all[1..], shorter, longer);
      if Matches(all[0], longer) {
        MatchesShorter(all[0], shorter, longer);
      }
    }
    FilterIsSubsequence(Search(all, shorter), p => Matches(p, longer));
  }

  /** "pow" finds the fixture project whose stack lists "Power BI". */
  lemma PowFindsPowerBi()
    ensures MockProjects[2] in Search(MockProjects, "pow")
  {
    var ts := MockProjects[2].techStack;
    assert Lower("pow") == "pow";
    assert Lower(ts[0])[0..3] == "pow";
    assert OccursAt(Lower(ts[0]), "pow", 0);
    assert AnyTechMatches(ts, "pow");
  }
}
