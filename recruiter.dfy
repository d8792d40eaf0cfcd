/** The recruiter's result page (client/src/Pages/Recruiter.js): the keywords
    and body of its search request, what the page keeps of the reply, the
    location filter, the experience label and the ranking of a profile's
    top skills. The page's suggestion dropdown is `Suggestions.SuggestionsFor`. */
module Recruiter {
  import opened Common
  import opened Text
  import opened Js
  import Api

  const FallbackKeywords := "developer"
  const SearchLimit := 20
  const NoResults := "No results found. Try different search criteria."
  const SearchFailedFallback := "Failed to search talent. Please try again."
  const DefaultTopSkills := 4

  // ---------------------------------------------------------------------
  // The search request of `searchPeople`

  /** `searchQuery || skills || recruiterIndustry || 'developer'`: the first
      non-empty of the four. */
  function Keywords(searchQuery: string, skills: string, industry: string): (k: string)
    ensures k != ""
    ensures k == searchQuery || k == skills || k == industry || k == FallbackKeywords
  {
    if searchQuery != "" then searchQuery
    else if skills != "" then skills
    else if industry != "" then industry
    else FallbackKeywords
  }

  /** The earlier a source of keywords comes in the chain, the more it
      counts: a non-empty argument always wins, the typed skills win over the
      industry, and the fallback is used only when all three are empty. */
  lemma KeywordsPrecedence(searchQuery: string, skills: string, industry: string)
    ensures searchQuery != "" ==> Keywords(searchQuery, skills, industry) == searchQuery
    ensures searchQuery == "" && skills != "" ==> Keywords(searchQuery, skills, industry) == skills
    ensures searchQuery == "" && skills == "" && industry != "" ==>
      Keywords(searchQuery, skills, industry) == industry
    ensures Keywords(searchQuery, skills, industry) == FallbackKeywords <==>
      (searchQuery == "" || searchQuery == FallbackKeywords)
      && (searchQuery != "" || skills == "" || skills == FallbackKeywords)
      && (searchQuery != "" || skills != "" || industry == "" || industry == FallbackKeywords)
  {
  }

  /** `experienceFilter || 'potential-to-develop'`. */
  function Experience(experienceFilter: string): (e: string)
    ensures e != ""
    ensures experienceFilter != "" ==> e == experienceFilter
    ensures experienceFilter == "" ==> e == Api.DefaultExperience
  {
    if experienceFilter != "" then experienceFilter else Api.DefaultExperience
  }

  /** The body `searchPeople` posts to `/job-search`. */
  function Payload(searchQuery: string, skills: string, industry: string, experienceFilter: string)
    : Api.RequestBody
  {
    Api.RequestBody(Str(Keywords(searchQuery, skills, industry)), Str(Experience(experienceFilter)), Num(SearchLimit))
  }

  /** The server never refuses the recruiter's request, and asks the
      upstream for 20 results with the chosen keywords and experience. */
  lemma PayloadAccepted(searchQuery: string, skills: string, industry: string, experienceFilter: string,
                        upstream: Api.SearchPayload -> Api.Upstream<Api.SearchData>)
    ensures var body := Payload(searchQuery, skills, industry, experienceFilter);
      && Api.JobSearch(body, upstream).status != 400
      && Api.BuildPayload(body) ==
         Api.SearchPayload(Some(SearchLimit),
                           [Api.SkillRole(Str(Keywords(searchQuery, skills, industry)),
                                          Str(Experience(experienceFilter)))])
  {
    Api.PayloadShape(Payload(searchQuery, skills, industry, experienceFilter));
  }

  // ---------------------------------------------------------------------
  // What the page keeps of the reply

  /** How the request ends for the page: a 2xx reply with its body, or the
      error the HTTP client throws, with `err.response?.data?.error` (absent
      when there was no reply or it had no such field) and `err.message`. */
  datatype Outcome =
    | Answered(data: Api.Body)
    | Failed(responseError: Option<string>, message: string)

  /** The page's `results` and `error` after the request. */
  datatype SearchState = SearchState(results: seq<Api.Job>, error: string)

  /** The `try`/`catch` of `searchPeople`: a non-empty list of jobs is shown
      as it is; any other reply shows no results with the "No results found"
      message; a failure shows no results with the first non-empty of the
      server's error, the client's message and a fixed fallback. */
  function AfterSearch(outcome: Outcome): (st: SearchState)
    ensures st.results == [] <==> st.error != ""
    ensures st.results != [] ==> outcome == Answered(Api.Jobs(st.results))
    ensures outcome.Answered? && outcome.data.Jobs? && outcome.data.jobs != [] ==>
      st == SearchState(outcome.data.jobs, "")
    ensures outcome.Answered? && !(outcome.data.Jobs? && outcome.data.jobs != []) ==>
      st == SearchState([], NoResults)
    ensures outcome.Failed? ==>
      st.error == (if outcome.responseError.Some? && outcome.responseError.value != "" then outcome.responseError.value
                   else if outcome.message != "" then outcome.message
                   else SearchFailedFallback)
  {
    match outcome
    case Answered(data) =>
      if data.Jobs? && |data.jobs| > 0 then SearchState(data.jobs, "") else SearchState([], NoResults)
    case Failed(responseError, message) =>
      var e := if responseError.Some? && responseError.value != "" then responseError.value
               else if message != "" then message
               else SearchFailedFallback;
      SearchState([], e)
  }

  /** How the HTTP client turns a response of the server into an outcome: a
      2xx status is answered with the body; any other status throws, with the
      body's `error` and the client's standard message. */
  function Deliver(r: Api.Response): Outcome {
    if 200 <= r.status < 300 then Answered(r.body)
    else Failed(if r.body.Error? then Some(r.body.error) else None,
                "Request failed with status code " + NumberToString(r.status))
  }

  /** End to end: when the upstream returns results, the page shows their
      normalised records, or "No results found" when there are none; when it
      fails, the page shows the server's "Failed to search jobs". */
  lemma SearchEndToEnd(searchQuery: string, skills: string, industry: string, experienceFilter: string,
                       upstream: Api.SearchPayload -> Api.Upstream<Api.SearchData>)
    ensures var body := Payload(searchQuery, skills, industry, experienceFilter);
      var reply := upstream(Api.BuildPayload(body));
      var st := AfterSearch(Deliver(Api.JobSearch(body, upstream)));
      && (reply.Replied? && Api.NormalizeResults(reply.data) != [] ==>
            st == SearchState(Api.NormalizeResults(reply.data), ""))
      && (reply.Replied? && Api.NormalizeResults(reply.data) == [] ==> st == SearchState([], NoResults))
      && (reply.Threw? ==> st == SearchState([], Api.SearchFailed))
  {
    var body := Payload(searchQuery, skills, industry, experienceFilter);
    Api.AcceptedSearchOutcome(body, upstream);
  }

  // ---------------------------------------------------------------------
  // The location filter

  /** `(job.location || '').toLowerCase().includes(locationFilter.toLowerCase())`. */
  function AtLocation(locationFilter: string): Api.Job -> bool {
    (job: Api.Job) => ContainsIgnoringCase(job.location, locationFilter)
  }

  /** `filteredResults`: all results for an empty filter, otherwise exactly
      the results, in order, whose location contains the filter ignoring
      case. */
  function FilteredResults(results: seq<Api.Job>, locationFilter: string): (shown: seq<Api.Job>)
    ensures locationFilter == "" ==> shown == results
    ensures IsSubsequence(shown, results)
    ensures forall job :: job in shown <==>
      job in results && (locationFilter == "" || ContainsIgnoringCase(job.location, locationFilter))
    ensures forall job ::
      multiset(shown)[job] ==
        if locationFilter == "" || ContainsIgnoringCase(job.location, locationFilter)
        then multiset(results)[job] else 0
  {
    FilterMultiplicity(results, AtLocation(locationFilter));
    if locationFilter == "" then
      assert IsSubsequence(results, results) by { FilterAll(results, AtLocation("")); }
      results
    else Filter(results, AtLocation(locationFilter))
  }

  /** Applying the location filter to its own output changes nothing. */
  lemma FilteredResultsIdempotent(results: seq<Api.Job>, locationFilter: string)
    ensures FilteredResults(FilteredResults(results, locationFilter), locationFilter)
         == FilteredResults(results, locationFilter)
  {
    if locationFilter != "" {
      FilterIdempotent(results, AtLocation(locationFilter));
    }
  }

  lemma {:induction false} LowerIdempotent(s: string)
    ensures Lower(Lower(s)) == Lower(s)
  {
    assert forall i :: 0 <= i < |s| ==> Lower(Lower(s))[i] == Lower(s)[i];
  }

  /** The filter ignores the case of what is typed into it. */
  lemma FilteredResultsIgnoreCase(results: seq<Api.Job>, locationFilter: string)
    ensures FilteredResults(results, Lower(locationFilter)) == FilteredResults(results, locationFilter)
  {
    LowerIdempotent(locationFilter);
    if locationFilter != "" {
      FilterExtensional(results, AtLocation(Lower(locationFilter)), AtLocation(locationFilter));
    }
  }

  // ---------------------------------------------------------------------
  // The experience label

  /** `getExperienceLevel`: the label of each of the three experience codes,
      and "Any" for every other value. */
  function ExperienceLevel(code: string): (level: string)
    ensures level == "1+ years" <==> code == "1-plus-year"
    ensures level == "2+ years" <==> code == "2-plus-years"
    ensures level == "5+ years" <==> code == "5-plus-years"
    ensures level == "Any" <==> code != "1-plus-year" && code != "2-plus-years" && code != "5-plus-years"
  {
    if code == "1-plus-year" then "1+ years"
    else if code == "2-plus-years" then "2+ years"
    else if code == "5-plus-years" then "5+ years"
    else "Any"
  }

  // ---------------------------------------------------------------------
  // Top skills

  /** `s.proficiency || 0`. */
  function Proficiency(s: Api.Skill): int {
    if s.proficiency.Some? then s.proficiency.value else 0
  }

  /** The comparator of `getTopSkills` puts `a` before `b`: higher
      proficiency first, equal proficiency by name. */
  predicate Precedes(a: Api.Skill, b: Api.Skill) {
    Proficiency(a) > Proficiency(b) || (Proficiency(a) == Proficiency(b) && Less(a.name, b.name))
  }

  /** No skill is placed after one it precedes. */
  predicate Ranked(s: seq<Api.Skill>) {
    forall i, j :: 0 <= i < j < |s| ==> !Precedes(s[j], s[i])
  }

  lemma PrecedesAsymmetric(a: Api.Skill, b: Api.Skill)
    ensures !(Precedes(a, b) && Precedes(b, a))
  {
    LessAsymmetric(a.name, b.name);
  }

  /** The comparator is a strict weak order: if `a` precedes `c`, then
      every `b` comes after `a` or before `c`. */
  lemma PrecedesSplit(a: Api.Skill, b: Api.Skill, c: Api.Skill)
    requires Precedes(a, c)
    ensures Precedes(a, b) || Precedes(b, c)
  {
    if Proficiency(a) == Proficiency(b) && Proficiency(b) == Proficiency(c) {
      LessTotal(a.name, b.name);
      if Less(b.name, a.name) {
        LessTransitive(b.name, a.name, c.name);
      }
    }
  }

  /** The skills the comparator cannot tell from `x`: neither precedes the
      other. */
  function Tied(x: Api.Skill): Api.Skill -> bool {
    y => !Precedes(x, y) && !Precedes(y, x)
  }

  /** Places `x` after the skills that precede it and before the rest, so
      that of two equal skills the earlier stays first. */
  function Insert(x: Api.Skill, s: seq<Api.Skill>): (r: seq<Api.Skill>)
    ensures multiset(r) == multiset(s) + multiset{x}
    ensures Ranked(s) ==> Ranked(r)
  {
    if s == [] then [x]
    else if Precedes(s[0], x) then
      var rest := Insert(x, s[1..]);
      assert s == [s[0]] + s[1..];
      InsertRanked(x, s, rest);
      [s[0]] + rest
    else
      InsertFront(x, s);
      [x] + s
  }

  lemma InsertRanked(x: Api.Skill, s: seq<Api.Skill>, rest: seq<Api.Skill>)
    requires s != [] && Precedes(s[0], x)
    requires multiset(rest) == multiset(s[1..]) + multiset{x}
    requires Ranked(s[1..]) ==> Ranked(rest)
    ensures Ranked(s) ==> Ranked([s[0]] + rest)
  {
    if Ranked(s) {
      assert Ranked(s[1..]);
      var r := [s[0]] + rest;
      forall j | 0 < j < |r| ensures !Precedes(r[j], s[0]) {
        assert r[j] == rest[j - 1];
        assert rest[j - 1] in multiset(rest);
        if rest[j - 1] == x {
          PrecedesAsymmetric(s[0], x);
        } else {
          assert rest[j - 1] in multiset(s[1..]);
          var k :| 0 <= k < |s[1..]| && s[1..][k] == rest[j - 1];
          assert s[k + 1] == rest[j - 1];
        }
      }
    }
  }

  lemma InsertFront(x: Api.Skill, s: seq<Api.Skill>)
    requires s != [] && !Precedes(s[0], x)
    ensures Ranked(s) ==> Ranked([x] + s)
  {
    if Ranked(s) {
      var r := [x] + s;
      forall j | 0 < j < |r| ensures !Precedes(r[j], x) {
        if j > 1 && Precedes(r[j], x) {
          PrecedesSplit(r[j], s[0], x);
        }
      }
    }
  }

  /** Inserting `x` puts it before every skill tied with it, so among the
      skills tied with any `z`, `x` comes first. */
  lemma {:induction false} InsertTied(x: Api.Skill, r: seq<Api.Skill>, z: Api.Skill)
    ensures Filter(Insert(x, r), Tied(z)) == (if Tied(z)(x) then [x] else []) + Filter(r, Tied(z))
  {
    if r == [] {
      FilterCons(x, [], Tied(z));
    } else if Precedes(r[0], x) {
      assert r == [r[0]] + r[1..];
      InsertTied(x, r[1..], z);
      FilterCons(r[0], Insert(x, r[1..]), Tied(z));
      FilterCons(r[0], r[1..], Tied(z));
      if Tied(z)(x) {
        PrecedesSplit(r[0], z, x);
      }
    } else {
      FilterCons(x, r, Tied(z));
    }
  }

  /** One step of the stable sort: inserting the head into a sorted tail
      that keeps the tail's tied skills in order keeps the whole input's. */
  lemma InsertStable(x: Api.Skill, r: seq<Api.Skill>, t: seq<Api.Skill>)
    requires forall z :: Filter(r, Tied(z)) == Filter(t, Tied(z))
    ensures forall z :: Filter(Insert(x, r), Tied(z)) == Filter([x] + t, Tied(z))
  {
    forall z ensures Filter(Insert(x, r), Tied(z)) == Filter([x] + t, Tied(z)) {
      InsertTied(x, r, z);
      FilterCons(x, t, Tied(z));
    }
  }

  /** `[...strengths].sort(comparator)`: a sorted copy, modelled as a stable
      insertion sort; skills the comparator ties keep their input order. */
  function SortByRank(s: seq<Api.Skill>): (r: seq<Api.Skill>)
    ensures multiset(r) == multiset(s)
    ensures Ranked(r)
    ensures forall z :: Filter(r, Tied(z)) == Filter(s, Tied(z))
  {
    if s == [] then []
    else
      assert s == [s[0]] + s[1..];
      InsertStable(s[0], SortByRank(s[1..]), s[1..]);
      Insert(s[0], SortByRank(s[1..]))
  }

  /** `getTopSkills(strengths, count)`; `None` for `count` is the default 4. */
  function TopSkills(strengths: Option<seq<Api.Skill>>, count: Option<int>): (top: seq<Api.Skill>)
    ensures strengths.None? || strengths.value == [] ==> top == []
    ensures strengths.Some? ==>
      |top| == SliceEnd(|strengths.value|, if count.Some? then count.value else DefaultTopSkills)
    ensures Ranked(top)
    ensures strengths.Some? ==> multiset(top) <= multiset(strengths.value)
    ensures strengths.Some? ==>
      forall x, y :: x in multiset(strengths.value) - multiset(top) && y in top ==> !Precedes(x, y)
    ensures strengths.Some? ==> forall z ::
      Filter(top, Tied(z)) == Take(Filter(strengths.value, Tied(z)), |Filter(top, Tied(z))|)
  {
    if strengths.None? || strengths.value == [] then []
    else
      var sorted := SortByRank(strengths.value);
      var k := SliceEnd(|sorted|, if count.Some? then count.value else DefaultTopSkills);
      var top := sorted[..k];
      TopOfRanked(strengths.value, sorted, k);
      TopKeepsTiedOrder(strengths.value, sorted, k);
      top
  }

  lemma TopOfRanked(s: seq<Api.Skill>, sorted: seq<Api.Skill>, k: nat)
    requires Ranked(sorted) && multiset(sorted) == multiset(s) && k <= |sorted|
    ensures Ranked(sorted[..k])
    ensures multiset(sorted[..k]) <= multiset(s)
    ensures forall x, y :: x in multiset(s) - multiset(sorted[..k]) && y in sorted[..k] ==> !Precedes(x, y)
  {
    assert sorted == sorted[..k] + sorted[k..];
    assert multiset(s) - multiset(sorted[..k]) == multiset(sorted[k..]);
    RankedSplit(sorted, k);
  }

  /** Cutting a stably sorted copy keeps, among tied skills, the earliest
      ones of the input. */
  lemma TopKeepsTiedOrder(s: seq<Api.Skill>, sorted: seq<Api.Skill>, k: nat)
    requires forall z :: Filter(sorted, Tied(z)) == Filter(s, Tied(z))
    requires k <= |sorted|
    ensures forall z ::
      Filter(sorted[..k], Tied(z)) == Take(Filter(s, Tied(z)), |Filter(sorted[..k], Tied(z))|)
  {
    assert sorted == sorted[..k] + sorted[k..];
    forall z ensures Filter(sorted[..k], Tied(z)) == Take(Filter(s, Tied(z)), |Filter(sorted[..k], Tied(z))|) {
      FilterAppend(sorted[..k], sorted[k..], Tied(z));
      var a := Filter(sorted[..k], Tied(z));
      assert Take(Filter(s, Tied(z)), |a|) == a;
    }
  }

  /** In a ranked list, nothing after position `k` precedes anything
      before it. */
  lemma RankedSplit(sorted: seq<Api.Skill>, k: nat)
    requires Ranked(sorted) && k <= |sorted|
    ensures forall x, y :: x in multiset(sorted[k..]) && y in sorted[..k] ==> !Precedes(x, y)
  {
    forall x, y | x in multiset(sorted[k..]) && y in sorted[..k] ensures !Precedes(x, y) {
      var j :| 0 <= j < |sorted[k..]| && sorted[k..][j] == x;
      var i :| 0 <= i < k && sorted[..k][i] == y;
      assert sorted[k + j] == x && sorted[i] == y;
    }
  }

  /** Of two skills the comparator ties (the same name, proficiency 0 and
      absent), a cut of one keeps the one listed first. */
  lemma TopSkillsKeepsEarlierTwin()
    ensures var a, b := Api.Skill("x", Some(0)), Api.Skill("x", None);
      TopSkills(Some([a, b]), Some(1)) == [a]
  {
    var a, b := Api.Skill("x", Some(0)), Api.Skill("x", None);
    LessIrreflexive("x");
    var top := TopSkills(Some([a, b]), Some(1));
    assert Tied(a)(a) && Tied(a)(b);
    FilterAll([a, b], Tied(a));
    FilterAll(top, Tied(a));
    assert top == [top[0]];
  }

  /** The first of the top skills ranks at least as high as every skill of
      the profile. */
  lemma TopSkillLeads(strengths: seq<Api.Skill>, count: Option<int>)
    requires strengths != []
    requires count.None? || count.value > 0
    ensures var top := TopSkills(Some(strengths), count);
      top != [] && forall x :: x in strengths ==> !Precedes(x, top[0])
  {
    var top := TopSkills(Some(strengths), count);
    var sorted := SortByRank(strengths);
    assert top == sorted[..|top|];
    forall x | x in strengths ensures !Precedes(x, top[0]) {
      assert x in multiset(sorted);
      var j :| 0 <= j < |sorted| && sorted[j] == x;
      assert sorted[0] == top[0];
      if j == 0 {
        LessIrreflexive(x.name);
      }
    }
  }
}
