/** The job seeker's result page (client/src/Pages/Seeker.js): the keywords
    and body of its search request, the per-country count of the jobs that
    come back, the country list sorted by name, and the country and job-type
    filters. */
module Seeker {
  import opened Common
  import opened Text
  import opened Js
  import Api

  const FallbackKeywords := "developer"
  const KeywordSeparator := ", "
  const SearchLimit := 100

  // ---------------------------------------------------------------------
  // The search request of `fetchJobs`

  /** `genome?.strengths?.length` is truthy. */
  predicate HasStrengths(genome: Option<Api.Genome>) {
    genome.Some? && genome.value.strengths.Some? && |genome.value.strengths.value| > 0
  }

  /** `strengths.map(s => s.name)`. */
  function StrengthNames(strengths: seq<Api.Skill>): (names: seq<string>)
    ensures |names| == |strengths|
    ensures forall i :: 0 <= i < |strengths| ==> names[i] == strengths[i].name
  {
    seq(|strengths|, i requires 0 <= i < |strengths| => strengths[i].name)
  }

  /** The keywords `fetchJobs` searches for. */
  function Keywords(searchQuery: string, genome: Option<Api.Genome>): string {
    var query := Trim(searchQuery);
    if query != "" then query
    else if HasStrengths(genome) then Join(StrengthNames(genome.value.strengths.value), KeywordSeparator)
    else FallbackKeywords
  }

  /** The trimmed query wins when it has any non-space character; a blank
      query falls back to the profile's strength names, in order, joined by
      ", " (so every strength is named in the keywords); without strengths
      the search is for "developer". */
  lemma KeywordsChoice(searchQuery: string, genome: Option<Api.Genome>)
    ensures !AllSpace(searchQuery) ==> Keywords(searchQuery, genome) == Trim(searchQuery)
    ensures AllSpace(searchQuery) && !HasStrengths(genome) ==> Keywords(searchQuery, genome) == FallbackKeywords
    ensures AllSpace(searchQuery) && HasStrengths(genome) ==>
      Keywords(searchQuery, genome) == Join(StrengthNames(genome.value.strengths.value), KeywordSeparator)
    ensures AllSpace(searchQuery) && HasStrengths(genome) ==>
      forall s :: s in genome.value.strengths.value ==> Contains(Keywords(searchQuery, genome), s.name)
  {
    if AllSpace(searchQuery) && HasStrengths(genome) {
      var strengths := genome.value.strengths.value;
      forall s | s in strengths ensures Contains(Keywords(searchQuery, genome), s.name) {
        var i :| 0 <= i < |strengths| && strengths[i] == s;
        JoinContainsEach(StrengthNames(strengths), KeywordSeparator, i);
      }
    }
  }

  /** The keywords come out empty in one case only: a blank query and a
      profile whose single strength has an empty name. */
  lemma KeywordsEmptyIff(searchQuery: string, genome: Option<Api.Genome>)
    ensures Keywords(searchQuery, genome) == "" <==>
      AllSpace(searchQuery) && HasStrengths(genome)
      && |genome.value.strengths.value| == 1 && genome.value.strengths.value[0].name == ""
  {
    if AllSpace(searchQuery) && HasStrengths(genome) {
      JoinEmptyIff(StrengthNames(genome.value.strengths.value), KeywordSeparator);
    }
  }

  /** The body `fetchJobs` posts to `/job-search`. */
  function FetchPayload(searchQuery: string, genome: Option<Api.Genome>): Api.RequestBody {
    Api.RequestBody(Str(Keywords(searchQuery, genome)), Str(Api.DefaultExperience), Num(SearchLimit))
  }

  /** What the server makes of the seeker's request: it is refused only when
      the keywords are empty, and otherwise the upstream is asked for 100
      results at experience "potential-to-develop". */
  lemma FetchReachesUpstream(searchQuery: string, genome: Option<Api.Genome>,
                             upstream: Api.SearchPayload -> Api.Upstream<Api.SearchData>)
    ensures var body := FetchPayload(searchQuery, genome);
      && (Api.JobSearch(body, upstream).status == 400 <==> Keywords(searchQuery, genome) == "")
      && Api.BuildPayload(body) ==
         Api.SearchPayload(Some(SearchLimit),
                           [Api.SkillRole(Str(Keywords(searchQuery, genome)), Str(Api.DefaultExperience))])
  {
    Api.PayloadShape(FetchPayload(searchQuery, genome));
  }

  // ---------------------------------------------------------------------
  // Country counts

  /** `job.remote ? 'Remote' : job.location || 'Unknown'`. */
  function RawCountry(job: Api.Job): string {
    if job.remote then "Remote" else if job.location != "" then job.location else "Unknown"
  }

  /** The renaming chain of the counting loop as a table: "columbia" becomes
      "Colombia", both "usa" and "united states" become "USA" and "uk"
      becomes "United Kingdom", ignoring case; anything else is kept. */
  function Canonical(raw: string): string {
    var lower := Lower(raw);
    if lower == "columbia" then "Colombia"
    else if lower == "usa" || lower == "united states" then "USA"
    else if lower == "uk" then "United Kingdom"
    else raw
  }

  /** The country a job is counted under. */
  function CountryName(job: Api.Job): string {
    Canonical(RawCountry(job))
  }

  /** Every job is counted under a non-empty name. */
  lemma CountryNameNonEmpty(job: Api.Job)
    ensures CountryName(job) != ""
  {
    var raw := RawCountry(job);
    assert raw != "";
    assert |Lower(raw)| == |raw|;
  }

  /** `counts[country] = (counts[country] || 0) + 1`. */
  function Bump(counts: map<string, nat>, country: string): map<string, nat> {
    counts[country := (if country in counts then counts[country] else 0) + 1]
  }

  /** The counts after the jobs have been tallied one by one, each under the
      name `country` gives it. */
  function Tally(jobs: seq<Api.Job>, country: Api.Job -> string): map<string, nat> {
    if jobs == [] then map[]
    else Bump(Tally(jobs[..|jobs| - 1], country), country(jobs[|jobs| - 1]))
  }

  /** The `counts` object `fetchJobs` builds. */
  function Histogram(jobs: seq<Api.Job>): map<string, nat> {
    Tally(jobs, CountryName)
  }

  /** The loop's step: bumping the next job's country extends the tally by
      that job. */
  lemma HistogramStep(jobs: seq<Api.Job>, i: int, counts: map<string, nat>, country: string)
    requires 0 <= i < |jobs| && counts == Histogram(jobs[..i]) && country == CountryName(jobs[i])
    ensures Bump(counts, country) == Histogram(jobs[..i + 1])
  {
    assert jobs[..i + 1][..i] == jobs[..i];
  }

  lemma LowerOfRenamed()
    ensures Lower("Colombia") == "colombia"
    ensures Lower("United States") == "united states"
    ensures Lower("United Kingdom") == "united kingdom"
  {
    assert Lower("Colombia") == "colombia" by {
      var l := Lower("Colombia");
      assert l[0] == 'c' && l[1] == 'o' && l[2] == 'l' && l[3] == 'o';
      assert l[4] == 'm' && l[5] == 'b' && l[6] == 'i' && l[7] == 'a';
    }
    assert Lower("United States") == "united states" by {
      var l := Lower("United States");
      assert l[0] == 'u' && l[1] == 'n' && l[2] == 'i' && l[3] == 't' && l[4] == 'e' && l[5] == 'd';
      assert l[6] == ' ' && l[7] == 's' && l[8] == 't' && l[9] == 'a' && l[10] == 't';
      assert l[11] == 'e' && l[12] == 's';
    }
    assert Lower("United Kingdom") == "united kingdom" by {
      var l := Lower("United Kingdom");
      assert l[0] == 'u' && l[1] == 'n' && l[2] == 'i' && l[3] == 't' && l[4] == 'e' && l[5] == 'd';
      assert l[6] == ' ' && l[7] == 'k' && l[8] == 'i' && l[9] == 'n' && l[10] == 'g';
      assert l[11] == 'd' && l[12] == 'o' && l[13] == 'm';
    }
  }

  /** The country the counting loop tallies a job under: "Remote", the
      location or "Unknown", then the four renaming steps in order; a name
      can be renamed twice ("usa" to "United States" to "USA"). */
  method CountryOf(job: Api.Job) returns (country: string)
    ensures country == CountryName(job)
  {
    LowerOfRenamed();
    country := if job.remote then "Remote" else if job.location != "" then job.location else "Unknown";
    if Lower(country) == "columbia" { country := "Colombia"; }
    if Lower(country) == "usa" { country := "United States"; }
    if Lower(country) == "uk" { country := "United Kingdom"; }
    if Lower(country) == "united states" { country := "USA"; }
  }

  /** The `forEach` of `fetchJobs` that builds `counts`: each job's country
      goes through the renaming chain and its count goes up by one. */
  method CountCountries(jobs: seq<Api.Job>) returns (counts: map<string, nat>)
    ensures counts == Histogram(jobs)
  {
    counts := map[];
    var i := 0;
    while i < |jobs|
      invariant 0 <= i <= |jobs|
      invariant counts == Histogram(jobs[..i])
    {
      var job := jobs[i];
      var country := CountryOf(job);
      HistogramStep(jobs, i, counts, country);
      counts := counts[country := (if country in counts then counts[country] else 0) + 1];
      i := i + 1;
    }
    assert jobs[..|jobs|] == jobs;
  }

  /** `job => country(job) === k`. */
  function Having(country: Api.Job -> string, k: string): Api.Job -> bool {
    job => country(job) == k
  }

  /** A name is counted exactly when some job has it, and its count is the
      number of jobs that have it. */
  lemma {:induction false} TallyCount(jobs: seq<Api.Job>, country: Api.Job -> string, k: string)
    ensures k in Tally(jobs, country) <==> |Filter(jobs, Having(country, k))| > 0
    ensures k in Tally(jobs, country) ==> Tally(jobs, country)[k] == |Filter(jobs, Having(country, k))|
  {
    if jobs != [] {
      var init, last := jobs[..|jobs| - 1], jobs[|jobs| - 1];
      TallyCount(init, country, k);
      assert jobs == init + [last];
      FilterAppend(init, [last], Having(country, k));
      assert [last][1..] == [];
    }
  }

  lemma RemoveKey(counts: map<string, nat>, k: string)
    requires k in counts
    ensures (counts - {k}).Keys == counts.Keys - {k}
    ensures |counts - {k}| == |counts| - 1
  {
    assert (counts - {k}).Keys == counts.Keys - {k};
  }

  /** Removing two keys in either order gives the same map. */
  lemma RemoveTwo(counts: map<string, nat>, a: string, b: string)
    ensures counts - {a} - {b} == counts - {b} - {a}
  {
    assert counts - {a} - {b} == counts - {b} - {a};
  }

  /** Some key of a non-empty map. */
  ghost function AnyKey(counts: map<string, nat>): (k: string)
    requires |counts| > 0
    ensures k in counts
  {
    assert counts.Keys != {};
    var k :| k in counts;
    k
  }

  /** The sum of the counts of a map. */
  ghost function Total(counts: map<string, nat>): nat
    decreases |counts|
  {
    if |counts| == 0 then 0
    else
      var k := AnyKey(counts);
      RemoveKey(counts, k);
      counts[k] + Total(counts - {k})
  }

  /** The sum does not depend on which key is taken first. */
  lemma {:induction false} TotalRemove(counts: map<string, nat>, k: string)
    requires k in counts
    ensures Total(counts) == counts[k] + Total(counts - {k})
    decreases |counts|
  {
    var first := AnyKey(counts);
    if first != k {
      var restFirst, restK := counts - {first}, counts - {k};
      RemoveKey(counts, first);
      RemoveKey(counts, k);
      assert k in restFirst && first in restK;
      TotalRemove(restFirst, k);
      TotalRemove(restK, first);
      RemoveTwo(counts, first, k);
    }
  }

  /** Counting one more job adds one to the sum. */
  lemma TotalBump(counts: map<string, nat>, country: string)
    ensures Total(Bump(counts, country)) == Total(counts) + 1
  {
    TotalRemove(Bump(counts, country), country);
    BumpRemove(counts, country);
    if country in counts {
      TotalRemove(counts, country);
    }
  }

  /** Bumping a name and removing it again leaves the other counts alone. */
  lemma BumpRemove(counts: map<string, nat>, country: string)
    ensures Bump(counts, country) - {country} == counts - {country}
    ensures country !in counts ==> counts - {country} == counts
  {
    assert Bump(counts, country) - {country} == counts - {country};
    if country !in counts {
      assert counts - {country} == counts;
    }
  }

  /** The counts sum to the number of jobs and every name present has a
      count of at least one. */
  lemma {:induction false} TallyTotal(jobs: seq<Api.Job>, country: Api.Job -> string)
    ensures Total(Tally(jobs, country)) == |jobs|
    ensures forall k :: k in Tally(jobs, country) ==> Tally(jobs, country)[k] >= 1
  {
    if jobs != [] {
      var init := jobs[..|jobs| - 1];
      TallyTotal(init, country);
      TotalBump(Tally(init, country), country(jobs[|jobs| - 1]));
    }
  }

  /** The names counted are exactly those of the jobs. */
  lemma {:induction false} TallyKeys(jobs: seq<Api.Job>, country: Api.Job -> string)
    ensures forall k :: k in Tally(jobs, country) <==> exists i :: 0 <= i < |jobs| && country(jobs[i]) == k
  {
    if jobs != [] {
      var init, last := jobs[..|jobs| - 1], jobs[|jobs| - 1];
      TallyKeys(init, country);
      assert Tally(jobs, country) == Bump(Tally(init, country), country(last));
      forall k | k in Tally(jobs, country) ensures exists i :: 0 <= i < |jobs| && country(jobs[i]) == k {
        if k != country(last) {
          var i :| 0 <= i < |init| && country(init[i]) == k;
          assert jobs[i] == init[i];
        }
      }
      forall k | exists i :: 0 <= i < |jobs| && country(jobs[i]) == k ensures k in Tally(jobs, country) {
        var i :| 0 <= i < |jobs| && country(jobs[i]) == k;
        if i < |init| {
          assert init[i] == jobs[i];
        }
      }
    }
  }

  /** After the loop the counts sum to the number of jobs, every country
      present has a count of at least one, the countries are exactly those
      of the jobs, and each count is the number of jobs in that country. */
  lemma HistogramSpec(jobs: seq<Api.Job>)
    ensures Total(Histogram(jobs)) == |jobs|
    ensures forall k :: k in Histogram(jobs) <==> exists i :: 0 <= i < |jobs| && CountryName(jobs[i]) == k
    ensures forall k :: k in Histogram(jobs) ==>
      Histogram(jobs)[k] >= 1 && Histogram(jobs)[k] == |Filter(jobs, Having(CountryName, k))|
  {
    TallyTotal(jobs, CountryName);
    TallyKeys(jobs, CountryName);
    forall k | k in Histogram(jobs)
      ensures Histogram(jobs)[k] == |Filter(jobs, Having(CountryName, k))|
    {
      TallyCount(jobs, CountryName, k);
    }
  }

  /** The counts the page shows for a search cover every upstream result:
      they sum to the number of results the server normalised. */
  lemma CountsCoverEveryResult(results: seq<Api.RawJob>)
    ensures Total(Histogram(Api.Normalize(results))) == |results|
  {
    HistogramSpec(Api.Normalize(results));
  }

  // ---------------------------------------------------------------------
  // The country list

  datatype CountryEntry = CountryEntry(name: string, count: nat)

  /** Some element of a non-empty set. */
  ghost function AnyName(names: set<string>): (x: string)
    requires names != {}
    ensures x in names
  {
    var x :| x in names;
    x
  }

  /** Adding a name to a set with a known first name: the first of the two
      is the first of the whole. */
  lemma MinOfAdded(rest: set<string>, x: string, m: string)
    requires m in rest && forall k :: k in rest && k != m ==> Less(m, k)
    ensures var n := if Less(x, m) then x else m;
      n in rest + {x} && forall k :: k in rest + {x} && k != n ==> Less(n, k)
  {
    LessTotal(x, m);
    if Less(x, m) {
      forall k | k in rest + {x} && k != x ensures Less(x, k) {
        if k != m {
          LessTransitive(x, m, k);
        }
      }
    }
  }

  /** The first name in `Less` order. */
  ghost function MinKey(names: set<string>): (m: string)
    requires names != {}
    ensures m in names && forall k :: k in names && k != m ==> Less(m, k)
    decreases |names|
  {
    var x := AnyName(names);
    var rest := names - {x};
    if rest == {} then
      assert names == {x};
      x
    else
      var m := MinKey(rest);
      MinOfAdded(rest, x, m);
      assert rest + {x} == names;
      if Less(x, m) then x else m
  }

  /** `sortedCountries`: the entries of the counts, in name order. */
  ghost function SortedCountries(counts: map<string, nat>): (entries: seq<CountryEntry>)
    ensures |entries| == |counts|
    decreases |counts|
  {
    if |counts| == 0 then []
    else
      var k := MinKey(counts.Keys);
      RemoveKey(counts, k);
      [CountryEntry(k, counts[k])] + SortedCountries(counts - {k})
  }

  /** Every entry of the country list is a counted country with its count. */
  lemma {:induction false} SortedCountriesEntries(counts: map<string, nat>)
    ensures forall i :: 0 <= i < |SortedCountries(counts)| ==>
      SortedCountries(counts)[i].name in counts
      && SortedCountries(counts)[i].count == counts[SortedCountries(counts)[i].name]
    decreases |counts|
  {
    if |counts| != 0 {
      var k := MinKey(counts.Keys);
      var rest := counts - {k};
      RemoveKey(counts, k);
      SortedCountriesEntries(rest);
      var entries := SortedCountries(counts);
      assert entries == [CountryEntry(k, counts[k])] + SortedCountries(rest);
    }
  }

  /** The names of the entries of a country list, in order. */
  function Names(entries: seq<CountryEntry>): (names: seq<string>)
    ensures |names| == |entries|
    ensures forall i :: 0 <= i < |entries| ==> names[i] == entries[i].name
  {
    seq(|entries|, i requires 0 <= i < |entries| => entries[i].name)
  }

  /** Every counted country has an entry in the country list. */
  lemma {:induction false} SortedCountriesComplete(counts: map<string, nat>)
    ensures forall name :: name in counts ==> name in Names(SortedCountries(counts))
    decreases |counts|
  {
    if |counts| != 0 {
      var first := MinKey(counts.Keys);
      var rest := counts - {first};
      RemoveKey(counts, first);
      SortedCountriesComplete(rest);
      var tail := SortedCountries(rest);
      var entries := SortedCountries(counts);
      assert entries == [CountryEntry(first, counts[first])] + tail;
      assert Names(entries) == [first] + Names(tail);
    }
  }

  /** The country list is strictly increasing by name. */
  lemma {:induction false} SortedCountriesOrdered(counts: map<string, nat>)
    ensures forall i, j :: 0 <= i < j < |SortedCountries(counts)| ==>
      Less(SortedCountries(counts)[i].name, SortedCountries(counts)[j].name)
    decreases |counts|
  {
    if |counts| != 0 {
      var k := MinKey(counts.Keys);
      var rest := counts - {k};
      RemoveKey(counts, k);
      SortedCountriesOrdered(rest);
      SortedCountriesEntries(rest);
      var tail := SortedCountries(rest);
      var entries := SortedCountries(counts);
      forall e | e in tail ensures Less(k, e.name) {
        assert e.name in rest;
      }
      ConsOrdered(CountryEntry(k, counts[k]), tail);
    }
  }

  /** An entry whose name comes before every name of a strictly increasing
      list can be put at its front. */
  lemma ConsOrdered(first: CountryEntry, tail: seq<CountryEntry>)
    requires forall e :: e in tail ==> Less(first.name, e.name)
    requires forall i, j :: 0 <= i < j < |tail| ==> Less(tail[i].name, tail[j].name)
    ensures var entries := [first] + tail;
      forall i, j :: 0 <= i < j < |entries| ==> Less(entries[i].name, entries[j].name)
  {
    var entries := [first] + tail;
    forall i, j | 0 <= i < j < |entries| ensures Less(entries[i].name, entries[j].name) {
      assert entries[j] == tail[j - 1];
      if i > 0 {
        assert entries[i] == tail[i - 1];
      }
    }
  }

  /** The country list has one entry per counted country, each with its
      count, strictly increasing by name. */
  lemma SortedCountriesSpec(counts: map<string, nat>)
    ensures var entries := SortedCountries(counts);
      && (forall i :: 0 <= i < |entries| ==>
            entries[i].name in counts && entries[i].count == counts[entries[i].name])
      && (forall k :: k in counts ==> k in Names(entries))
      && (forall i, j :: 0 <= i < j < |entries| ==> Less(entries[i].name, entries[j].name))
  {
    SortedCountriesEntries(counts);
    SortedCountriesComplete(counts);
    SortedCountriesOrdered(counts);
  }

  /** Every entry of the country list names a country some job has and
      shows how many jobs have it. */
  lemma CountryListCountsJobs(jobs: seq<Api.Job>)
    ensures var entries := SortedCountries(Histogram(jobs));
      forall i :: 0 <= i < |entries| ==>
        entries[i].count >= 1 && entries[i].count == |Filter(jobs, Having(CountryName, entries[i].name))|
  {
    SortedCountriesSpec(Histogram(jobs));
    HistogramSpec(jobs);
  }

  // ---------------------------------------------------------------------
  // The filters

  /** The country `filteredJobs` compares, with its own, shorter renaming. */
  function FilterCountry(job: Api.Job): string {
    var c0 := RawCountry(job);
    var c1 := if Lower(c0) == "columbia" then "Colombia" else c0;
    if Lower(c1) == "united states" then "USA" else c1
  }

  /** `job.remote ? 'remote' : 'onsite'`. */
  function JobType(job: Api.Job): string {
    if job.remote then "remote" else "onsite"
  }

  /** The renaming of `filteredJobs` as a table: only "columbia" and
      "united states" are renamed; "usa" and "uk" are left as they are. */
  lemma FilterCountryTable(job: Api.Job)
    ensures Lower(RawCountry(job)) == "columbia" ==> FilterCountry(job) == "Colombia"
    ensures Lower(RawCountry(job)) == "united states" ==> FilterCountry(job) == "USA"
    ensures Lower(RawCountry(job)) != "columbia" && Lower(RawCountry(job)) != "united states" ==>
      FilterCountry(job) == RawCountry(job)
  {
    LowerOfRenamed();
  }

  function Keep(countryFilter: string, typeFilter: string): Api.Job -> bool {
    job => (countryFilter == "" || FilterCountry(job) == countryFilter)
        && (typeFilter == "" || JobType(job) == typeFilter)
  }

  /** `filteredJobs`: the jobs, in order, that pass both filters; an empty
      filter passes everything, and a job type other than "remote" and
      "onsite" passes nothing. */
  function FilteredJobs(jobs: seq<Api.Job>, countryFilter: string, typeFilter: string): (shown: seq<Api.Job>)
    ensures IsSubsequence(shown, jobs)
    ensures forall job :: job in shown <==>
      job in jobs && (countryFilter == "" || FilterCountry(job) == countryFilter)
      && (typeFilter == "" || JobType(job) == typeFilter)
    ensures forall job ::
      multiset(shown)[job] ==
        if countryFilter != "" && FilterCountry(job) != countryFilter then 0
        else if typeFilter != "" && JobType(job) != typeFilter then 0
        else multiset(jobs)[job]
    ensures countryFilter == "" && typeFilter == "" ==> shown == jobs
    ensures typeFilter != "" && typeFilter != "remote" && typeFilter != "onsite" ==> shown == []
  {
    KeepEdgeCases(jobs, countryFilter, typeFilter);
    FilterMultiplicity(jobs, Keep(countryFilter, typeFilter));
    Filter(jobs, Keep(countryFilter, typeFilter))
  }

  lemma KeepEdgeCases(jobs: seq<Api.Job>, countryFilter: string, typeFilter: string)
    ensures countryFilter == "" && typeFilter == "" ==> Filter(jobs, Keep(countryFilter, typeFilter)) == jobs
    ensures typeFilter != "" && typeFilter != "remote" && typeFilter != "onsite" ==>
      Filter(jobs, Keep(countryFilter, typeFilter)) == []
  {
    if countryFilter == "" && typeFilter == "" {
      FilterAll(jobs, Keep(countryFilter, typeFilter));
    }
    if typeFilter != "" && typeFilter != "remote" && typeFilter != "onsite" {
      FilterNone(jobs, Keep(countryFilter, typeFilter));
    }
  }

  /** The country buttons set the filter to a name from the counts, but the
      filter renames less than the counts do: a job located in "usa" is
      counted under "USA", and choosing "USA" hides it. */
  lemma CountryButtonHidesCountedJob()
    ensures var job := Api.Job("1", "Engineer", "full-time-employment", false, "usa", None, [], None, None);
      && Histogram([job]) == map["USA" := 1]
      && FilteredJobs([job], "USA", "") == []
  {
    var job := Api.Job("1", "Engineer", "full-time-employment", false, "usa", None, [], None, None);
    assert Lower("usa") == "usa";
    assert CountryName(job) == "USA";
    assert FilterCountry(job) == "usa";
    assert [job][..0] == [];
  }

  function KeepByCountryName(countryFilter: string, typeFilter: string): Api.Job -> bool {
    job => (countryFilter == "" || CountryName(job) == countryFilter)
        && (typeFilter == "" || JobType(job) == typeFilter)
  }

  /** `filteredJobs` comparing the same country name the counts use. */
  function FilteredJobsByCountryName(jobs: seq<Api.Job>, countryFilter: string, typeFilter: string)
    : (shown: seq<Api.Job>)
    ensures IsSubsequence(shown, jobs)
    ensures forall job :: job in shown <==>
      job in jobs && (countryFilter == "" || CountryName(job) == countryFilter)
      && (typeFilter == "" || JobType(job) == typeFilter)
    ensures forall job ::
      multiset(shown)[job] ==
        if countryFilter != "" && CountryName(job) != countryFilter then 0
        else if typeFilter != "" && JobType(job) != typeFilter then 0
        else multiset(jobs)[job]
  {
    FilterMultiplicity(jobs, KeepByCountryName(countryFilter, typeFilter));
    Filter(jobs, KeepByCountryName(countryFilter, typeFilter))
  }

  /** With the counts' own names, choosing a country shows exactly as many
      jobs as its button counts. */
  lemma CountryButtonShowsItsCount(jobs: seq<Api.Job>, k: string)
    requires k in Histogram(jobs)
    ensures |FilteredJobsByCountryName(jobs, k, "")| == Histogram(jobs)[k]
  {
    HistogramSpec(jobs);
    var i :| 0 <= i < |jobs| && CountryName(jobs[i]) == k;
    CountryNameNonEmpty(jobs[i]);
    FilterExtensional(jobs, KeepByCountryName(k, ""), Having(CountryName, k));
  }

  // ---------------------------------------------------------------------
  // The first search after mounting

  /** The mount effect stores the profile with `setGenome` and calls the
      `fetchJobs` of the first render, whose `genome` is still the initial
      `null`; the query is the default `''`. */
  function MountFetchKeywords(stored: Api.Genome): string {
    Keywords("", None)
  }

  /** So the first search ignores the stored profile's strengths. */
  lemma MountFetchIgnoresProfile()
    ensures var stored := Api.Genome(Some([Api.Skill("Go", Some(3))]));
      && HasStrengths(Some(stored))
      && MountFetchKeywords(stored) == FallbackKeywords
      && MountFetchKeywordsIntended(stored) == "Go"
  {
    assert AllSpace("");
  }

  /** The first search with the stored profile in view. */
  function MountFetchKeywordsIntended(stored: Api.Genome): string {
    Keywords("", Some(stored))
  }

  /** With the stored profile in view, the first search is for the
      profile's strength names joined by ", ", so it names every strength of
      a profile that has any. */
  lemma MountFetchUsesProfile(stored: Api.Genome)
    requires HasStrengths(Some(stored))
    ensures MountFetchKeywordsIntended(stored) == Join(StrengthNames(stored.strengths.value), KeywordSeparator)
    ensures forall s :: s in stored.strengths.value ==> Contains(MountFetchKeywordsIntended(stored), s.name)
  {
    assert AllSpace("");
    KeywordsChoice("", Some(stored));
  }
}
