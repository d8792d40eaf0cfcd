/** The job-search and genome routes of the backend (server/routes/api.js):
    request validation and defaults, the upstream search envelope, the
    one-to-one normalisation of upstream results, and the mapping of every
    failure to status 500. The upstream HTTP services are parameters: a
    function from what is sent to what comes back, or the error thrown. */
module Api {
  import opened Common
  import opened Js

  const KeywordsRequired := "Keywords are required"
  const SearchFailed := "Failed to search jobs"
  const GenomeFailed := "Failed to fetch genome data"
  const DefaultExperience := "potential-to-develop"
  const DefaultLimit := 100
  const UnknownLocation := "Unknown"

  // ---------------------------------------------------------------------
  // Upstream records

  datatype Location = Location(name: Option<string>)
  datatype Organization = Organization(id: int, name: string, picture: string)
  datatype Compensation =
    Compensation(visible: bool, minAmount: Option<int>, maxAmount: Option<int>, currency: string)
  /** A skill of a job, or a strength of a genome; `proficiency` is numeric
      where the pages compare it. */
  datatype Skill = Skill(name: string, proficiency: Option<int>)

  /** One entry of the upstream search `results`; `None` is an absent field. */
  datatype RawJob = RawJob(
    id: string, objective: string, jobType: string, remote: bool,
    locations: Option<seq<Location>>, organizations: Option<seq<Organization>>,
    skills: Option<seq<Skill>>, compensation: Option<Compensation>, deadline: Option<string>)

  /** The flat record the route returns; `organization == None` is the empty
      object `{}`. */
  datatype Job = Job(
    id: string, objective: string, jobType: string, remote: bool,
    location: string, organization: Option<Organization>, skills: seq<Skill>,
    compensation: Option<Compensation>, deadline: Option<string>)

  /** The upstream search response body. */
  datatype SearchData = SearchData(results: Option<seq<RawJob>>)

  /** The genome (profile) document, forwarded verbatim; only the strengths
      are read by the pages. */
  datatype Genome = Genome(strengths: Option<seq<Skill>>)

  // ---------------------------------------------------------------------
  // Requests, upstream calls, responses

  /** The JSON body of `POST /job-search`. */
  datatype RequestBody = RequestBody(keywords: JsValue, experience: JsValue, limit: JsValue)

  /** `{"skill/role": {text, experience}}`. */
  datatype Clause = SkillRole(text: JsValue, experience: JsValue)

  /** `{size, and}`; a `size` of `None` is NaN, sent as `null`. */
  datatype SearchPayload = SearchPayload(size: Option<int>, and: seq<Clause>)

  /** What an upstream call throws: `error.response?.data` and `error.message`. */
  datatype UpstreamError = UpstreamError(responseData: Option<string>, message: string)

  datatype Upstream<T> = Replied(data: T) | Threw(error: UpstreamError)

  datatype Body =
    | Jobs(jobs: seq<Job>)
    | Profile(genome: Genome)
    | Error(error: string, details: Option<string>)

  datatype Response = Response(status: int, body: Body)

  // ---------------------------------------------------------------------
  // Job search

  /** A destructuring default: it applies only when the field is absent. */
  function WithDefault(v: JsValue, default: JsValue): JsValue {
    if v.Undefined? then default else v
  }

  /** The upstream search envelope built from a request body. */
  function BuildPayload(body: RequestBody): SearchPayload {
    SearchPayload(
      ParseInt(WithDefault(body.limit, Num(DefaultLimit))),
      [SkillRole(body.keywords, WithDefault(body.experience, Str(DefaultExperience)))])
  }

  /** The envelope carries exactly one `skill/role` clause with the keywords
      as given and the experience or its default, and a size read from the
      limit or its default of 100. */
  lemma PayloadShape(body: RequestBody)
    ensures var p := BuildPayload(body);
      && |p.and| == 1
      && p.and[0].text == body.keywords
      && (body.experience.Undefined? ==> p.and[0].experience == Str(DefaultExperience))
      && (!body.experience.Undefined? ==> p.and[0].experience == body.experience)
      && (body.limit.Undefined? ==> p.size == Some(DefaultLimit))
      && (body.limit.Num? ==> p.size == Some(body.limit.n))
      && (body.limit.Null? || body.limit.Bool? ==> p.size == None)
  {
    ParseIntOfValue(WithDefault(body.limit, Num(DefaultLimit)));
  }

  /** A limit sent as the decimal text of an integer gives that size. */
  lemma PayloadSizeFromText(body: RequestBody, n: int)
    requires body.limit == Str(NumberToString(n))
    ensures BuildPayload(body).size == Some(n)
  {
    ParseIntRoundTrip(n);
  }

  /** `locations?.[0]?.name`. */
  function FirstLocationName(locations: Option<seq<Location>>): Option<string> {
    if locations.None? || locations.value == [] then None else locations.value[0].name
  }

  /** The mapping of one upstream result. */
  function NormalizeJob(raw: RawJob): (job: Job)
    ensures job.location != ""
    ensures job.location == UnknownLocation <==>
      FirstLocationName(raw.locations) in {None, Some(""), Some(UnknownLocation)}
    ensures job.location != UnknownLocation ==> FirstLocationName(raw.locations) == Some(job.location)
    ensures job.organization.None? <==> raw.organizations.None? || raw.organizations.value == []
    ensures job.organization.Some? ==> job.organization.value == raw.organizations.value[0]
    ensures raw.skills.None? ==> job.skills == []
    ensures raw.skills.Some? ==> job.skills == raw.skills.value
    ensures job.id == raw.id && job.objective == raw.objective && job.jobType == raw.jobType
    ensures job.remote == raw.remote && job.compensation == raw.compensation
    ensures job.deadline == raw.deadline
  {
    var name := FirstLocationName(raw.locations);
    Job(
      raw.id, raw.objective, raw.jobType, raw.remote,
      if name.Some? && name.value != "" then name.value else UnknownLocation,
      if raw.organizations.Some? && raw.organizations.value != [] then Some(raw.organizations.value[0]) else None,
      if raw.skills.Some? then raw.skills.value else [],
      raw.compensation, raw.deadline)
  }

  /** `results.map(...)`: one output per input, in the same order. */
  function Normalize(results: seq<RawJob>): (jobs: seq<Job>)
    ensures |jobs| == |results|
    ensures forall i :: 0 <= i < |results| ==> jobs[i] == NormalizeJob(results[i])
  {
    if results == [] then [] else [NormalizeJob(results[0])] + Normalize(results[1..])
  }

  /** `(data.results || []).map(...)`. */
  function NormalizeResults(data: SearchData): (jobs: seq<Job>)
    ensures data.results.None? ==> jobs == []
    ensures data.results.Some? ==> |jobs| == |data.results.value|
    ensures data.results.Some? ==>
      forall i :: 0 <= i < |jobs| ==> jobs[i] == NormalizeJob(data.results.value[i])
  {
    if data.results.None? then [] else Normalize(data.results.value)
  }

  /** Normalising a concatenation normalises the parts independently. */
  lemma {:induction false} NormalizeAppend(a: seq<RawJob>, b: seq<RawJob>)
    ensures Normalize(a + b) == Normalize(a) + Normalize(b)
  {
    if a != [] {
      assert (a + b)[1..] == a[1..] + b;
      NormalizeAppend(a[1..], b);
    } else {
      assert a + b == b;
    }
  }

  /** `error.response?.data || error.message`. */
  function Details(e: UpstreamError): string {
    if e.responseData.Some? && e.responseData.value != "" then e.responseData.value else e.message
  }

  /** The handler of `POST /job-search`. */
  function JobSearch(body: RequestBody, upstream: SearchPayload -> Upstream<SearchData>): (r: Response)
    ensures r.status == 200 || r.status == 400 || r.status == 500
    ensures r.status == 400 <==> !Truthy(body.keywords)
    ensures r.status == 400 ==> r.body == Error(KeywordsRequired, None)
    ensures r.status == 500 ==> r.body.Error? && r.body.error == SearchFailed
    ensures r.status == 200 ==> r.body.Jobs?
  {
    if !Truthy(body.keywords) then Response(400, Error(KeywordsRequired, None))
    else
      match upstream(BuildPayload(body))
      case Threw(e) => Response(500, Error(SearchFailed, Some(Details(e))))
      case Replied(data) => Response(200, Jobs(NormalizeResults(data)))
  }

  /** A rejected request never reaches the upstream: its response is the
      same whatever the upstream would have done. */
  lemma RejectionSkipsUpstream(body: RequestBody,
                               u1: SearchPayload -> Upstream<SearchData>,
                               u2: SearchPayload -> Upstream<SearchData>)
    requires !Truthy(body.keywords)
    ensures JobSearch(body, u1) == JobSearch(body, u2)
  {
  }

  /** An accepted request's response depends on the upstream's answer to
      the built envelope only: its normalised results, or a 500 carrying
      the upstream's details; there is no other status. */
  lemma AcceptedSearchOutcome(body: RequestBody, upstream: SearchPayload -> Upstream<SearchData>)
    requires Truthy(body.keywords)
    ensures var reply := upstream(BuildPayload(body));
      && (reply.Replied? ==> JobSearch(body, upstream) == Response(200, Jobs(NormalizeResults(reply.data))))
      && (reply.Threw? ==>
            JobSearch(body, upstream) == Response(500, Error(SearchFailed, Some(Details(reply.error)))))
  {
  }

  /** Keywords made only of whitespace are accepted: nothing trims them. */
  lemma WhitespaceKeywordsAccepted(body: RequestBody, upstream: SearchPayload -> Upstream<SearchData>)
    requires body.keywords == Str(" ")
    ensures JobSearch(body, upstream).status != 400
    ensures BuildPayload(body).and[0].text == Str(" ")
  {
  }

  // ---------------------------------------------------------------------
  // Genome lookup

  /** The handler of `GET /genome/:username`: the username goes upstream as
      it is, the document comes back verbatim, and any failure is a 500. */
  function GenomeLookup(username: string, upstream: string -> Upstream<Genome>): (r: Response)
    ensures r.status == 200 || r.status == 500
    ensures r.status == 200 <==> upstream(username).Replied?
    ensures r.status == 200 ==> r.body == Profile(upstream(username).data)
    ensures r.status == 500 ==> r.body == Error(GenomeFailed, Some(Details(upstream(username).error)))
  {
    match upstream(username)
    case Replied(g) => Response(200, Profile(g))
    case Threw(e) => Response(500, Error(GenomeFailed, Some(Details(e))))
  }
}
