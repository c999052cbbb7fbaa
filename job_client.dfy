/**
  The HTTP client of the job-management service. Every operation is pure
  here: it is given the reply the service sent (or the transport failure),
  and yields the request it sends together with what it returns. The JSON
  decoding of a reply body is a parameter of each operation, since the
  serde codecs are not part of this model.
*/
module JobClient {
  import opened Wrappers
  import opened Ints
  import FilecoinSpec
  import Job
  import JobEnvelope
  import Strings

  // ****** Routes **********

  // The placeholders the client substitutes.
  const COUNT: string := ":count"
  const JOB_TYPE: string := ":job_type"
  const STORAGE_PROVIDER_ID: string := ":storage_provider_id"
  const SECTOR_ID: string := ":sector_id"

  // The routes, spelled out of their placeholders; each is the same text as the route constant it models.
  const ADD_JOBS_URL: string := "/job"
  const GET_JOBS_URL: string := "/job/" + COUNT + "/" + JOB_TYPE
  const GET_ALL_JOBS_URL: string := "/job/all/" + STORAGE_PROVIDER_ID + "/" + JOB_TYPE
  const GET_JOB_INPUT_URI: string := "/job/input/" + STORAGE_PROVIDER_ID + "/" + SECTOR_ID + "/" + JOB_TYPE
  const GET_JOB_STATE_URL: string := "/job/state/" + STORAGE_PROVIDER_ID + "/" + SECTOR_ID + "/" + JOB_TYPE
  const SUBMIT_OUTPUT_URL: string := "/job/output"
  const GET_OUTPUT_URL: string := "/job/output/" + STORAGE_PROVIDER_ID + "/" + SECTOR_ID + "/" + JOB_TYPE
  const FAIL_JOB_URL: string := "/job/fail"
  const GENERATE_TICKET_URL: string := "/job/ticket/" + STORAGE_PROVIDER_ID
  const GET_SECTOR_PATHS_URL: string := "/sector/paths/" + STORAGE_PROVIDER_ID + "/" + SECTOR_ID

  /** A keyed route: a prefix ending in `/`, then provider, sector and job type separated by `/`. */
  predicate IsKeyedRoute(route: string, prefix: string)
  {
    && route == prefix + STORAGE_PROVIDER_ID + "/" + SECTOR_ID + "/" + JOB_TYPE
    && ':' !in prefix && prefix != [] && prefix[0] == '/'
  }

  /** The three keyed routes have that shape. */
  lemma KeyedRoutes()
    ensures IsKeyedRoute(GET_JOB_INPUT_URI, "/job/input/")
    ensures IsKeyedRoute(GET_OUTPUT_URL, "/job/output/")
    ensures IsKeyedRoute(GET_JOB_STATE_URL, "/job/state/")
  {
  }

  // ****** URI substitution **********

  /** The path segment a number becomes. */
  function Segment(n: u64): string
  {
    Strings.DecimalString(n as nat)
  }

  /** The `replace` chain of `get_job_input`, `get_job_output` and `get_job_state`. */
  function KeyedUri(template: string, sp: FilecoinSpec.StorageProviderId, sector: FilecoinSpec.SectorId, jobType: Job.JobType): (uri: string)
    ensures (Strings.Lacks(template, STORAGE_PROVIDER_ID) && Strings.Lacks(template, SECTOR_ID)
             && Strings.Lacks(template, JOB_TYPE)) ==> uri == template
  {
    var u1 := Strings.Replace(template, STORAGE_PROVIDER_ID, Segment(sp.id));
    var u2 := Strings.Replace(u1, SECTOR_ID, Segment(sector.id));
    Strings.ReplaceIfAbsent(template, STORAGE_PROVIDER_ID, Segment(sp.id));
    Strings.ReplaceIfAbsent(u1, SECTOR_ID, Segment(sector.id));
    Strings.ReplaceIfAbsent(u2, JOB_TYPE, jobType.ToString());
    Strings.Replace(u2, JOB_TYPE, jobType.ToString())
  }

  /** The `replace` chain of `request_jobs`. */
  function JobsUri(template: string, count: usize, jobType: Job.JobType): (uri: string)
    ensures Strings.Lacks(template, COUNT) && Strings.Lacks(template, JOB_TYPE) ==> uri == template
  {
    var u1 := Strings.Replace(template, COUNT, Segment(count));
    Strings.ReplaceIfAbsent(template, COUNT, Segment(count));
    Strings.ReplaceIfAbsent(u1, JOB_TYPE, jobType.ToString());
    Strings.Replace(u1, JOB_TYPE, jobType.ToString())
  }

  // What follows each placeholder holds no other copy of it.
  lemma PlaceholderTails()
    ensures forall i :: 0 <= i < |"/" + SECTOR_ID + "/" + JOB_TYPE| ==>
      !Strings.OccursAt("/" + SECTOR_ID + "/" + JOB_TYPE, i, STORAGE_PROVIDER_ID)
    ensures forall i :: 0 <= i < |"/" + JOB_TYPE| ==> !Strings.OccursAt("/" + JOB_TYPE, i, SECTOR_ID)
    ensures forall i :: 0 <= i < |"/" + JOB_TYPE| ==> !Strings.OccursAt("/" + JOB_TYPE, i, COUNT)
  {
    SectorTail();
    JobTypeTail(SECTOR_ID);
    JobTypeTail(COUNT);
  }

  lemma SectorTail()
    ensures forall i :: 0 <= i < |"/" + SECTOR_ID + "/" + JOB_TYPE| ==>
      !Strings.OccursAt("/" + SECTOR_ID + "/" + JOB_TYPE, i, STORAGE_PROVIDER_ID)
  {
    var t1 := "/" + SECTOR_ID + "/" + JOB_TYPE;
    assert |t1| == 21 && |STORAGE_PROVIDER_ID| == 20;
    assert t1[0] == '/' && t1[3] == 'e';
  }

  /** A placeholder longer than five characters whose second letter is not `j` is not in `/:job_type`. */
  lemma JobTypeTail(p: string)
    requires |p| > 5 && p[0] == ':' && p[1] != 'j'
    ensures forall i :: 0 <= i < |"/" + JOB_TYPE| ==> !Strings.OccursAt("/" + JOB_TYPE, i, p)
  {
    var t := "/" + JOB_TYPE;
    assert |t| == 10;
    assert t[0] == '/' && t[1] == ':' && t[2] == 'j' && t[3] == 'o' && t[4] == 'b';
    forall i | 0 <= i < |t|
      ensures !Strings.OccursAt(t, i, p)
    {
      if i + |p| <= |t| {
        assert t[i..i + |p|][0] == t[i] && t[i..i + |p|][1] == t[i + 1];
      }
    }
  }

  /**
    On a base URI with no `:` directly before a lower-case letter, a keyed
    route becomes the base, the route's prefix, then the provider, the sector and the job
    type's name, separated by slashes.
  */
  lemma KeyedUriShape(base: string, route: string, prefix: string,
                      sp: FilecoinSpec.StorageProviderId, sector: FilecoinSpec.SectorId, jobType: Job.JobType)
    requires Strings.PlaceholderFree(base) && IsKeyedRoute(route, prefix)
    ensures KeyedUri(base + route, sp, sector, jobType)
         == base + prefix + Segment(sp.id) + "/" + Segment(sector.id) + "/" + jobType.ToString()
  {
    PlaceholderTails();
    Strings.PlaceholderFreeAppend(base, prefix);
    Strings.DecimalStringIsPathSafe(sp.id as nat);
    Strings.DecimalStringIsPathSafe(sector.id as nat);
    assert base + route == base + prefix + STORAGE_PROVIDER_ID + "/" + SECTOR_ID + "/" + JOB_TYPE;
    Strings.ReplaceThree(base + prefix, STORAGE_PROVIDER_ID, SECTOR_ID, JOB_TYPE,
                         Segment(sp.id), Segment(sector.id), jobType.ToString());
  }

  /** On such a base URI, `request_jobs` asks for `/job/<count>/<job type>`. */
  lemma JobsUriShape(base: string, count: usize, jobType: Job.JobType)
    requires Strings.PlaceholderFree(base)
    ensures JobsUri(base + GET_JOBS_URL, count, jobType)
         == base + "/job/" + Segment(count) + "/" + jobType.ToString()
  {
    PlaceholderTails();
    Strings.PlaceholderFreeAppend(base, "/job/");
    Strings.DecimalStringIsPathSafe(count as nat);
    assert base + GET_JOBS_URL == base + "/job/" + COUNT + "/" + JOB_TYPE;
    Strings.ReplaceTwo(base + "/job/", COUNT, JOB_TYPE, Segment(count), jobType.ToString());
  }

  /** Distinct keys give distinct keyed URIs: the service can tell every provider, sector and stage apart. */
  lemma SubstitutedKeyInjective(prefix: string,
                                sp: FilecoinSpec.StorageProviderId, sector: FilecoinSpec.SectorId, jobType: Job.JobType,
                                sp': FilecoinSpec.StorageProviderId, sector': FilecoinSpec.SectorId, jobType': Job.JobType)
    requires prefix + Segment(sp.id) + "/" + Segment(sector.id) + "/" + jobType.ToString()
          == prefix + Segment(sp'.id) + "/" + Segment(sector'.id) + "/" + jobType'.ToString()
    ensures sp == sp' && sector == sector' && jobType == jobType'
  {
    Strings.DecimalStringIsPathSafe(sp.id as nat);
    Strings.DecimalStringIsPathSafe(sp'.id as nat);
    Strings.DecimalStringIsPathSafe(sector.id as nat);
    Strings.DecimalStringIsPathSafe(sector'.id as nat);
    Strings.SplitFields(prefix, Segment(sp.id), Segment(sector.id), jobType.ToString(),
                        Segment(sp'.id), Segment(sector'.id), jobType'.ToString());
    Strings.DecimalRoundTrip(sp.id as nat);
    Strings.DecimalRoundTrip(sp'.id as nat);
    Strings.DecimalRoundTrip(sector.id as nat);
    Strings.DecimalRoundTrip(sector'.id as nat);
    Job.ToStringInjective(jobType, jobType');
  }

  /** Distinct counts or stages give distinct `request_jobs` URIs. */
  lemma SubstitutedCountInjective(prefix: string, count: usize, jobType: Job.JobType, count': usize, jobType': Job.JobType)
    requires prefix + Segment(count) + "/" + jobType.ToString() == prefix + Segment(count') + "/" + jobType'.ToString()
    ensures count == count' && jobType == jobType'
  {
    Strings.DecimalStringIsPathSafe(count as nat);
    Strings.DecimalStringIsPathSafe(count' as nat);
    Strings.SplitTwoFields(prefix, Segment(count), jobType.ToString(), Segment(count'), jobType'.ToString());
    Strings.DecimalRoundTrip(count as nat);
    Strings.DecimalRoundTrip(count' as nat);
    Job.ToStringInjective(jobType, jobType');
  }

  // ****** Wire types **********

  /** The failures reqwest reports: no reply at all, or a reply body that does not decode. */
  datatype ReqwestError = Transport(reason: string) | Decode(body: string)

  datatype Error =
    | Json(detail: string)
    | Reqwest(cause: ReqwestError)
    | JobNotExist
    | NotEnoughJobs(count: usize)
    | FetchJobs(body: string)
    | SubmitOutput(body: string)
    | FetchOutput(body: string)
    | FailJob(body: string)
    | GetState(body: string)

  /** A stage's output as the service reports it: the output, or the error the worker recorded. */
  datatype JobOutput = JobOutput(result: Result<JobEnvelope.JobOutputHttp, string>)

  datatype JobState = Pending | Done | Failed

  datatype GetSealingJobsResponse = GetSealingJobsResponse(jobs: seq<JobEnvelope.JobHttp>)

  /** The body `submit_job_output` posts; the output's tag and bytes sit beside the key. */
  datatype SubmitSealingJobOutput = SubmitSealingJobOutput(
    storageProviderId: FilecoinSpec.StorageProviderId,
    sectorId: FilecoinSpec.SectorId,
    job: JobEnvelope.JobOutputHttp)

  /** The body `fail_job` posts (the `FailJob` record). */
  datatype FailJobRecord = FailJobRecord(
    storageProviderId: FilecoinSpec.StorageProviderId,
    sectorId: FilecoinSpec.SectorId,
    jobType: Job.JobType,
    error: string)

  /** The `err` field of the body that comes with 424 Failed Dependency. */
  datatype ErrorResp = ErrorResp(err: string)

  /** The body of a `get_job_state` reply. */
  datatype StateResponse = StateResponse(state: JobState)

  // ****** HTTP exchange **********

  const OK: nat := 200
  const NO_CONTENT: nat := 204
  const FAILED_DEPENDENCY: nat := 424
  const APPLICATION_JSON: string := "application/json"

  datatype HttpMethod = Get | Post

  /** What a request carries: nothing on a GET, one of the three records on a POST. */
  datatype Body =
    | NoBody
    | JobBody(job: JobEnvelope.JobHttp)
    | OutputBody(output: SubmitSealingJobOutput)
    | FailureBody(failure: FailJobRecord)

  datatype Request = Request(verb: HttpMethod, uri: string, contentType: string, body: Body)

  /** What came back for a request: a transport failure, or a status and its body text. */
  datatype Reply = SendFailed(reason: string) | Received(status: nat, body: string)

  /** How an operation ends: it returns a value or an error, or it panics. */
  datatype Outcome<T> = Returns(result: Result<T, Error>) | Panics

  datatype Exchange<T> = Exchange(request: Request, outcome: Outcome<T>)

  // ****** The client **********

  /** `SealingJobManagerHttpClient`: one endpoint URI per operation. */
  datatype Client = Client(
    addJobsUri: string,
    requestJobsUri: string,
    submitOutputUri: string,
    getJobOutputUri: string,
    getJobInputUri: string,
    failJobUri: string,
    getJobStateUri: string)
  {
    function Endpoints(): seq<string>
    {
      [addJobsUri, requestJobsUri, submitOutputUri, getJobOutputUri, getJobInputUri, failJobUri, getJobStateUri]
    }
  }

  predicate Distinct(uris: seq<string>)
  {
    forall i, j :: 0 <= i < j < |uris| ==> uris[i] != uris[j]
  }

  /** `new`: every endpoint is the service's base URI followed by that endpoint's route. */
  function New(uri: string): (c: Client)
    ensures uri <= c.addJobsUri && uri <= c.requestJobsUri && uri <= c.submitOutputUri
    ensures uri <= c.getJobOutputUri && uri <= c.getJobInputUri && uri <= c.failJobUri
    ensures uri <= c.getJobStateUri
    ensures Distinct(c.Endpoints())
    ensures c == Client(uri + ADD_JOBS_URL, uri + GET_JOBS_URL, uri + SUBMIT_OUTPUT_URL, uri + GET_OUTPUT_URL,
                        uri + GET_JOB_INPUT_URI, uri + FAIL_JOB_URL, uri + GET_JOB_STATE_URL)
  {
    var c := Client(
      uri + ADD_JOBS_URL,
      uri + GET_JOBS_URL,
      uri + SUBMIT_OUTPUT_URL,
      uri + GET_OUTPUT_URL,
      uri + GET_JOB_INPUT_URI,
      uri + FAIL_JOB_URL,
      uri + GET_JOB_STATE_URL);
    RoutesDistinct(uri);
    c
  }

  /** The seven routes differ, so prefixing a common base keeps them apart. */
  lemma RoutesDistinct(uri: string)
    ensures Distinct([uri + ADD_JOBS_URL, uri + GET_JOBS_URL, uri + SUBMIT_OUTPUT_URL, uri + GET_OUTPUT_URL,
                      uri + GET_JOB_INPUT_URI, uri + FAIL_JOB_URL, uri + GET_JOB_STATE_URL])
  {
    var n := |uri|;
    assert |ADD_JOBS_URL| == 4 && |FAIL_JOB_URL| == 9 && |SUBMIT_OUTPUT_URL| == 11 && |GET_JOBS_URL| == 21;
    assert |GET_JOB_INPUT_URI| == 52 && |GET_JOB_STATE_URL| == 52 && |GET_OUTPUT_URL| == 53;
    assert (uri + GET_JOB_INPUT_URI)[n + 5] == 'i';
    assert (uri + GET_JOB_STATE_URL)[n + 5] == 's';
  }

  // ****** Operations **********

  /** Every job in `jobs` carries the tag of stage `t`, so each can be recovered as a `t` job. */
  predicate AllOfType(jobs: seq<JobEnvelope.JobHttp>, t: Job.JobType)
  {
    forall i :: 0 <= i < |jobs| ==> jobs[i].JobType() == t
  }

  /** How the three POST operations read their reply. */
  function PostOutcome(reply: Reply): (r: Outcome<()>)
    ensures r.Returns?
    ensures r.result.Ok? <==> reply.Received? && reply.status == OK
    ensures reply.SendFailed? ==> r.result == Err(Reqwest(Transport(reply.reason)))
    ensures reply.Received? && reply.status != OK ==> r.result == Err(FetchJobs(reply.body))
  {
    match reply
    case SendFailed(reason) => Returns(Err(Reqwest(Transport(reason))))
    case Received(status, body) =>
      if status != OK then Returns(Err(FetchJobs(body))) else Returns(Ok(()))
  }

  /**
    `add_job`: posts the job's envelope. Only 200 OK is success; any other
    status is reported with the reply's text.
  */
  function AddJob(client: Client, job: JobEnvelope.JobHttp, reply: Reply): (x: Exchange<()>)
    ensures x.request == Request(Post, client.addJobsUri, APPLICATION_JSON, JobBody(job))
    ensures x.outcome.Returns?
    ensures x.outcome.result.Ok? <==> reply.Received? && reply.status == OK
    ensures reply.Received? && reply.status != OK ==> x.outcome.result == Err(FetchJobs(reply.body))
    ensures reply.SendFailed? ==> x.outcome.result == Err(Reqwest(Transport(reply.reason)))
  {
    Exchange(Request(Post, client.addJobsUri, APPLICATION_JSON, JobBody(job)), PostOutcome(reply))
  }

  /**
    `request_jobs`: asks for `count` jobs of stage `jobType`. 204 means the
    service has not enough of them; any other status but 200 is a failure;
    on 200 the body lists the jobs, each of which must be of the stage asked
    for (recovering one of another stage panics).
  */
  function RequestJobs(client: Client, jobType: Job.JobType, count: usize, reply: Reply,
                       decode: string -> Option<GetSealingJobsResponse>): (x: Exchange<seq<JobEnvelope.JobHttp>>)
    ensures x.request == Request(Get, JobsUri(client.requestJobsUri, count, jobType), APPLICATION_JSON, NoBody)
    ensures reply.SendFailed? ==> x.outcome == Returns(Err(Reqwest(Transport(reply.reason))))
    ensures reply.Received? && reply.status == NO_CONTENT ==> x.outcome == Returns(Err(NotEnoughJobs(count)))
    ensures reply.Received? && reply.status != NO_CONTENT && reply.status != OK
            ==> x.outcome == Returns(Err(FetchJobs(reply.body)))
    ensures reply.Received? && reply.status == OK && decode(reply.body).None?
            ==> x.outcome == Returns(Err(Reqwest(Decode(reply.body))))
    ensures x.outcome.Panics? <==>
            reply.Received? && reply.status == OK && decode(reply.body).Some?
            && !AllOfType(decode(reply.body).value.jobs, jobType)
    ensures x.outcome.Returns? && x.outcome.result.Ok? <==>
            reply.Received? && reply.status == OK && decode(reply.body).Some?
            && AllOfType(decode(reply.body).value.jobs, jobType)
    ensures x.outcome.Returns? && x.outcome.result.Ok? ==>
            decode(reply.body) == Some(GetSealingJobsResponse(x.outcome.result.value))
            && AllOfType(x.outcome.result.value, jobType)
  {
    var request := Request(Get, JobsUri(client.requestJobsUri, count, jobType), APPLICATION_JSON, NoBody);
    var outcome :=
      match reply
      case SendFailed(reason) => Returns(Err(Reqwest(Transport(reason))))
      case Received(status, body) =>
        if status == NO_CONTENT then Returns(Err(NotEnoughJobs(count)))
        else if status != OK then Returns(Err(FetchJobs(body)))
        else match decode(body)
          case None => Returns(Err(Reqwest(Decode(body))))
          case Some(response) =>
            if AllOfType(response.jobs, jobType) then Returns(Ok(response.jobs)) else Panics;
    Exchange(request, outcome)
  }

  /**
    `get_job_input`: fetches the input of one keyed job. 204 means there is
    no such input; any other status but 200 is a failure; on 200 the body is
    the job, which must be of the stage asked for. The stage cannot be the
    fused PC stage, whose output has no recovery from the envelope.
  */
  function GetJobInput(client: Client, jobType: Job.JobType,
                       sp: FilecoinSpec.StorageProviderId, sector: FilecoinSpec.SectorId,
                       reply: Reply, decode: string -> Option<JobEnvelope.JobHttp>): (x: Exchange<Option<JobEnvelope.JobHttp>>)
    requires jobType != Job.PC
    ensures x.request == Request(Get, KeyedUri(client.getJobInputUri, sp, sector, jobType), APPLICATION_JSON, NoBody)
    ensures reply.SendFailed? ==> x.outcome == Returns(Err(Reqwest(Transport(reply.reason))))
    ensures reply.Received? && reply.status == NO_CONTENT ==> x.outcome == Returns(Ok(None))
    ensures reply.Received? && reply.status != NO_CONTENT && reply.status != OK
            ==> x.outcome == Returns(Err(FetchOutput(reply.body)))
    ensures reply.Received? && reply.status == OK && decode(reply.body).None?
            ==> x.outcome == Returns(Err(Reqwest(Decode(reply.body))))
    ensures x.outcome.Panics? <==>
            reply.Received? && reply.status == OK && decode(reply.body).Some?
            && decode(reply.body).value.JobType() != jobType
    ensures x.outcome.Returns? && x.outcome.result.Ok? && x.outcome.result.value.Some? <==>
            reply.Received? && reply.status == OK && decode(reply.body).Some?
            && decode(reply.body).value.JobType() == jobType
    ensures x.outcome.Returns? && x.outcome.result.Ok? && x.outcome.result.value.Some? ==>
            decode(reply.body) == x.outcome.result.value && x.outcome.result.value.value.JobType() == jobType
  {
    var request := Request(Get, KeyedUri(client.getJobInputUri, sp, sector, jobType), APPLICATION_JSON, NoBody);
    var outcome :=
      match reply
      case SendFailed(reason) => Returns(Err(Reqwest(Transport(reason))))
      case Received(status, body) =>
        if status == NO_CONTENT then Returns(Ok(None))
        else if status != OK then Returns(Err(FetchOutput(body)))
        else match decode(body)
          case None => Returns(Err(Reqwest(Decode(body))))
          case Some(input) => if input.JobType() == jobType then Returns(Ok(Some(input))) else Panics;
    Exchange(request, outcome)
  }

  /**
    `submit_job_output`: posts the key with the output's envelope. Only
    200 OK is success; any other status is reported, like `add_job`, as a
    job-fetching failure carrying the reply's text.
  */
  function SubmitJobOutput(client: Client, sp: FilecoinSpec.StorageProviderId, sector: FilecoinSpec.SectorId,
                           output: JobEnvelope.JobOutputHttp, reply: Reply): (x: Exchange<()>)
    ensures x.request == Request(Post, client.submitOutputUri, APPLICATION_JSON,
                                 OutputBody(SubmitSealingJobOutput(sp, sector, output)))
    ensures x.outcome.Returns?
    ensures x.outcome.result.Ok? <==> reply.Received? && reply.status == OK
    ensures reply.Received? && reply.status != OK ==> x.outcome.result == Err(FetchJobs(reply.body))
    ensures reply.SendFailed? ==> x.outcome.result == Err(Reqwest(Transport(reply.reason)))
  {
    var body := OutputBody(SubmitSealingJobOutput(sp, sector, output));
    Exchange(Request(Post, client.submitOutputUri, APPLICATION_JSON, body), PostOutcome(reply))
  }

  /**
    `get_job_output`: fetches the output of one keyed job. 204 means there
    is none yet; 424 Failed Dependency means the job failed, and the body
    carries the error; any other status but 200 is a failure; on 200 the
    body is the output, which must be of the stage asked for.
  */
  function GetJobOutput(client: Client, jobType: Job.JobType,
                        sp: FilecoinSpec.StorageProviderId, sector: FilecoinSpec.SectorId, reply: Reply,
                        decodeError: string -> Option<ErrorResp>,
                        decode: string -> Option<JobEnvelope.JobOutputHttp>): (x: Exchange<Option<JobOutput>>)
    requires jobType != Job.PC
    ensures x.request == Request(Get, KeyedUri(client.getJobOutputUri, sp, sector, jobType), APPLICATION_JSON, NoBody)
    ensures reply.SendFailed? ==> x.outcome == Returns(Err(Reqwest(Transport(reply.reason))))
    ensures reply.Received? && reply.status == NO_CONTENT ==> x.outcome == Returns(Ok(None))
    ensures reply.Received? && reply.status == FAILED_DEPENDENCY ==>
            x.outcome == (match decodeError(reply.body)
                          case None => Returns(Err(Reqwest(Decode(reply.body))))
                          case Some(e) => Returns(Ok(Some(JobOutput(Err(e.err))))))
    ensures reply.Received? && reply.status !in {NO_CONTENT, FAILED_DEPENDENCY, OK}
            ==> x.outcome == Returns(Err(FetchOutput(reply.body)))
    ensures reply.Received? && reply.status == OK && decode(reply.body).None?
            ==> x.outcome == Returns(Err(Reqwest(Decode(reply.body))))
    ensures x.outcome.Panics? <==>
            reply.Received? && reply.status == OK && decode(reply.body).Some?
            && decode(reply.body).value.JobType() != jobType
    ensures reply.Received? && reply.status == OK && decode(reply.body).Some?
            && decode(reply.body).value.JobType() == jobType
            ==> x.outcome == Returns(Ok(Some(JobOutput(Ok(decode(reply.body).value)))))
  {
    var request := Request(Get, KeyedUri(client.getJobOutputUri, sp, sector, jobType), APPLICATION_JSON, NoBody);
    var outcome :=
      match reply
      case SendFailed(reason) => Returns(Err(Reqwest(Transport(reason))))
      case Received(status, body) =>
        if status == NO_CONTENT then Returns(Ok(None))
        else if status == FAILED_DEPENDENCY then
          match decodeError(body)
          case None => Returns(Err(Reqwest(Decode(body))))
          case Some(resp) => Returns(Ok(Some(JobOutput(Err(resp.err)))))
        else if status != OK then Returns(Err(FetchOutput(body)))
        else match decode(body)
          case None => Returns(Err(Reqwest(Decode(body))))
          case Some(output) =>
            if output.JobType() == jobType then Returns(Ok(Some(JobOutput(Ok(output))))) else Panics;
    Exchange(request, outcome)
  }

  /**
    `fail_job`: posts the key, the stage and the error text. Only 200 OK is
    success; any other status is reported, like `add_job`, as a
    job-fetching failure carrying the reply's text.
  */
  function FailJob(client: Client, jobType: Job.JobType, sp: FilecoinSpec.StorageProviderId,
                   sector: FilecoinSpec.SectorId, error: string, reply: Reply): (x: Exchange<()>)
    ensures x.request == Request(Post, client.failJobUri, APPLICATION_JSON,
                                 FailureBody(FailJobRecord(sp, sector, jobType, error)))
    ensures x.outcome.Returns?
    ensures x.outcome.result.Ok? <==> reply.Received? && reply.status == OK
    ensures reply.Received? && reply.status != OK ==> x.outcome.result == Err(FetchJobs(reply.body))
    ensures reply.SendFailed? ==> x.outcome.result == Err(Reqwest(Transport(reply.reason)))
  {
    var body := FailureBody(FailJobRecord(sp, sector, jobType, error));
    Exchange(Request(Post, client.failJobUri, APPLICATION_JSON, body), PostOutcome(reply))
  }

  /**
    `get_job_state`: fetches the state of one keyed job. 204 means there is
    no such job; any other status but 200 is a failure; on 200 the body
    carries the state.
  */
  function GetJobState(client: Client, jobType: Job.JobType,
                       sp: FilecoinSpec.StorageProviderId, sector: FilecoinSpec.SectorId,
                       reply: Reply, decode: string -> Option<StateResponse>): (x: Exchange<Option<JobState>>)
    ensures x.request == Request(Get, KeyedUri(client.getJobStateUri, sp, sector, jobType), APPLICATION_JSON, NoBody)
    ensures x.outcome.Returns?
    ensures reply.SendFailed? ==> x.outcome.result == Err(Reqwest(Transport(reply.reason)))
    ensures reply.Received? && reply.status == NO_CONTENT ==> x.outcome.result == Ok(None)
    ensures reply.Received? && reply.status != NO_CONTENT && reply.status != OK
            ==> x.outcome.result == Err(GetState(reply.body))
    ensures reply.Received? && reply.status == OK
            ==> x.outcome.result == (match decode(reply.body)
                                    case None => Err(Reqwest(Decode(reply.body)))
                                    case Some(response) => Ok(Some(response.state)))
  {
    var request := Request(Get, KeyedUri(client.getJobStateUri, sp, sector, jobType), APPLICATION_JSON, NoBody);
    var outcome :=
      match reply
      case SendFailed(reason) => Returns(Err(Reqwest(Transport(reason))))
      case Received(status, body) =>
        if status == NO_CONTENT then Returns(Ok(None))
        else if status != OK then Returns(Err(GetState(body)))
        else match decode(body)
          case None => Returns(Err(Reqwest(Decode(body))))
          case Some(response) => Returns(Ok(Some(response.state)));
    Exchange(request, outcome)
  }

  // ****** Properties across operations **********

  /**
    The three POST operations read every reply alike: each reports a non-OK
    status as a job-fetching failure, even though the error type has
    dedicated variants for failed submissions and failed job reports.
  */
  lemma PostsShareOutcome(client: Client, job: JobEnvelope.JobHttp, output: JobEnvelope.JobOutputHttp,
                          jobType: Job.JobType, sp: FilecoinSpec.StorageProviderId, sector: FilecoinSpec.SectorId,
                          error: string, reply: Reply)
    ensures AddJob(client, job, reply).outcome == SubmitJobOutput(client, sp, sector, output, reply).outcome
    ensures AddJob(client, job, reply).outcome == FailJob(client, jobType, sp, sector, error, reply).outcome
    ensures forall e :: AddJob(client, job, reply).outcome != Returns(Err(SubmitOutput(e)))
    ensures forall e :: AddJob(client, job, reply).outcome != Returns(Err(Error.FailJob(e)))
  {
  }

  /** An error variant the client actually produces: not `Json` and not `JobNotExist`. */
  predicate IsProduced<T>(outcome: Outcome<T>)
  {
    outcome.Returns? && outcome.result.Err? ==> !outcome.result.error.Json? && !outcome.result.error.JobNotExist?
  }

  /** The client never produces a JSON error or a missing-job error: those variants are unused. */
  lemma UnusedErrors(client: Client, jobType: Job.JobType, sp: FilecoinSpec.StorageProviderId,
                     sector: FilecoinSpec.SectorId, count: usize, reply: Reply,
                     decodeJobs: string -> Option<GetSealingJobsResponse>,
                     decodeInput: string -> Option<JobEnvelope.JobHttp>,
                     decodeError: string -> Option<ErrorResp>,
                     decodeOutput: string -> Option<JobEnvelope.JobOutputHttp>,
                     decodeState: string -> Option<StateResponse>)
    ensures IsProduced(RequestJobs(client, jobType, count, reply, decodeJobs).outcome)
    ensures jobType != Job.PC ==> IsProduced(GetJobInput(client, jobType, sp, sector, reply, decodeInput).outcome)
    ensures jobType != Job.PC ==> IsProduced(GetJobOutput(client, jobType, sp, sector, reply, decodeError, decodeOutput).outcome)
    ensures IsProduced(GetJobState(client, jobType, sp, sector, reply, decodeState).outcome)
  {
  }

  /**
    A 204 reply means "nothing there": the keyed reads return no value and
    `request_jobs` reports not enough jobs, whatever the decoders would make
    of the body.
  */
  lemma NoContentMeansNothing(client: Client, jobType: Job.JobType, sp: FilecoinSpec.StorageProviderId,
                              sector: FilecoinSpec.SectorId, count: usize, body: string,
                              decodeJobs: string -> Option<GetSealingJobsResponse>,
                              decodeInput: string -> Option<JobEnvelope.JobHttp>,
                              decodeError: string -> Option<ErrorResp>,
                              decodeOutput: string -> Option<JobEnvelope.JobOutputHttp>,
                              decodeState: string -> Option<StateResponse>)
    ensures RequestJobs(client, jobType, count, Received(NO_CONTENT, body), decodeJobs).outcome
         == Returns(Err(NotEnoughJobs(count)))
    ensures jobType != Job.PC ==>
            (GetJobInput(client, jobType, sp, sector, Received(NO_CONTENT, body), decodeInput).outcome
             == Returns(Ok(None)))
    ensures jobType != Job.PC ==>
            (GetJobOutput(client, jobType, sp, sector, Received(NO_CONTENT, body), decodeError, decodeOutput).outcome
             == Returns(Ok(None)))
    ensures GetJobState(client, jobType, sp, sector, Received(NO_CONTENT, body), decodeState).outcome
         == Returns(Ok(None))
  {
  }

  /**
    A reply that is neither 200 nor a status an operation handles specially
    is never decoded: the outcome is the same under any decoders, and
    carries the reply's text unchanged.
  */
  lemma FailuresIgnoreDecoders(client: Client, jobType: Job.JobType, sp: FilecoinSpec.StorageProviderId,
                               sector: FilecoinSpec.SectorId, count: usize, status: nat, body: string,
                               decodeJobs: string -> Option<GetSealingJobsResponse>,
                               decodeJobs': string -> Option<GetSealingJobsResponse>,
                               decodeInput: string -> Option<JobEnvelope.JobHttp>,
                               decodeInput': string -> Option<JobEnvelope.JobHttp>,
                               decodeError: string -> Option<ErrorResp>,
                               decodeError': string -> Option<ErrorResp>,
                               decodeOutput: string -> Option<JobEnvelope.JobOutputHttp>,
                               decodeOutput': string -> Option<JobEnvelope.JobOutputHttp>,
                               decodeState: string -> Option<StateResponse>,
                               decodeState': string -> Option<StateResponse>)
    requires status !in {OK, NO_CONTENT, FAILED_DEPENDENCY}
    ensures RequestJobs(client, jobType, count, Received(status, body), decodeJobs)
         == RequestJobs(client, jobType, count, Received(status, body), decodeJobs')
    ensures jobType != Job.PC ==>
            (GetJobInput(client, jobType, sp, sector, Received(status, body), decodeInput)
             == GetJobInput(client, jobType, sp, sector, Received(status, body), decodeInput'))
    ensures jobType != Job.PC ==>
            (GetJobOutput(client, jobType, sp, sector, Received(status, body), decodeError, decodeOutput)
             == GetJobOutput(client, jobType, sp, sector, Received(status, body), decodeError', decodeOutput'))
    ensures GetJobState(client, jobType, sp, sector, Received(status, body), decodeState)
         == GetJobState(client, jobType, sp, sector, Received(status, body), decodeState')
    ensures jobType != Job.PC ==>
            (GetJobOutput(client, jobType, sp, sector, Received(status, body), decodeError, decodeOutput).outcome
             == Returns(Err(FetchOutput(body))))
    ensures jobType != Job.PC ==>
            (GetJobInput(client, jobType, sp, sector, Received(status, body), decodeInput).outcome
             == Returns(Err(FetchOutput(body))))
  {
  }

  /**
    On a client made by `new` from a base URI with no `:` directly before a
    lower-case letter, every read goes to the base followed by its route with the
    numbers in decimal and the stage by name.
  */
  lemma RequestUris(base: string, jobType: Job.JobType, sp: FilecoinSpec.StorageProviderId,
                    sector: FilecoinSpec.SectorId, count: usize)
    requires Strings.PlaceholderFree(base)
    ensures JobsUri(New(base).requestJobsUri, count, jobType)
         == base + "/job/" + Segment(count) + "/" + jobType.ToString()
    ensures KeyedUri(New(base).getJobInputUri, sp, sector, jobType)
         == base + "/job/input/" + Segment(sp.id) + "/" + Segment(sector.id) + "/" + jobType.ToString()
    ensures KeyedUri(New(base).getJobOutputUri, sp, sector, jobType)
         == base + "/job/output/" + Segment(sp.id) + "/" + Segment(sector.id) + "/" + jobType.ToString()
    ensures KeyedUri(New(base).getJobStateUri, sp, sector, jobType)
         == base + "/job/state/" + Segment(sp.id) + "/" + Segment(sector.id) + "/" + jobType.ToString()
  {
    KeyedRoutes();
    JobsUriShape(base, count, jobType);
    KeyedUriShape(base, GET_JOB_INPUT_URI, "/job/input/", sp, sector, jobType);
    KeyedUriShape(base, GET_OUTPUT_URL, "/job/output/", sp, sector, jobType);
    KeyedUriShape(base, GET_JOB_STATE_URL, "/job/state/", sp, sector, jobType);
  }

  /** Two keyed reads of one kind through such a client go to the same URI only when they ask about the same key. */
  lemma KeyedRequestsDistinct(base: string,
                              sp: FilecoinSpec.StorageProviderId, sector: FilecoinSpec.SectorId, jobType: Job.JobType,
                              sp': FilecoinSpec.StorageProviderId, sector': FilecoinSpec.SectorId, jobType': Job.JobType)
    requires Strings.PlaceholderFree(base)
    ensures KeyedUri(New(base).getJobInputUri, sp, sector, jobType)
         == KeyedUri(New(base).getJobInputUri, sp', sector', jobType')
        <==> (sp, sector, jobType) == (sp', sector', jobType')
    ensures KeyedUri(New(base).getJobOutputUri, sp, sector, jobType)
         == KeyedUri(New(base).getJobOutputUri, sp', sector', jobType')
        <==> (sp, sector, jobType) == (sp', sector', jobType')
    ensures KeyedUri(New(base).getJobStateUri, sp, sector, jobType)
         == KeyedUri(New(base).getJobStateUri, sp', sector', jobType')
        <==> (sp, sector, jobType) == (sp', sector', jobType')
  {
    RequestUris(base, jobType, sp, sector, 0);
    RequestUris(base, jobType', sp', sector', 0);
    if KeyedUri(New(base).getJobInputUri, sp, sector, jobType) == KeyedUri(New(base).getJobInputUri, sp', sector', jobType') {
      SubstitutedKeyInjective(base + "/job/input/", sp, sector, jobType, sp', sector', jobType');
    }
    if KeyedUri(New(base).getJobOutputUri, sp, sector, jobType) == KeyedUri(New(base).getJobOutputUri, sp', sector', jobType') {
      SubstitutedKeyInjective(base + "/job/output/", sp, sector, jobType, sp', sector', jobType');
    }
    if KeyedUri(New(base).getJobStateUri, sp, sector, jobType) == KeyedUri(New(base).getJobStateUri, sp', sector', jobType') {
      SubstitutedKeyInjective(base + "/job/state/", sp, sector, jobType, sp', sector', jobType');
    }
  }

  /** `request_jobs` through such a client asks for a distinct URI for every count and stage. */
  lemma JobsRequestsDistinct(base: string, count: usize, jobType: Job.JobType, count': usize, jobType': Job.JobType)
    requires Strings.PlaceholderFree(base)
    ensures JobsUri(New(base).requestJobsUri, count, jobType) == JobsUri(New(base).requestJobsUri, count', jobType')
        <==> count == count' && jobType == jobType'
  {
    var sp, sector := FilecoinSpec.StorageProviderId(0), FilecoinSpec.SectorId(0);
    RequestUris(base, jobType, sp, sector, count);
    RequestUris(base, jobType', sp, sector, count');
    if JobsUri(New(base).requestJobsUri, count, jobType) == JobsUri(New(base).requestJobsUri, count', jobType') {
      SubstitutedCountInjective(base + "/job/", count, jobType, count', jobType');
    }
  }
}
