/** The create-job request that `submit_job` in app.py builds, and the
    "Submit Job" button handler that parses the text field and either shows
    the input error or calls `submit_job`. The batch client call itself is
    not modelled: the request it would be given is the result. */
module JobSubmission {
  import opened Identity
  import KeywordInput
  import JobFilter

  /** Deployment settings read from the secrets store at start-up. */
  datatype Config = Config(projectId: string, region: string, imageUri: string)

  /** The parts of a batch job that `submit_job` sets. */
  datatype Container = Container(imageUri: string, entrypoint: string, commands: seq<string>)
  datatype Runnable = Runnable(container: Container)
  datatype Duration = Duration(seconds: nat)
  datatype TaskSpec = TaskSpec(runnables: seq<Runnable>, maxRunDuration: Duration)
  datatype TaskGroup = TaskGroup(taskSpec: TaskSpec)
  datatype InstancePolicy = InstancePolicy(machineType: string)
  datatype AllocationPolicy = AllocationPolicy(instances: seq<InstancePolicy>)
  datatype LogsDestination = CloudLogging
  datatype BatchJob = BatchJob(
    taskGroups: seq<TaskGroup>,
    allocationPolicy: AllocationPolicy,
    labels: map<string, string>,
    logsDestination: LogsDestination)

  /** The arguments of `client.create_job(parent=..., job=..., job_id=...)`. */
  datatype CreateJobRequest = CreateJobRequest(parent: string, jobId: string, job: BatchJob)

  const JobIdPrefix: string := "scraper-job-"
  const Entrypoint: string := "python"
  const ScraperScript: string := "scraper.py"
  const MaxRunSeconds: nat := 7200
  const MachineType: string := "e2-small"
  const EnvLabelKey: string := "env"
  const EnvLabelValue: string := "prod"

  /** The message shown when no keyword is left after parsing. */
  const EmptyInputMessage: string := "Please enter at least one input string."

  /** `f"projects/{PROJECT_ID}/locations/{REGION}"` */
  function Parent(config: Config): string {
    "projects/" + config.projectId + "/locations/" + config.region
  }

  /** The single container of a job's single task group, when it has one. */
  predicate HasOneContainer(job: BatchJob) {
    |job.taskGroups| == 1 && |job.taskGroups[0].taskSpec.runnables| == 1
  }

  function TheContainer(job: BatchJob): Container
    requires HasOneContainer(job)
  {
    job.taskGroups[0].taskSpec.runnables[0].container
  }

  /** `submit_job(input_strings)`, with the random job-id token
      (`uuid.uuid4().hex[:8]`) and the signed-in user's email, which the
      source reads from the session, passed in explicitly. */
  function SubmitJob(config: Config, sessionEmail: string, jobToken: string, inputStrings: seq<string>): (req: CreateJobRequest)
    requires |jobToken| == 8
    ensures req.parent == Parent(config)
    ensures req.jobId == JobIdPrefix + jobToken
    ensures |req.jobId| == |JobIdPrefix| + 8 && req.jobId[..|JobIdPrefix|] == JobIdPrefix
    ensures HasOneContainer(req.job)
    ensures TheContainer(req.job).imageUri == config.imageUri
  {
    var runnable := Runnable(Container(config.imageUri, Entrypoint, [ScraperScript] + inputStrings));
    var taskSpec := TaskSpec([runnable], Duration(MaxRunSeconds));
    var allocation := AllocationPolicy([InstancePolicy(MachineType)]);
    var labels := map[EnvLabelKey := EnvLabelValue, JobFilter.UserLabelKey := Normalize(sessionEmail)];
    CreateJobRequest(Parent(config), JobIdPrefix + jobToken, BatchJob([TaskGroup(taskSpec)], allocation, labels, CloudLogging))
  }

  /** The job id tells requests apart exactly by their random token: two
      requests get the same id if and only if they were given the same
      token, whatever else they share. */
  lemma JobIdsDistinct(config: Config, email1: string, email2: string, token1: string, token2: string,
                       input1: seq<string>, input2: seq<string>)
    requires |token1| == 8 && |token2| == 8
    ensures SubmitJob(config, email1, token1, input1).jobId == SubmitJob(config, email2, token2, input2).jobId
            <==> token1 == token2
  {
    var id1 := SubmitJob(config, email1, token1, input1).jobId;
    var id2 := SubmitJob(config, email2, token2, input2).jobId;
    if id1 == id2 {
      assert token1 == id1[|JobIdPrefix|..];
      assert token2 == id2[|JobIdPrefix|..];
    }
  }

  /** The job runs the script with the keywords as its arguments, in order
      and unchanged: one command more than there are keywords. The user
      identity is not among them. */
  lemma SubmitJobCommands(config: Config, sessionEmail: string, jobToken: string, inputStrings: seq<string>)
    requires |jobToken| == 8
    ensures var c := TheContainer(SubmitJob(config, sessionEmail, jobToken, inputStrings).job);
      && c.entrypoint == "python"
      && |c.commands| == 1 + |inputStrings|
      && c.commands[0] == "scraper.py"
      && c.commands[1..] == inputStrings
      && forall i :: 0 <= i < |inputStrings| ==> c.commands[i + 1] == inputStrings[i]
  {
    var c := TheContainer(SubmitJob(config, sessionEmail, jobToken, inputStrings).job);
    assert c.commands == [ScraperScript] + inputStrings;
  }

  /** The resource policy: at most two hours of run time, one e2-small
      instance, logs to Cloud Logging. */
  lemma SubmitJobPolicy(config: Config, sessionEmail: string, jobToken: string, inputStrings: seq<string>)
    requires |jobToken| == 8
    ensures var job := SubmitJob(config, sessionEmail, jobToken, inputStrings).job;
      && job.taskGroups[0].taskSpec.maxRunDuration.seconds == 7200
      && job.allocationPolicy.instances == [InstancePolicy("e2-small")]
      && job.logsDestination == CloudLogging
  {
  }

  /** The labels are exactly `env=prod` and `user=` the normalised session
      email, whatever the keywords are: a caller cannot choose the owner of
      a job through its input. */
  lemma SubmitJobLabels(config: Config, sessionEmail: string, jobToken: string, inputStrings: seq<string>, otherInput: seq<string>)
    requires |jobToken| == 8
    ensures var labels := SubmitJob(config, sessionEmail, jobToken, inputStrings).job.labels;
      && labels.Keys == {"env", "user"}
      && labels["env"] == "prod"
      && labels["user"] == Normalize(sessionEmail)
      && labels == SubmitJob(config, sessionEmail, jobToken, otherInput).job.labels
  {
  }

  /** How the batch service lists a submitted job once it is in `state`:
      with the labels it was created with, under the name the service gave it.
      This is an assumption about the remote service, not something app.py
      does. */
  function AsListed(req: CreateJobRequest, serviceName: string, state: JobFilter.JobState): JobFilter.Job {
    JobFilter.Job(serviceName, req.job.labels, state)
  }

  /** A job submitted by `email` is owned by `email` in the sense of both
      filters: the running listing of `email` shows it while it is RUNNING or
      QUEUED, the completed listing once it SUCCEEDED or FAILED, and no
      caller whose email normalises differently ever sees it. */
  lemma SubmittedJobVisibleToSubmitter(
    config: Config, email: string, jobToken: string, inputStrings: seq<string>,
    serviceName: string, state: JobFilter.JobState, before: seq<JobFilter.Job>, after: seq<JobFilter.Job>, otherEmail: string)
    requires |jobToken| == 8
    ensures var job := AsListed(SubmitJob(config, email, jobToken, inputStrings), serviceName, state);
      var listing := before + [job] + after;
      && (job in JobFilter.RunningJobsForUser(listing, email) <==> state == JobFilter.Running || state == JobFilter.Queued)
      && (job in JobFilter.CompletedJobsForUser(listing, email) <==> state == JobFilter.Succeeded || state == JobFilter.Failed)
      && (Normalize(otherEmail) != Normalize(email) ==>
            job !in JobFilter.RunningJobsForUser(listing, otherEmail) && job !in JobFilter.CompletedJobsForUser(listing, otherEmail))
  {
    var job := AsListed(SubmitJob(config, email, jobToken, inputStrings), serviceName, state);
    var listing := before + [job] + after;
    assert listing[|before|] == job;
    JobFilter.RunningJobsExact(listing, email);
    JobFilter.CompletedJobsExact(listing, email);
  }

  /** What pressing "Submit Job" leads to. */
  datatype SubmitOutcome =
    | InputError(message: string)
    | Submitted(request: CreateJobRequest)

  /** The button handler: parse the text field; with no keyword left show
      the error and submit nothing, otherwise call `submit_job` with the
      parsed list. */
  function OnSubmitClick(config: Config, inputText: string, sessionEmail: string, jobToken: string): (r: SubmitOutcome)
    requires |jobToken| == 8
    ensures r.InputError? <==> KeywordInput.AllBlank(inputText)
    ensures r.InputError? ==> r.message == EmptyInputMessage
    ensures r.Submitted? ==> r.request == SubmitJob(config, sessionEmail, jobToken, KeywordInput.ParseKeywords(inputText))
  {
    KeywordInput.ParseKeywordsEmpty(inputText);
    var inputStrings := KeywordInput.ParseKeywords(inputText);
    if inputStrings == [] then InputError(EmptyInputMessage)
    else Submitted(SubmitJob(config, sessionEmail, jobToken, inputStrings))
  }

  /** A submitted job carries at least one keyword, each non-empty, trimmed
      and comma-free, after the script name. */
  lemma SubmittedCommandsAreKeywords(config: Config, inputText: string, sessionEmail: string, jobToken: string)
    requires |jobToken| == 8
    ensures var r := OnSubmitClick(config, inputText, sessionEmail, jobToken);
      r.Submitted? ==>
        var cmds := TheContainer(r.request.job).commands;
        && |cmds| >= 2
        && cmds[0] == "scraper.py"
        && cmds[1..] == KeywordInput.ParseKeywords(inputText)
        && forall k :: k in cmds[1..] ==> k != [] && ',' !in k && !KeywordInput.IsSpace(k[0]) && !KeywordInput.IsSpace(k[|k| - 1])
  {
    var keywords := KeywordInput.ParseKeywords(inputText);
    SubmitJobCommands(config, sessionEmail, jobToken, keywords);
    KeywordInput.KeywordsCommaFree(inputText);
  }
}
