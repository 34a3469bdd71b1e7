# Batch scraper front end: job labelling, listing and submission

A Dafny model of the deterministic core of `app.py`, a Streamlit page where a
signed-in user submits keyword scraping jobs to Google Cloud Batch and watches
them. Everything around the core (the page, the sign-in flow, the Batch
client) is left out. The core has four parts, one module each:

- `Identity` (`identity.dfy`): the email-to-label normalisation
  `email.replace("@", "_at_").replace(".", "")`. The source writes it out three
  times (lines 19, 34 and 76). It is modelled once, as its two passes
  `ReplaceAt` and `RemoveDots`.
- `JobFilter` (`job_filter.dfy`): `list_running_jobs_for_user` and
  `list_completed_jobs_for_user`. Each runs one list comprehension over the
  full job listing. The listing is an input sequence. A job is a record of
  name, label map and state. `labels.get("user")` is modelled with an
  `Option`, so a job without a `user` label never matches.
- `KeywordInput` (`keyword_input.dfy`): the parsing of the text field,
  `[s.strip() for s in input_text.split(",") if s.strip()]`. Python's
  `str.split(",")` and `str.strip()` are modelled exactly. Whitespace is the
  set of code points for which `str.isspace` holds.
- `JobSubmission` (`job_submission.dfy`): the create-job request that
  `submit_job` builds, and the button handler. The handler shows the
  input error when no keyword is left, and otherwise submits the parsed list
  unchanged.

The main results:

- A label never contains `@` or `.`. Normalising is idempotent and works
  character by character.
- Each filter is proved equal to an independent specification, `IsFilterOf`:
  the result keeps listing order, holds exactly the matching jobs, and holds
  each as often as the listing does. Any sequence meeting that specification
  is the filter's result.
- The two listings are disjoint. Users whose labels differ share no job.
- Parsed keywords are non-empty, trimmed and comma-free, and they follow the
  order of the pieces. No keyword is left exactly when the text holds only
  commas and whitespace.
- A job submitted by email `e` shows in `e`'s running listing while it is
  RUNNING or QUEUED, and in `e`'s completed listing once it SUCCEEDED or
  FAILED. No user whose email normalises differently ever sees it. This
  assumes the service lists the job with its creation labels (`AsListed`).

The model follows what the code does, which in places differs from what a
reader of the page might expect:

- The job command is `["scraper.py"] + input_strings` (app.py:53). The user
  identity is not passed to the scraper; it travels only in the `user` label.
- The running listing keeps RUNNING and QUEUED only (app.py:23), so SCHEDULED
  does not count as active. A SCHEDULED job shows in neither listing
  (`JobFilter.ScheduledJobHidden`).
- The job id is `"scraper-job-"` followed by 8 characters of a random UUID's
  hex form (app.py:48). It does not depend on the keywords or on the time.
  The token is a parameter of length 8.
- Keywords are separated by commas only (app.py:112 and 126). Newlines do not
  separate them.
- Listing and downloading result files from storage is not done in `app.py`.
  It is not part of this model.

## Model

| member | source | states |
|---|---|---|
| `Identity.ReplaceAt` | app.py:19 | the first pass leaves no `@`, and its result contains a `.` if and only if the input does |
| `Identity.RemoveDots` | app.py:19 | the second pass leaves no `.`, and its result contains an `@` if and only if the input does |
| `Identity.Normalize` | app.py:19 | the label never contains `@` or `.` |
| `Identity.NormalizeAppend` | app.py:19 | the label of a concatenation is the concatenation of the labels |
| `Identity.NormalizeSingle` | app.py:19 | one character: `@` gives `_at_`, `.` gives nothing, any other character is kept |
| `Identity.NormalizeFixedPoint` | app.py:19 | a string is its own label if and only if it holds neither `@` nor `.` |
| `Identity.NormalizeIdempotent` | app.py:76 | normalising a label a second time leaves it unchanged: a label is already in normal form |
| `Identity.NormalizeLength` | app.py:19 | the label's length is the email's length plus 3 per `@`, minus 1 per `.` |
| `Identity.NormalizeIgnoresDot` | app.py:19 | two different emails that differ by one `.` get the same label |
| `Identity.NormalizeAtSpelledOut` | app.py:19 | an email with `@` and the same email with `_at_` in its place get the same label |
| `JobFilter.FilterJobs` | app.py:20-24 | every job kept is from the listing and passes the label-and-state test (`Selected`, with `labels.get` as `LabelGet`, app.py:22-23 and 37-38); the result is no longer than the listing |
| `JobFilter.RunningJobsForUser` | app.py:12-26 | every job returned is from the listing, has a `user` label equal to the caller's normalised email, and is RUNNING or QUEUED |
| `JobFilter.CompletedJobsForUser` | app.py:28-41 | every job returned is from the listing, has a `user` label equal to the caller's normalised email, and SUCCEEDED or FAILED |
| `JobFilter.FilterJobsMeetsSpec` | app.py:20-24 | the comprehension keeps listing order and holds each matching job exactly as often as the listing, and nothing else |
| `JobFilter.FilterJobsUnique` | app.py:20-24 | any sequence meeting that specification equals the comprehension's result |
| `JobFilter.FilterJobsAppend` | app.py:35-39 | filtering a concatenated listing gives the concatenation of the filtered parts |
| `JobFilter.RunningJobsExact` | app.py:20-24 | a listed job is in the running result if and only if its `user` label matches and its state is RUNNING or QUEUED; the result is a subsequence of the listing with the right multiplicities |
| `JobFilter.CompletedJobsExact` | app.py:35-39 | a listed job is in the completed result if and only if its `user` label matches and its state is SUCCEEDED or FAILED; the result is an in-order subsequence of the listing |
| `JobFilter.RunningCompletedDisjoint` | app.py:38 | no job is in a running result and in a completed result |
| `JobFilter.ScheduledJobHidden` | app.py:23 | a SCHEDULED job, or one in any state other than the five named ones, is in neither result |
| `JobFilter.UsersIsolated` | app.py:22 | callers whose labels differ never see a common job in either listing |
| `JobFilter.SameLabelSameJobs` | app.py:37 | callers whose labels are equal see exactly the same jobs |
| `KeywordInput.Split` | app.py:126 | `split(",")` always yields at least one piece |
| `KeywordInput.SplitPieces` | app.py:126 | there is one piece more than there are commas, and no piece holds a comma |
| `KeywordInput.JoinSplit` | app.py:126 | joining the pieces with commas gives the text back |
| `KeywordInput.SplitJoin` | app.py:126 | splitting comma-free pieces joined with commas gives the pieces back |
| `KeywordInput.SplitNoSeparator` | app.py:126 | a comma-free text is a single piece |
| `KeywordInput.SplitAppend` | app.py:126 | a comma splits a text into the pieces before it followed by the pieces after it |
| `KeywordInput.TrimStart` | app.py:126 | the result is a suffix of the input, everything cut off is whitespace, and it does not start with whitespace |
| `KeywordInput.TrimEnd` | app.py:126 | the result is a prefix of the input, everything cut off is whitespace, and it does not end with whitespace |
| `KeywordInput.Strip` | app.py:126 | `strip()` leaves no whitespace at either end; whitespace is `IsSpace`, the code points of Python's `str.isspace` |
| `KeywordInput.StripSlice` | app.py:126 | `strip()` keeps one slice of its input and cuts only whitespace on either side; it keeps nothing if and only if the input is all whitespace |
| `KeywordInput.StripChars` | app.py:126 | `strip()` only removes characters |
| `KeywordInput.StripTrimmed` | app.py:126 | a non-empty text with no whitespace at either end is unchanged by `strip()` |
| `KeywordInput.ParseKeywords` | app.py:126 | every keyword is non-empty and has no whitespace at either end; the comprehension itself is `StrippedNonBlank`, each piece contributing `KeptPiece` |
| `KeywordInput.KeywordsCommaFree` | app.py:126 | no keyword contains a comma |
| `KeywordInput.ParseKeywordsAppend` | app.py:126 | the keywords of `a + "," + b` are the keywords of `a` followed by those of `b` |
| `KeywordInput.ParseKeywordsPiece` | app.py:126 | a comma-free text gives nothing if it is all whitespace, and its stripped self otherwise |
| `KeywordInput.ParseKeywordsEmpty` | app.py:126-128 | no keyword is left if and only if the text holds only commas and whitespace |
| `KeywordInput.ParseKeywordsExample` | app.py:126 | `"cats, dogs"` gives `["cats", "dogs"]` |
| `KeywordInput.ParseKeywordsBlankExample` | app.py:126-128 | `""` and `" , \t,"` give no keyword |
| `JobSubmission.SubmitJob` | app.py:45-84 | the request targets `projects/<id>/locations/<region>` (`Parent`, app.py:47), its id is exactly `scraper-job-` followed by the 8-character token, and the job has one container with the configured image |
| `JobSubmission.JobIdsDistinct` | app.py:48 | two requests get the same job id if and only if they were given the same token |
| `JobSubmission.SubmitJobCommands` | app.py:50-53 | the entrypoint is `python`; the commands are `scraper.py` followed by the keywords in order and unchanged, one more than the keywords |
| `JobSubmission.SubmitJobPolicy` | app.py:55-81 | maximum run time 7200 seconds, one `e2-small` instance, logs to Cloud Logging |
| `JobSubmission.SubmitJobLabels` | app.py:74-77 | the labels are exactly `env=prod` and `user=` the normalised session email, whatever the keywords |
| `JobSubmission.SubmittedJobVisibleToSubmitter` | app.py:74-77 | a job submitted by `e` is in `e`'s running listing if and only if it is RUNNING or QUEUED, and in `e`'s completed listing if and only if it SUCCEEDED or FAILED, wherever it sits in the listing; no caller whose email normalises differently sees it |
| `JobSubmission.OnSubmitClick` | app.py:125-132 | the input error, with its message, happens if and only if the text holds only commas and whitespace; otherwise the parsed keywords are submitted unchanged |
| `JobSubmission.SubmittedCommandsAreKeywords` | app.py:125-132 | a submitted job has at least one keyword after `scraper.py`, and every keyword is non-empty, trimmed and comma-free |

## Left out

- Page rendering, the sign-in and sign-out flow and `st.stop` (app.py:92-123). These are presentation and session handling. The session email is a parameter.
- Loading credentials and the `PROJECT_ID`, `REGION` and `IMAGE_URI` settings (app.py:9-10, 88-90). These are external configuration. They enter as the `Config` parameter.
- The Batch client calls `list_jobs` and `create_job` (app.py:13, 17, 32, 83). These are a remote API. The job listing is an input sequence. The create-job request is the result. The returned `response.name` is not modelled.
- `uuid.uuid4()` (app.py:48). It is random. Its 8-character hex prefix is a parameter of length 8.
- The protobuf and Batch wrapper objects. They are rendered as plain records holding the field values `submit_job` sets.
- The exception display around submission (app.py:134-136). It depends on remote failures.
- The listing of a submitted job. `JobSubmission.AsListed` assumes the batch service lists a created job with exactly the labels it was created with; this is an abstraction of the remote service, which the model cannot see.
- Other fields of a listed job. A job is its name, labels and state only, because the filters read nothing else.
