# GErunner in Dafny

A model of the job-composition core of GErunner, a small Python 2 library that
submits pipelines of Grid Engine jobs through `qsub`. Three parts are modelled.

- **`piperunner.py`.** `GEJob` is an atomic job with two hold lists, a list of
  successors (`next_job`) and a `job_id` that `submit` sets once. `GESeriesJob`
  chains stages and `GEParallelJob` fans out to branches; both forward "hold on
  this id" calls and drive `submit` recursively. `_build_command` turns a job's
  fields into the `qsub` argument list. `GEArrayJob` builds an argument sweep
  (zip or Cartesian product) and runs it through the array runner script.
- **`arrayrunner.py`.** `get_job_number` reads its task number and task count
  from the environment. `slice_by_jobnumber` gives each array task its
  contiguous share of the combinations. The runner rebuilds the combinations by
  zipping the per-slot lists.
- **`qsubparse.py`.** The argparse actions that read `qsub` option values:
  `parse_eq`, `yesno`, `split_comma`, `parse_pe`, `unlist_nargs1` and
  `required_length`.

Layout, leaf first:

- `text.dfy` (`Text`): `Option`/`Result` and the Python string helpers the
  source uses (`split`, `join`, `lower`, `strip`, `int()`, `str()`,
  `os.path.basename`).
- `pydict.dfy` (`PyDict`): dictionaries as association lists in insertion order.
- `qsubparse.dfy` (`QsubParse`): the argparse actions as functions from the raw
  option text to the value they store, or to the `ArgumentTypeError` they raise.
  `parse_eq` fills its dictionary in a loop (a method proved against `EqDict`).
- `qsubcommand.dfy` (`QsubCommand`): how each of `_build_command`'s option
  tables is rendered, and how the `qsubparse` actions read each table back.
- `jobs.dfy` (`Jobs`): `iter_or_item2list`, the keyword arguments of
  `GEJob.__init__`, construction with its two errors, and the command line.
- `pipeline.dfy` (`Pipeline`): the submission semantics on values. A `World`
  holds every job's state, the outputs `qsub` will print, and the log of
  command lines `qsub` received.
- `piperunner.dfy` (`PipeRunner`): the heap side. `GEJob` and `Qsub` are
  classes, and series and parallel jobs are submitted by methods with loops.
  Each method is proved to change the heap, seen as a `World`, exactly as the
  `Pipeline` functions say.
- `arrayrunner.dfy` (`ArrayRunner`): `get_job_number` over an environment
  map, `slice_by_jobnumber`, the partition lemmas and the zip of the slots.
- `arrayjob.dfy` (`ArrayJob`): `GEArrayJob.__init__`, meaning the sweep's
  columns, the default array range, the environment variables and the runner's
  argument list.

Two behaviours are modelled as the code has them, not as the library's
intent might suggest:

- A task id without a task count raises `KeyError`, because
  `arrayrunner.py:47` reads `SGE_TASK_LAST` outside the `try`. It does not
  fall back to the single task of one.
- A job's `next_job` successors are submitted in list order.

Non-final slice bounds differ: the code truncates a floating-point product,
and the model computes them exactly (see "Left out").

## Model

| member | source | states |
|---|---|---|
| Jobs.Flatten | piperunner.py:22-28 | the definition of `iter_or_item2list`: None gives [], a non-string iterable the concatenation of its elements' lists, any other value the one-item list; `FlattenItems`, `FlattenIdempotent` and `FlattenTuple` characterise it |
| Jobs.FlattenAll | piperunner.py:26 | the definition of the `reduce` over the mapped elements, left to right from `[]`; `FlattenTuple` characterises it |
| Jobs.FlattenItems | piperunner.py:22-28 | a list of plain items flattens to itself |
| Jobs.FlattenIdempotent | piperunner.py:22-28 | flattening the flattened list of any value changes nothing |
| Jobs.FlattenTuple | piperunner.py:26 | flattening a tuple is the concatenation of flattening any split of it, left part first |
| Pipeline.ParallelHoldsAll | piperunner.py:380-381 | every id in any branch result of a parallel job's tuple is in the flattened tuple, so a hold on the tuple holds on every branch |
| Jobs.Construct | piperunner.py:91-165 | NotFound exactly when the command is not found; InvalidName exactly when it is found and the name (given, or the command's basename) starts with a digit; otherwise command, args (default []), flattened hold lists, array, mail defaults, resource, parallel env and the caller's environment variables as `__init__` sets them |
| Jobs.Resource | piperunner.py:122-125 | with `mem` set, `s_vmem` and `mem_req` both map to it and other keys are untouched; without it the resource dict is kept |
| Pipeline.Initial | piperunner.py:166-167 | a new job has no id, no successors and the configured holds and array |
| Pipeline.AddHolds | piperunner.py:169-173 | the ids go to the end of the chosen hold list; the other hold list and every other field are unchanged |
| Pipeline.AddSuccessor | piperunner.py:175-176 | one more (job, as_array) pair at the end of `next_job`, nothing else changes |
| PipeRunner.GEJob.constructor | piperunner.py:94-167 | the heap job's state is `Initial` of the constructed job |
| PipeRunner.GEJob.AppendHoldJid | piperunner.py:169-170 | the new state is `AddHolds` of the old state with the flattened ids on `hold_jid` |
| PipeRunner.GEJob.AppendHoldJidAd | piperunner.py:172-173 | the new state is `AddHolds` of the old state with the flattened ids on `hold_jid_ad` |
| PipeRunner.GEJob.AppendNextJob | piperunner.py:175-176 | the new state is `AddSuccessor` of the old state |
| Jobs.CommandLine | piperunner.py:178-282 | the definition of the argument list `_build_command` writes: `qsub`, the option tables in order, binding, first parallel env, command, args; `CommandLineEnds` and `CommandLineDecodes` characterise it |
| Jobs.CommandLineEnds | piperunner.py:179-280 | the command line starts with `qsub` and ends with the command followed by its arguments |
| Jobs.CommandLineDecodes | piperunner.py:178-282 | reading the command line back table by table with the option actions gives every option value `_build_command` wrote from, and leaves binding, parallel env, command and args; needs comma-free list items and `=`/`,`-free keys and values |
| QsubCommand.SimpleRoundTrip | piperunner.py:202-205 | `-X v` is emitted exactly for the non-None values, and each value reads back |
| QsubCommand.YesNoRoundTrip | piperunner.py:217-223 | True is written `yes`, False `no`, None not at all, and `yesno` reads each back |
| QsubCommand.FlagRoundTrip | piperunner.py:236-239 | a bare flag is emitted exactly for True, and its presence reads back |
| QsubCommand.CommaRoundTrip | piperunner.py:254-257 | a non-empty list is written comma-joined, an empty one not at all, and `split_comma` reads it back |
| QsubCommand.KvRoundTrip | piperunner.py:265-268 | a non-empty dict is written as `k=v` pieces (bare `k` for an empty value), and `parse_eq` reads it back |
| QsubCommand.EqDictOfPieces | piperunner.py:268 | `parse_eq` of the rendered pieces of a dict with distinct plain keys is that dict |
| QsubCommand.PeRoundTrip | piperunner.py:273-275 | `-pe name slots` reads back through `parse_pe` to the one-entry parallel env |
| PipeRunner.RenderSimple | piperunner.py:202-205 | the loop appends exactly the rendering of the simple-option table |
| PipeRunner.RenderYesNo | piperunner.py:217-223 | the loop appends exactly the rendering of the yes/no table |
| PipeRunner.RenderFlags | piperunner.py:236-239 | the loop appends exactly the rendering of the flag table |
| PipeRunner.RenderCommas | piperunner.py:254-257 | the loop appends exactly the rendering of the comma-list table |
| PipeRunner.RenderKvs | piperunner.py:265-268 | the loop appends exactly the rendering of the key/value table |
| PipeRunner.RenderTail | piperunner.py:270-280 | `-binding` words when given, the first parallel env when there is one, the command, then its arguments |
| PipeRunner.GEJob.BuildCommand | piperunner.py:178-282 | `commandline` becomes `CommandLine` of the job's fields and nothing else changes |
| Pipeline.Append | piperunner.py:349-353 | forwarding a hold to any pipeline node changes only hold lists, and hold lists only grow; `AppendGate` says which jobs receive what |
| Pipeline.AppendAll | piperunner.py:372-378 | forwarding a hold to every branch in turn, stopping at the first failure, changes only hold lists, and hold lists only grow |
| Pipeline.ParseOutput | piperunner.py:293-296 | the definition of reading qsub's output: with a `.` the right-stripped output must split into exactly id and array text, otherwise an unpacking error; without one the stripped output is the id text; `ParseOutputPlain` and `ParseOutputArray` characterise it |
| Pipeline.ParseOutputPlain | piperunner.py:293-297 | output `N` followed by a newline reads as id text `N` with no array, and that text parses back to N |
| Pipeline.ParseOutputArray | piperunner.py:293-294 | output `N.R` followed by a newline reads as id text `N` and array `R`, including the empty `R` of output `N.` |
| Pipeline.Issue | piperunner.py:290-292 | the job's command line becomes the one built from its current state, qsub's next output is consumed, that (job, line) pair is appended to the log, and nothing else changes |
| Pipeline.Assign | piperunner.py:294-297 | only the job's array range and id change; setting an id takes the job out of the jobs without an id |
| Pipeline.SubmitSuccessors | piperunner.py:305-310 | the successor loop keeps every job and configuration, keeps ids once set, only lets hold lists and the qsub log grow, and keeps successors made of known jobs; `SuccessorReached` and `SuccessorHoldsAt` characterise each turn |
| Pipeline.SubmitNode | piperunner.py:355-381 | the submit of any pipeline node moves the world forward in the same sense; `NodeReturns` and `OnceNode` characterise its result and record |
| Pipeline.SubmitStages | piperunner.py:355-364 | the series loop moves the world forward in the same sense; `StageReached`, `StagesReturnLast` characterise it |
| Pipeline.SubmitBranches | piperunner.py:380-381 | the branch loop moves the world forward in the same sense and, when it goes through, gives one result per branch |
| Pipeline.SubmitJob | piperunner.py:284-312 | after a successful submit the job has an id and the result is that id; ids once set stay set, and only hold lists and the qsub log grow |
| Pipeline.ResubmitRefused | piperunner.py:285-286 | submitting a job that has an id fails with AlreadySubmitted and changes nothing |
| Pipeline.SubmitJobReads | piperunner.py:290-310 | the command line of the job's current state goes to qsub; the parsed id and array range are stored; then the successors run |
| Pipeline.SubmitReadsId | piperunner.py:293-297 | qsub output `N` gives job id N and no array range, and the command line qsub received is the job's own |
| Pipeline.SubmitReadsArray | piperunner.py:293-294 | qsub output `N.R` gives job id N and array range R, the empty range included |
| Pipeline.SubmitLogsFirst | piperunner.py:290-292 | a job without an id is the first thing qsub receives in its submit, with the command line of its current state |
| Pipeline.SuccessorReached | piperunner.py:305-310 | at turn i of the successor loop every job gated by successor i gets this id on the list its flag names, before the successor is submitted |
| Pipeline.SuccessorHoldsAt | piperunner.py:305-310 | a job successor at turn i without an id reaches qsub with this id already on its hold list |
| Pipeline.SuccessorHoldsFirst | piperunner.py:305-310 | the first successor, a job without an id, reaches qsub with this id on its hold list |
| Pipeline.AppendGate | piperunner.py:349-378 | a hold forwarded through a pipeline succeeds exactly when it meets no empty series; each job reached gets the flattened ids once per time it is reached (a series reaches only its first stage, a parallel job every branch), and nothing else changes |
| Pipeline.StagesReturnLast | piperunner.py:355-364 | a series that goes through returns what its last stage returned |
| Pipeline.SeriesReturnsLastId | piperunner.py:364 | a series whose last stage is a job returns that job's id |
| Pipeline.StageHandsOn | piperunner.py:356-362 | the stage after a stage that went through reaches qsub with that stage's flattened result on its hold list (ad-list when the series is an array series) |
| Pipeline.StagesUpTo | piperunner.py:356-362 | the state in which stage i is submitted keeps the same jobs and has every later stage made of known jobs |
| Pipeline.StagesResume | piperunner.py:356-362 | once the stages before i went through, the series runs on as the stages from i on |
| Pipeline.StageReached | piperunner.py:357-362 | after stage k goes through, the hold on stage k+1 succeeds exactly when it meets no empty series, every job its gate reaches gets stage k's flattened result on the list `as_array` picks, and stage k+1 is submitted from that state within the series' record |
| Pipeline.StageHoldsAt | piperunner.py:357-362 | a job stage k+1 without an id reaches qsub with stage k's flattened result on the hold list `as_array` picks |
| Pipeline.StagesFirstLog | piperunner.py:356-357 | a series whose first stage is a job without an id hands that job to qsub first |
| Pipeline.NodeReturns | piperunner.py:312 | the result of any pipeline's submit is a job's id, a series' last result, or the tuple of branch results in branch order |
| Pipeline.BranchesReturn | piperunner.py:380-381 | a parallel job that goes through returns one result per branch, in order |
| Pipeline.OnceNode | piperunner.py:285-286 | in one submit of any pipeline, qsub receives only jobs that had no id and each at most once, and on success every one of them has an id |
| Pipeline.OnceJob | piperunner.py:284-312 | the same for a single job's submit with its successors |
| PipeRunner.Qsub.CheckOutput | piperunner.py:292 | qsub hands out its next output (None when it fails) and records the command line |
| PipeRunner.GEJob.Submit | piperunner.py:284-312 | the heap after submit, with the result, equals `SubmitJob` of the heap before |
| PipeRunner.GEJob.SendCommand | piperunner.py:290-292 | builds the command line and hands it to qsub, as `Issue` says |
| PipeRunner.GEJob.RecordOutput | piperunner.py:293-297 | stores the array range and the id, as `Assign` says |
| PipeRunner.SubmitSuccessorsLoop | piperunner.py:305-310 | the loop over `next_job` leaves the heap and result as `SubmitSuccessors` says |
| PipeRunner.SubmitSuccessor | piperunner.py:306-310 | one turn: hold first, then submit |
| PipeRunner.HoldPipeline | piperunner.py:349-353 | the heap after a forwarded hold equals `Append` of the heap before |
| PipeRunner.HoldParallel | piperunner.py:372-378 | the forwarding loop of a parallel job equals `AppendAll` |
| PipeRunner.SubmitPipeline | piperunner.py:355-381 | submit on any pipeline node equals `SubmitNode` |
| PipeRunner.SubmitSeries | piperunner.py:355-364 | a series' submit equals `SubmitNode` of the series, failing for an empty one |
| PipeRunner.SubmitEach | piperunner.py:356-362 | the stage loop equals `SubmitStages` |
| PipeRunner.SubmitStage | piperunner.py:357-362 | one turn: the stage is submitted, then the next stage receives its result as a hold |
| PipeRunner.SubmitParallel | piperunner.py:380-381 | the branch loop equals `SubmitBranches`, and the result is the tuple |
| PipeRunner.SubmitBranch | piperunner.py:381 | one turn: branch i is submitted |
| ArrayJob.Combos | piperunner.py:324-327 | every combination has one value per slot; `ProductMembers`, `ZipColumns` and `RunnerSeesCombinations` characterise it |
| ArrayJob.Product | piperunner.py:325 | `itertools.product` has the product of the list lengths as its count, one value per list in each combination |
| ArrayJob.ProductMembers | piperunner.py:325 | the product holds exactly the sequences that pick one value from each list |
| ArrayJob.Columns | piperunner.py:324-327 | no columns exactly when there are no slots or no combinations; otherwise one column per slot, each as long as the combinations |
| ArrayJob.ZipColumns | piperunner.py:327 | without `make_combination` every list is cut to the shortest length, or none is left when one is empty |
| ArrayJob.ProductColumns | piperunner.py:325 | with `make_combination` there is one column per list, as long as the product count |
| ArrayJob.RunnerSeesCombinations | piperunner.py:324-327 | the runner's zip of the columns gives back exactly the combinations, so each becomes one array task |
| ArrayJob.QuoteAll | piperunner.py:338-339 | every value is quoted as the source writes it |
| ArrayJob.BuildArrayCommand | piperunner.py:336-338 | the runner script, then `-k` with column k's quoted values, for every column in order |
| ArrayJob.ArrayArgs | piperunner.py:336-339 | the definition of the job's argument list: the runner, each column under its flag, `--`, the original command, its quoted arguments; `RunnerReadsColumns` characterises it |
| ArrayJob.RunnerReadsColumns | piperunner.py:336-339 | when every column holds a value (as `Columns` guarantees), the quoted words of the job's arguments, as qsub receives them, parse into one option per column with its quoted values, in order, and `commands` receives `--`, the original command and its quoted arguments |
| ArrayJob.ReadEveryOption | arrayrunner.py:10-18 | the runner's parser reads every list of words back under its own `-k` option, in order, when every list holds a word and no word is an option as the parser decides it (`IsOption`: a word with a space is still an option when its first two characters, or its text before `=`, is a declared option); what follows is read on its own, and an error there stays an error |
| ArrayJob.RunnerReadsValues | arrayrunner.py:10-18 | for columns that each hold a value, with values that are not options as the parser decides it (`IsOption`) and hold no `\`, `"`, `$` or backquote, the shell hands the runner each flag and each value itself, and the parser gives every column back under its own option, in order, and `--` with every word after it to `commands` |
| ArrayJob.SpacedOptions | arrayrunner.py:12-18 | argparse's option test with the runner's declared options `-1` .. `-99` and `-h`: `-1 b` and `-h x` are options by their first two characters and `-1=a b` by its text before `=`, although each holds a space |
| ArrayJob.SpacedValue | arrayrunner.py:12-18 | a word with a space that matches no declared option, `-x y`, is not an option and can be a value |
| ArrayJob.RunnerRejectsSpacedDashValue | arrayrunner.py:12-18 | the column `["-1 b"]` reaches the runner as `-1` and `-1 b`; the parser takes `-1 b` for an option, so the first `-1` gets no value and the parser stops with an error |
| ArrayJob.RunnerRejectsDashValue | arrayrunner.py:12-18 | the column `["-5"]` reaches the runner as `-1 -5`; the parser takes `-5` for an option, so `-1` gets no value and `nargs="+"` stops the parser with an error |
| ArrayJob.RunnerRejectsEmptyColumn | arrayrunner.py:12-18 | an empty column leaves `-1` directly before `--`, and `nargs="+"` stops the parser with an error |
| ArrayJob.NewArrayJob | piperunner.py:319-341 | construction errors pass through; with no array given and no combinations it fails; otherwise the command is `python`, cwd and binary are True, array defaults to `1-<count>`, and args are the runner's |
| ArrayJob.ArrayJobEnv | piperunner.py:333-334 | `PATH` and `LD_LIBRARY_PATH` come from the environment (default ''), every other variable is kept |
| ArrayJob.QuoteAsWritten | piperunner.py:338-339 | the definition of the quoting as written; `QuoteAsWrittenPlain` characterises it |
| ArrayJob.QuoteAsWrittenPlain | piperunner.py:338-339 | the replacement as written leaves the value unchanged, so the word is the value between double quotes |
| ArrayJob.QuoteAsWrittenBreaks | piperunner.py:338-339 | the word written for `a"b` does not read back as `a"b` in the shell that starts the job |
| ArrayJob.QuoteAsWrittenExpands | piperunner.py:338-339 | the word written for `$HOME` does not read back as `$HOME`: the shell expands it |
| ArrayJob.QuoteAsWrittenDollar | piperunner.py:338-339 | every value that starts with `$` is written as a word the shell expands rather than reads literally |
| ArrayJob.Quote | piperunner.py:338-339 | the definition of the corrected quoting: backslash, double quote, dollar sign and backquote escaped inside double quotes; `QuoteRoundTrip` characterises it |
| ArrayJob.QuoteRoundTrip | piperunner.py:338-339 | with backslash, double quote, dollar sign and backquote escaped, every value, whatever characters it holds, reads back from its quoted word as a POSIX shell reads a double-quoted word, with no expansion |
| ArrayJob.QuoteAgrees | piperunner.py:338-339 | the two quotings agree on values without backslash, double quote, dollar sign and backquote |
| ArrayRunner.GetJobNumber | arrayrunner.py:41-56 | (0, 1) without a task id; KeyError with a task id but no task count; (id-1, last) when both are numbers, (0, 1) otherwise |
| ArrayRunner.GetJobNumberOfTask | arrayrunner.py:45-51 | task t+1 of n written in decimal reads back as task number t of n |
| ArrayRunner.SliceByJobNumber | arrayrunner.py:59-64 | fails exactly when there are 0 tasks (division by zero) |
| ArrayRunner.TaskSliceRange | arrayrunner.py:59-64 | task num's slice runs from floor(len*num/jobs) to the next task's start, or to the end for the final task |
| ArrayRunner.SlicesPrefix | arrayrunner.py:59-64 | the slices of the first k tasks are contiguous and ordered: together they are the prefix up to task k's start |
| ArrayRunner.SlicesCover | arrayrunner.py:59-64 | the slices of tasks 0..jobs-1 concatenate to the whole sequence |
| ArrayRunner.SliceSize | arrayrunner.py:61-64 | every slice has floor(len/jobs) or one more element |
| ArrayRunner.SingleTaskWhole | arrayrunner.py:60-64 | with one task the slice is the whole sequence |
| ArrayRunner.SevenOverThree | arrayrunner.py:59-64 | seven elements over three tasks give 2, 2 and 3 |
| ArrayRunner.OneCombinationPerTask | arrayrunner.py:59-64 | with as many tasks as combinations, task t gets exactly combination t |
| ArrayRunner.SliceForTask | arrayrunner.py:60 | without a task id the runner's slice is the whole sequence |
| ArrayRunner.Zip | arrayrunner.py:27 | the zip is as long as the shortest slot, and combination i holds the i-th value of every slot |
| ArrayRunner.Combinations | arrayrunner.py:21-27 | no slots give no combinations; otherwise the length is the shortest slot's |
| QsubParse.RequiredLength | qsubparse.py:14-19 | accepted exactly when nmin <= len(values) <= nmax, and then stored unchanged |
| QsubParse.YesNo | qsubparse.py:38-44 | true exactly for any case of `y`, `ye`, `yes`; false exactly for any case of `n`, `no`; an error otherwise |
| QsubParse.SplitComma | qsubparse.py:51 | at least one piece, no piece holds a comma, and the pieces joined with `,` are the input |
| QsubParse.ParsePe | qsubparse.py:56 | one entry, keyed by the first value, whose slot list joins back to the second value |
| QsubParse.UnlistNargs1 | qsubparse.py:61 | the result is the one element of the list |
| QsubParse.ParseEq | qsubparse.py:23-33 | the loop builds `EqDict` of the comma-separated pieces |
| QsubParse.EqDict | qsubparse.py:25-31 | the definition of the dict `parse_eq` builds: the pieces' assignments in order, a later one overwriting an earlier one; `EqDictHasKey`, `EqDictLastWins` and `EqDictDistinct` characterise it |
| QsubParse.EqDictHasKey | qsubparse.py:26-31 | a key is present exactly when some piece names it |
| QsubParse.EqDictLastWins | qsubparse.py:26-31 | a key holds the value of the last piece naming it |
| QsubParse.EqDictDistinct | qsubparse.py:25-33 | the parsed keys are distinct |
| QsubParse.EqValueExtra | qsubparse.py:27-31 | in `k=v=w` only `v` is kept as the value of `k` |
| QsubParse.EqValueBare | qsubparse.py:28-29 | a bare `k` maps to the empty value |
| Text.ParseInt | piperunner.py:297 | the definition of Python 2's `int()` on text: surrounding whitespace stripped, an optional sign, whitespace after the sign skipped, then decimal digits, None otherwise; `ParseIntToString` and `ParseSignSpace` characterise it |
| Text.ParseSignSpace | arrayrunner.py:49-50 | whitespace between the sign and the digits is skipped: `- 5` reads as -5 and `+` tab `7` as 7 |
| Text.ParseIntToString | arrayrunner.py:49-50 | the decimal text of any integer parses back to that integer |
| Text.JoinSplit | qsubparse.py:51 | joining the pieces of a split with its separator gives back the text |
| Text.SplitJoin | piperunner.py:257 | splitting a join of separator-free pieces gives back the pieces |

## Left out

- The qsub call (`subprocess.check_output`, piperunner.py:292) is a `Qsub` object holding the outputs it will print, in order. None stands for a non-zero exit status, and running out of outputs counts as a failure.
- The status lines written to standard output (piperunner.py:288, piperunner.py:299-303) are not modelled.
- The file-system and PATH lookup (`has_path`, `path.isfile`, piperunner.py:15-19 and 91) is a boolean parameter `found`.
- `os.environ` (piperunner.py:333-334 and arrayrunner.py:45-47) is an explicit map argument.
- `GEJob.default_mail` and `default_mail_address` (piperunner.py:11-12) are a `MailDefaults` parameter of construction.
- ArrayRunner.SliceByJobNumber: the source computes bounds as `int(float(len) / jobs * k)`, with floating-point division. The model uses the exact `floor(len * k / jobs)`. The two can differ at a boundary: for length 30 and 22 tasks, boundary 11 is 14 in floating point and 15 exactly.
- Python 2 dictionaries iterate in hash order. The model fixes insertion order. This decides which `-pe` entry is written when there are several (piperunner.py:274), and the order of the pieces of `-v`, `-l`, `-ac` and `-sc` (piperunner.py:268).
- `GEParallelJob` keeps the caller's list (`self.jobs = jobs`, piperunner.py:369). The model holds the branch list as a value, so a later change to that list by the caller is not seen.
- `GEJob` keeps the caller's `var` and `resource` dictionaries (piperunner.py:122, 158). `GEArrayJob` then writes `PATH` into the caller's dictionary (piperunner.py:333). The model copies values, so that aliasing is not captured.
- `str()` of values that are not strings (piperunner.py:257, 282 and 338): option values and the values of the `argN` lists are strings here, and ids are integers or texts.
- The extra keyword arguments (`additionals`), `verbose` and the `terse` argument are stored by the source but never used, so they are not fields. `-terse` is always written, as in the source.
- `command2GEJob`, `parse_args` and the argparse flag table (qsubparse.py:7-8 and 64-130) are not modelled. Each action is a function returning the value it would store.
- `arrayrunner._main` beyond the zip of the slots (argparse, `shlex`, `str.format` templating, `subprocess.call`, `exit`; arrayrunner.py:8-38) is not modelled.
- The shell that starts the job reads each quoted argument (piperunner.py:336-339). Its expansions of `$` and backquote are not computed: the model's reader of a double-quoted word gives no text for a word holding either one unescaped, and an unquoted word is read only when it is made of letters, digits and `-_./+,:@`. It shows that such a value does not come through literally, but not what it becomes.
- ArrayJob.RunnerReadsValues: holds only for values that are not options and hold no `\`, `"`, `$` or backquote, and `ArrayJob.RunnerReadsColumns` speaks of the quoted words only. The runner's parser (arrayrunner.py:12-18) takes such a value for an option, and the option before it is then left without a value, an error (`RunnerRejectsDashValue`, `RunnerRejectsSpacedDashValue`). Every word that starts with `-` and is longer than `-` is an option unless it holds a space and matches no declared option. `-5` is the option of the fifth list, and `-0.5` looks like a negative number to a parser that has number-like options. The source has no guard against either. Values with the four other characters are the subject of the quoting findings.
- The runner's argparse parser (arrayrunner.py:9-18) is modelled only as far as the job's own words need it. The model covers the grouping of values under the `-1` .. `-99` options, `--` or the first plain word starting the `commands` remainder, and the error for an option without a value. Option abbreviations count only in deciding which words are options. The error for an unknown option, the help output of `-h` and the resolution of an abbreviation to its option are not modelled.
- The `__main__` blocks and the test scripts are not modelled.

## Findings

| source | as written | input that shows it | evidently intended | confidence | as-written member | corrected member |
|---|---|---|---|---|---|---|
| piperunner.py:338-339 | `x.replace('"', '\"')` replaces `"` with itself, because `'\"'` is the one-character text `"` | argument `a"b` becomes the word `"a"b"`, whose quotes do not balance and which does not read back as `a"b` | escape `\`, `"`, `$` and backquote inside the quotes so every value reads back from the shell that starts the job | high, not executed | ArrayJob.QuoteAsWrittenBreaks | ArrayJob.QuoteRoundTrip |
| piperunner.py:338-339 | `$` and backquote are left as they are between the double quotes | argument `$HOME` becomes the word `"$HOME"`, which the shell that starts the job expands to the home directory | escape `$` and backquote as well, so the value is passed literally | medium, not executed | ArrayJob.QuoteAsWrittenExpands | ArrayJob.QuoteRoundTrip |
