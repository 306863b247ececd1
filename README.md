# Montage service model

A Dafny model of the core of a Flask service that turns a gameplay video and
a music track into a kill montage (`script/app.py`). The model covers:

- the two extension checks, `allowed_video_file` and `allowed_audio_file`
  (module `Validators`);
- the job record that the registry `processing_status` keeps per job id, and
  the names a job reserves: `montage_<id>.mp4` and `kill_timestamps_<id>.txt`
  (module `Jobs`);
- the background task `process_task` (module `Pipeline`). It is a pure trace
  with one `Step` per key assignment, collaborator call or file removal. Each
  step carries the record as a poll of the status endpoint would see it right
  after that step;
- the endpoints as methods of the class `MontageService` (module `Service`),
  over four pieces of state:
  - `jobs`, the registry;
  - `uploads`, `clips` and `outputs`, the names of the files in the
    `uploads`, `kill_clips` and `output` folders.

  `RunPipeline` is the task body run to its end. It is proved against
  `Pipeline.Trace`. `Session` is a client that runs upload, process, task,
  status, download and cleanup against a fresh service.

The collaborators `detect_kills`, `extract_kill_clips` and
`generate_final_montage` are given as `Outcome` values, each either
`Returned(value)` or `Raised(message)`. The exception (if any) raised when
the timestamps file is deleted is given as an `Option`. `secure_filename` is
a function the service is constructed with; its rules are not modelled.

The code is followed where one would expect otherwise. One would expect
completed and failed to be final: once a job has one of them, its status
never changes again. In the code, the timestamps file is deleted after the status is already set to
completed, inside the same `try`. An exception there makes the handler set
the status to failed and record the error. `Pipeline.RemovalFaultOverwritesCompleted`
states this. `Pipeline.TerminalStatusIsStable` proves that terminal statuses
are stable when that deletion does not raise.

Assumed contract of the collaborators' file effects, which the code relies on
but does not show:
- a successful detection writes the timestamps file into the uploads folder;
- a successful extraction writes the clips it returns into the clips folder;
- a successful assembly writes `montage_<id>.mp4` into the output folder;
- a collaborator that raises leaves the folders as they were.

A requested name that `secure_filename` turns into the empty string makes
`process_video` check the uploads folder itself, which exists, so the request
passes the 404 checks. `Service.Present` models this.

## Model

| member | source | states |
|---|---|---|
| Validators.Lower | script/app.py:49-52 | `.lower()` as ASCII lower-casing: each capital A to Z becomes its small letter, and every other character stays; the length is kept |
| Validators.HasExtensionIn | script/app.py:48-52 | the expression both checks share: the name contains a dot, and the lower-cased text after its last dot is one of the allowed extensions; this is "a check" in the rows below |
| Validators.Extension | script/app.py:49 | `filename.rsplit('.', 1)[1]`: the text after the last dot, by peeling characters off the end; it never contains a dot |
| Validators.AllowedVideoFile | script/app.py:48-49 | `allowed_video_file`: a dot in the name and the lower-cased text after the last one in {mp4, mov, avi}; equivalently, the name ends in a dot and one of them in any case |
| Validators.AllowedAudioFile | script/app.py:51-52 | `allowed_audio_file`: the same with {mp3, wav}; equivalently, the name ends in a dot and one of them in any case |
| Validators.ThreeLetterExtensions | script/app.py:48-52 | when every allowed extension is three dot-free letters, the check decides on the last four characters alone |
| Validators.ExtensionIsLastSegment | script/app.py:49 | the part `rsplit('.', 1)[1]` takes is a dot-free tail of the name with a dot right before it |
| Validators.ExtensionOf | script/app.py:49 | whatever precedes the last dot, the extension is exactly the dot-free text after it |
| Validators.ExtensionCharacterisation | script/app.py:48-52 | a name passes a check if and only if it has a last dot after which the lower-cased rest is an allowed extension |
| Validators.CaseInsensitive | script/app.py:48-52 | names that differ only in letter case are accepted or rejected together |
| Validators.ExtensionOfLower | script/app.py:49 | lower-casing a name keeps its last dot and lower-cases its extension |
| Validators.NoFileIsVideoAndAudio | script/app.py:48-52 | no name passes both the video and the audio check |
| Validators.NameWithoutDotRejected | script/app.py:48-52 | a name without a dot is rejected by both checks |
| Validators.Decide | script/app.py:48-52 | for a stem, a dot and a dot-free extension, the check is exactly membership of the lower-cased extension |
| Validators.VideoExamples | script/app.py:48-49 | `.mp4`, `.MOV` and `.Avi` names pass the video check, whatever the stem |
| Validators.RejectedVideoExamples | script/app.py:48-49 | `.exe`, `.mp4.exe` and `.mp3` names fail the video check, whatever the stem |
| Validators.AudioExamples | script/app.py:51-52 | `.mp3` and `.WAV` names pass the audio check and `.mp4` names fail it |
| Jobs.OutputFilename | script/app.py:145 | the montage name of job `id`: `montage_` then the id then `.mp4` |
| Jobs.TimestampsFile | script/app.py:166 | the timestamps file name of job `id`: `kill_timestamps_` then the id then `.txt` |
| Jobs.NewJob | script/app.py:144-155 | the record published for a new job: processing, progress 0, detecting kills, its montage name `montage_<id>.mp4`, and no error, end time or counts |
| Jobs.NewJobNames | script/app.py:149-155 | the new record shows 'processing' and 'detecting_kills' |
| Jobs.OutputFilenameInjective | script/app.py:144-145 | different job ids reserve different montage names |
| Pipeline.Trace | script/app.py:159-200 | `process_task` as the records a poll sees after each step: for each stage, stage, progress and call, then the handler's two keys on the first raising collaborator; after all three, the five completion keys, the removal, and the handler again if the removal raises; never empty |
| Pipeline.RunIsOrderly | script/app.py:159-200 | from a fresh record, every step of a run is orderly: progress and stage never go back, 'error' only with failed, end time and counts never while processing, and a call leaves the record as it was, at the callee's stage and checkpoint |
| Pipeline.ProgressNeverDecreases | script/app.py:159-192 | every later record of a run has progress and stage at least those of every earlier one |
| Pipeline.ProgressIsACheckpoint | script/app.py:162-189 | every progress value a run shows is 0, 10, 30, 50 or 100 |
| Pipeline.RecordsStayConsistent | script/app.py:159-200 | each collaborator runs only while the record shows its stage and checkpoint; an error implies failed; end time and counts imply not processing |
| Pipeline.CollaboratorsRunInOrder | script/app.py:169-185 | the run calls exactly detection, extraction and assembly, in that order, stopping after the first one that raises |
| Pipeline.CollaboratorFailureIsFinal | script/app.py:162-200 | a raising collaborator ends the run failed with its message under 'error', at that collaborator's stage and checkpoint, with nothing else changed |
| Pipeline.SuccessfulRunCompletes | script/app.py:188-196 | when everything returns, the run ends completed at 100 with the end time set, the kill and clip counts of the collaborators' results, and the error and output name as the run found them |
| Pipeline.RemovalFaultOverwritesCompleted | script/app.py:188-200 | when deleting the timestamps file raises, a poll can see completed before the run ends failed with that message, progress 100 and both counts |
| Pipeline.TerminalStatusIsStable | script/app.py:188-200 | when that deletion does not raise, once the status is completed or failed every later record keeps it |
| Service.Present | script/app.py:135-141 | `os.path.exists` of a name joined to the uploads folder: the name is in the folder, or is empty and so names the folder itself |
| Service.MontageService.constructor | script/app.py:29-38 | the service starts with an empty registry and the folders as given |
| Service.MontageService.UploadVideo | script/app.py:63-89 | no part, an empty name or a rejected extension each give their 400 and change nothing; an accepted video empties the clips folder and is saved under its sanitised name, which is returned |
| Service.MontageService.UploadAudio | script/app.py:95-117 | as for the video, with the audio check, its message, and the clips folder left alone |
| Service.MontageService.Process | script/app.py:123-155 | a missing body or key gives 400, a missing video or track gives 404, and none of them publishes a record; otherwise exactly the new id is added to the registry, with a fresh record |
| Service.MontageService.MarkFailed | script/app.py:198-200 | the handler sets status failed, then stores the message under 'error' |
| Service.MontageService.Enter | script/app.py:162-185 | stage, then progress, then the collaborator call, for any of the three stages |
| Service.MontageService.MarkCompleted | script/app.py:188-196 | the five completion keys in order, then the removal step of the trace; the file itself leaves the uploads set in `Finish` |
| Service.MontageService.Finish | script/app.py:188-200 | completion, then the timestamps file is removed, or its removal raises and the handler marks the job failed |
| Service.MontageService.RunAssembly | script/app.py:178-200 | the assembly stage and what follows it, with the montage written on success |
| Service.MontageService.RunExtraction | script/app.py:172-200 | the extraction stage and what follows it, with the returned clips written on success |
| Service.MontageService.RunPipeline | script/app.py:159-201 | the job's record ends as the last record of `Trace`, no other job changes, and the folders hold exactly what the successful collaborators wrote; an unknown id changes nothing |
| Service.MontageService.GetStatus | script/app.py:221-227 | the job's record if the id is registered, otherwise 404 'Job not found' |
| Service.MontageService.Download | script/app.py:229-236 | found exactly when the name is in the output folder, otherwise 404 'File not found' |
| Service.MontageService.Cleanup | script/app.py:247-266 | every file of the three folders is gone and the registry is empty |
| Service.StartSession | script/app.py:63-155 | uploading `gameplay.mp4` and `track.mp3` and then asking to process them registers exactly the new job |
| Service.Session | script/app.py:63-266 | a session in which every collaborator returns polls a completed job at 100 with both counts, downloads its montage, and after cleanup the job is unknown |

## Left out

- HTTP, JSON, CORS and the request size limit are not modelled. Only the error message and the status code of each answer are kept.
- The 500 paths are left out: I/O faults while saving, listing or removing files.
- `secureFilename` may be any function, but the model is faithful only on what werkzeug's `secure_filename` can return: names without '/' that are neither "." nor "..". On those names, `Service.Present` agrees with `os.path.exists` of the join. Under those rules an accepted name ends in three ASCII letters or digits, which survive sanitising. The dot before them may not: `..mp4` becomes `mp4`. So an accepted upload never sanitises to the empty name.
- The failure to start the thread (script/app.py:212-215) is left out.
- `Service.MontageService.Process` covers a JSON object body and a JSON `null` body (`None`). A body that is not JSON makes `request.get_json()` raise, and the handler answers 500. That path is left out. So are JSON arrays, numbers and strings as the body, and key values that are not strings.
- Threading is not modelled. The task runs to its end in one call, so interleavings of a running task with other requests, cleanup included, are not modelled.
- Times (`start_time`, `end_time`) are left out. `ended` records only that an end time was set.
- File sizes in upload answers are left out.
- The bytes of a download are left out. Only presence in the output folder is modelled.
- The YOLO model loading and the health endpoint are left out.
- The collaborators' internals are left out. So are any partial files a collaborator leaves when it raises.
- The rules of `secure_filename` are left out.
- `Validators.Lower` lower-cases only ASCII letters. Python's Unicode `lower()` gives the same verdicts. The only non-ASCII characters that lower-case to ASCII letters are the Kelvin sign (U+212A), which gives 'k', and the dotted capital I (U+0130), which gives 'i' followed by U+0307. No allowed extension contains 'k'. U+0307 is in no allowed extension, so a lower-cased extension that contains it is never one of mp4, mov, avi, mp3 or wav.
- Service.MontageService.RunPipeline: the existence check before the timestamps file is removed is taken as true. Detection wrote that file, and nothing else removes it while the task runs.
- Service.MontageService.Download: path traversal and directory names are not modelled, because they reach only the 500 path.
