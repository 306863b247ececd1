/**
 * The service façade: the upload, process, status, download and cleanup
 * endpoints, over the job registry and the three storage areas.
 */
module Service {
  import opened Wrappers
  import opened Validators
  import opened Jobs
  import opened Pipeline

  /** What an endpoint answers: a value, or an error body with status 400 or 404. */
  datatype Reply<T> = Ok(value: T) | BadRequest(error: string) | NotFound(error: string)

  /**
   * `os.path.exists` for a name joined to a folder's path: the empty name
   * denotes the folder itself, which exists.
   */
  predicate Present(folder: set<string>, name: string)
  {
    name == "" || name in folder
  }

  /**
   * The running service. `jobs` is the registry `processing_status`;
   * `uploads`, `clips` and `outputs` are the names of the files in the
   * 'uploads', 'kill_clips' and 'output' folders. `secureFilename` stands
   * for werkzeug's `secure_filename`, whose rules are not modelled.
   */
  class MontageService {
    const secureFilename: string -> string
    var jobs: map<string, JobRecord>
    var uploads: set<string>
    var clips: set<string>
    var outputs: set<string>

    /** Start-up: the folders keep whatever files they already hold; the registry is empty. */
    constructor (secureFilename: string -> string, uploads: set<string>, clips: set<string>, outputs: set<string>)
      ensures this.secureFilename == secureFilename && jobs == map[]
      ensures this.uploads == uploads && this.clips == clips && this.outputs == outputs
    {
      this.secureFilename := secureFilename;
      jobs := map[];
      this.uploads := uploads;
      this.clips := clips;
      this.outputs := outputs;
    }

    /**
     * `upload_video`: `file` is the file name of the multipart part 'video',
     * if there is one. An accepted file first empties the clips area, then is
     * saved under its sanitised name.
     */
    method UploadVideo(file: Option<string>) returns (r: Reply<string>)
      modifies this
      ensures file == None ==> r == BadRequest("No video file provided") && unchanged(this)
      ensures file == Some("") ==> r == BadRequest("No selected file") && unchanged(this)
      ensures file.Some? && file.value != "" && !AllowedVideoFile(file.value) ==>
        r == BadRequest("Invalid file type. Allowed types: MP4, MOV, AVI") && unchanged(this)
      ensures file.Some? && AllowedVideoFile(file.value) ==>
        && r == Ok(secureFilename(file.value))
        && clips == {} && uploads == old(uploads) + {secureFilename(file.value)}
        && outputs == old(outputs) && jobs == old(jobs)
    {
      if file.None? {
        return BadRequest("No video file provided");
      }
      if file.value == "" {
        return BadRequest("No selected file");
      }
      if AllowedVideoFile(file.value) {
        clips := {};
        var filename := secureFilename(file.value);
        uploads := uploads + {filename};
        return Ok(filename);
      }
      return BadRequest("Invalid file type. Allowed types: MP4, MOV, AVI");
    }

    /** `upload_audio`: as `UploadVideo`, for the part 'audio', and without touching the clips area. */
    method UploadAudio(file: Option<string>) returns (r: Reply<string>)
      modifies this
      ensures file == None ==> r == BadRequest("No audio file provided") && unchanged(this)
      ensures file == Some("") ==> r == BadRequest("No selected file") && unchanged(this)
      ensures file.Some? && file.value != "" && !AllowedAudioFile(file.value) ==>
        r == BadRequest("Invalid file type. Allowed types: MP3, WAV") && unchanged(this)
      ensures file.Some? && AllowedAudioFile(file.value) ==>
        && r == Ok(secureFilename(file.value))
        && uploads == old(uploads) + {secureFilename(file.value)}
        && clips == old(clips) && outputs == old(outputs) && jobs == old(jobs)
    {
      if file.None? {
        return BadRequest("No audio file provided");
      }
      if file.value == "" {
        return BadRequest("No selected file");
      }
      if AllowedAudioFile(file.value) {
        var filename := secureFilename(file.value);
        uploads := uploads + {filename};
        return Ok(filename);
      }
      return BadRequest("Invalid file type. Allowed types: MP3, WAV");
    }

    /**
     * `process_video` up to starting the background task: `body` is the JSON
     * object of the request, or `None` when the body is JSON `null`, and
     * `freshId` the new job id. Both
     * referenced files must be present in the uploads area (a name that
     * sanitises to the empty string names the folder itself and passes);
     * only then is a record published, under the new id, and the id returned.
     */
    method Process(body: Option<map<string, string>>, freshId: string) returns (r: Reply<string>)
      requires freshId !in jobs
      modifies this
      ensures uploads == old(uploads) && clips == old(clips) && outputs == old(outputs)
      ensures body.None? || "video_filename" !in body.value || "audio_filename" !in body.value ==>
        r == BadRequest("Video and audio filenames are required") && jobs == old(jobs)
      ensures body.Some? && "video_filename" in body.value && "audio_filename" in body.value ==>
        var video := secureFilename(body.value["video_filename"]);
        var audio := secureFilename(body.value["audio_filename"]);
        && (!Present(uploads, video) ==> r == NotFound("Video file not found") && jobs == old(jobs))
        && (Present(uploads, video) && !Present(uploads, audio) ==>
              r == NotFound("Audio file not found") && jobs == old(jobs))
        && (Present(uploads, video) && Present(uploads, audio) ==>
              r == Ok(freshId) && jobs == old(jobs)[freshId := NewJob(freshId)])
    {
      if body.None? || "video_filename" !in body.value || "audio_filename" !in body.value {
        return BadRequest("Video and audio filenames are required");
      }
      var video := secureFilename(body.value["video_filename"]);
      var audio := secureFilename(body.value["audio_filename"]);
      if !Present(uploads, video) {
        return NotFound("Video file not found");
      }
      if !Present(uploads, audio) {
        return NotFound("Audio file not found");
      }
      jobs := jobs[freshId := NewJob(freshId)];
      return Ok(freshId);
    }

    /** The exception handler of the task: status failed, then the message under 'error'. */
    method MarkFailed(id: string, message: string) returns (ghost steps: seq<Step>)
      requires id in jobs
      modifies this
      ensures steps == Fail(old(jobs[id]), message)
      ensures jobs == old(jobs)[id := Final(old(jobs[id]), steps)]
      ensures uploads == old(uploads) && clips == old(clips) && outputs == old(outputs)
    {
      jobs := jobs[id := jobs[id].(status := Failed)];
      steps := [Step(SetStatus, jobs[id])];
      jobs := jobs[id := jobs[id].(error := Some(message))];
      steps := steps + [Step(SetError, jobs[id])];
    }

    /** Sets stage and progress for collaborator `c`, then calls it. */
    method Enter(id: string, c: Collaborator) returns (ghost steps: seq<Step>)
      requires id in jobs
      modifies this
      ensures steps == Begin(old(jobs[id]), c)
      ensures jobs == old(jobs)[id := Final(old(jobs[id]), steps)]
      ensures uploads == old(uploads) && clips == old(clips) && outputs == old(outputs)
    {
      jobs := jobs[id := jobs[id].(stage := c.StageOf())];
      steps := [Step(SetStage, jobs[id])];
      jobs := jobs[id := jobs[id].(progress := c.Checkpoint())];
      steps := steps + [Step(SetProgress, jobs[id]), Step(Call(c), jobs[id])];
    }

    /** The end of a successful run: the completion keys in order, then the deletion of the timestamps file. */
    method MarkCompleted(id: string, kills: nat, clipCount: nat) returns (ghost steps: seq<Step>)
      requires id in jobs
      modifies this
      ensures steps == Complete(old(jobs[id]), kills, clipCount)
      ensures jobs == old(jobs)[id := Finished(old(jobs[id]), kills, clipCount)]
      ensures uploads == old(uploads) && clips == old(clips) && outputs == old(outputs)
    {
      jobs := jobs[id := jobs[id].(status := Completed)];
      steps := [Step(SetStatus, jobs[id])];
      jobs := jobs[id := jobs[id].(progress := 100)];
      steps := steps + [Step(SetProgress, jobs[id])];
      jobs := jobs[id := jobs[id].(ended := true)];
      steps := steps + [Step(SetEndTime, jobs[id])];
      jobs := jobs[id := jobs[id].(killCount := Some(kills))];
      steps := steps + [Step(SetKillCount, jobs[id])];
      jobs := jobs[id := jobs[id].(clipCount := Some(clipCount))];
      steps := steps + [Step(SetClipCount, jobs[id])];
      steps := steps + [Step(RemoveTimestamps, jobs[id])];
    }

    /**
     * The end of a successful run, where the deletion of the timestamps file
     * raises if `removal` says so, and the exception handler then marks the
     * completed job failed.
     */
    method Finish(id: string, kills: nat, clipCount: nat, removal: Option<string>) returns (ghost steps: seq<Step>)
      requires id in jobs
      modifies this
      ensures steps == Completion(old(jobs[id]), kills, clipCount, removal)
      ensures jobs == old(jobs)[id := Final(old(jobs[id]), steps)]
      ensures uploads == (if removal.Some? then old(uploads) else old(uploads) - {TimestampsFile(id)})
      ensures clips == old(clips) && outputs == old(outputs)
    {
      ghost var r := jobs[id];
      steps := MarkCompleted(id, kills, clipCount);
      if removal.Some? {
        var failing := MarkFailed(id, removal.value);
        assert Final(r, steps + failing) == failing[1].after;
        steps := steps + failing;
      } else {
        // the timestamps file was written by detection, so it exists here
        uploads := uploads - {TimestampsFile(id)};
        assert steps + [] == steps;
        assert Final(r, steps) == Finished(r, kills, clipCount);
      }
    }

    /** Step 3 of the task: montage assembly, which writes the montage into the output area. */
    method RunAssembly(id: string, kills: nat, clipCount: nat, assemble: Outcome<()>, removal: Option<string>)
      returns (ghost steps: seq<Step>)
      requires id in jobs
      modifies this
      ensures steps == Assembly(old(jobs[id]), kills, clipCount, assemble, removal)
      ensures jobs == old(jobs)[id := Final(old(jobs[id]), steps)]
      ensures clips == old(clips)
      ensures assemble.Raised? ==> uploads == old(uploads) && outputs == old(outputs)
      ensures assemble.Returned? ==>
        && uploads == (if removal.Some? then old(uploads) else old(uploads) - {TimestampsFile(id)})
        && outputs == old(outputs) + {OutputFilename(id)}
    {
      ghost var r := jobs[id];
      steps := Enter(id, GenerateFinalMontage);
      ghost var rest;
      if assemble.Raised? {
        rest := MarkFailed(id, assemble.message);
      } else {
        outputs := outputs + {OutputFilename(id)};
        rest := Finish(id, kills, clipCount, removal);
      }
      assert Final(r, steps + rest) == Final(Final(r, steps), rest) by {
        assert rest != [];
      }
      steps := steps + rest;
    }

    /** Step 2 of the task: clip extraction, which writes the clips it returns into the clips area. */
    method RunExtraction(id: string, kills: nat, extract: Outcome<seq<string>>, assemble: Outcome<()>,
                         removal: Option<string>) returns (ghost steps: seq<Step>)
      requires id in jobs
      modifies this
      ensures steps == Extraction(old(jobs[id]), kills, extract, assemble, removal)
      ensures jobs == old(jobs)[id := Final(old(jobs[id]), steps)]
      ensures extract.Raised? ==> uploads == old(uploads) && clips == old(clips) && outputs == old(outputs)
      ensures extract.Returned? && assemble.Raised? ==>
        uploads == old(uploads) && clips == old(clips) + (set c | c in extract.value) && outputs == old(outputs)
      ensures extract.Returned? && assemble.Returned? ==>
        && uploads == (if removal.Some? then old(uploads) else old(uploads) - {TimestampsFile(id)})
        && clips == old(clips) + (set c | c in extract.value) && outputs == old(outputs) + {OutputFilename(id)}
    {
      ghost var r := jobs[id];
      steps := Enter(id, ExtractKillClips);
      ghost var rest;
      if extract.Raised? {
        rest := MarkFailed(id, extract.message);
      } else {
        clips := clips + set c | c in extract.value;
        rest := RunAssembly(id, kills, |extract.value|, assemble, removal);
      }
      assert Final(r, steps + rest) == Final(Final(r, steps), rest) by {
        assert rest != [] by {
          if extract.Returned? { assert Begin(Checkpointed(r, ExtractKillClips), GenerateFinalMontage) != []; }
        }
      }
      steps := steps + rest;
    }

    /**
     * `process_task` for job `id`, run to its end. The collaborators'
     * behaviour is given: `detect` (the kill times), `extract` (the clip
     * names), `assemble`, and `removal`, the exception deleting the
     * timestamps file raises, if any. On return, the record of `id` is the
     * last of the trace `Trace` describes, and the storage areas hold what
     * the successful collaborators wrote: the timestamps file, the clips and
     * the montage. A job id not in the registry makes the task's first
     * assignment raise, and so does its exception handler: nothing changes.
     */
    method RunPipeline(id: string, detect: Outcome<seq<real>>, extract: Outcome<seq<string>>,
                       assemble: Outcome<()>, removal: Option<string>) returns (ghost trace: seq<Step>)
      modifies this
      ensures id !in old(jobs) ==> trace == [] && unchanged(this)
      ensures id in old(jobs) ==>
        && trace == Trace(old(jobs[id]), detect, extract, assemble, removal)
        && jobs == old(jobs)[id := Final(old(jobs[id]), trace)]
      ensures id in old(jobs) && detect.Raised? ==>
        uploads == old(uploads) && clips == old(clips) && outputs == old(outputs)
      ensures id in old(jobs) && detect.Returned? && extract.Raised? ==>
        uploads == old(uploads) + {TimestampsFile(id)} && clips == old(clips) && outputs == old(outputs)
      ensures id in old(jobs) && detect.Returned? && extract.Returned? && assemble.Raised? ==>
        && uploads == old(uploads) + {TimestampsFile(id)}
        && clips == old(clips) + (set c | c in extract.value) && outputs == old(outputs)
      ensures id in old(jobs) && detect.Returned? && extract.Returned? && assemble.Returned? ==>
        && uploads == (if removal.Some? then old(uploads) + {TimestampsFile(id)}
                       else old(uploads) - {TimestampsFile(id)})
        && clips == old(clips) + (set c | c in extract.value) && outputs == old(outputs) + {OutputFilename(id)}
    {
      if id !in jobs {
        return [];
      }
      ghost var r0 := jobs[id];
      // 1. kill detection, which writes the timestamps file
      trace := Enter(id, DetectKills);
      ghost var rest;
      if detect.Raised? {
        rest := MarkFailed(id, detect.message);
      } else {
        uploads := uploads + {TimestampsFile(id)};
        rest := RunExtraction(id, |detect.value|, extract, assemble, removal);
      }
      assert Final(r0, trace + rest) == Final(Final(r0, trace), rest) by {
        assert rest != [] by {
          if detect.Returned? { assert Begin(Checkpointed(r0, DetectKills), ExtractKillClips) != []; }
        }
      }
      trace := trace + rest;
    }

    /** `get_status`: the record of `id`, or 404; the registry is only read. */
    method GetStatus(id: string) returns (r: Reply<JobRecord>)
      ensures id in jobs ==> r == Ok(jobs[id])
      ensures id !in jobs ==> r == NotFound("Job not found")
    {
      if id !in jobs {
        return NotFound("Job not found");
      }
      return Ok(jobs[id]);
    }

    /** `download_video`, without the byte stream: found exactly when the name is in the output area. */
    method Download(filename: string) returns (r: Reply<string>)
      ensures filename in outputs ==> r == Ok(filename)
      ensures filename !in outputs ==> r == NotFound("File not found")
    {
      if filename !in outputs {
        return NotFound("File not found");
      }
      return Ok(filename);
    }

    /**
     * `cleanup`: deletes every file of the uploads and output areas one by
     * one, recreates the clips area empty, and clears the registry.
     */
    method Cleanup() returns (r: Reply<string>)
      modifies this
      ensures uploads == {} && clips == {} && outputs == {} && jobs == map[]
      ensures r == Ok("Cleanup completed successfully")
    {
      var listing := uploads;
      while listing != {}
        invariant uploads == listing
        decreases listing
      {
        var file :| file in listing;
        uploads := uploads - {file};
        listing := listing - {file};
      }
      clips := {};
      listing := outputs;
      while listing != {}
        invariant uploads == {} && clips == {} && outputs == listing
        decreases listing
      {
        var file :| file in listing;
        outputs := outputs - {file};
        listing := listing - {file};
      }
      jobs := map[];
      return Ok("Cleanup completed successfully");
    }
  }

  /**
   * The start of a session against a fresh service: upload a video and a
   * track, then start a job on them under `id`.
   */
  method StartSession(secure: string -> string, id: string) returns (service: MontageService, started: Reply<string>)
    requires secure("gameplay.mp4") == "gameplay.mp4" && secure("track.mp3") == "track.mp3"
    ensures fresh(service)
    ensures started == Ok(id) && service.jobs == map[id := NewJob(id)]
  {
    service := new MontageService(secure, {}, {}, {});
    VideoExamples("gameplay");
    assert "gameplay" + ".mp4" == "gameplay.mp4";
    var video := service.UploadVideo(Some("gameplay.mp4"));
    AudioExamples("track");
    assert "track" + ".mp3" == "track.mp3";
    var audio := service.UploadAudio(Some("track.mp3"));
    var body := map["video_filename" := "gameplay.mp4", "audio_filename" := "track.mp3"];
    started := service.Process(Some(body), id);
  }

  /**
   * A whole session: start a job as `StartSession` does, run it with every
   * collaborator returning, poll it, download the montage, clean up and
   * poll again.
   */
  method Session(secure: string -> string, id: string, kills: seq<real>, clipNames: seq<string>)
    returns (status: Reply<JobRecord>, download: Reply<string>, after: Reply<JobRecord>)
    requires secure("gameplay.mp4") == "gameplay.mp4" && secure("track.mp3") == "track.mp3"
    ensures status.Ok? && status.value.status == Completed && status.value.progress == 100
    ensures status.value.killCount == Some(|kills|) && status.value.clipCount == Some(|clipNames|)
    ensures status.value.outputFilename == OutputFilename(id)
    ensures download == Ok(OutputFilename(id))
    ensures after == NotFound("Job not found")
  {
    var service, started := StartSession(secure, id);
    ghost var trace := service.RunPipeline(id, Returned(kills), Returned(clipNames), Returned(()), None);
    SuccessfulRunCompletes(NewJob(id), kills, clipNames);
    status := service.GetStatus(id);
    download := service.Download(OutputFilename(id));
    var cleaned := service.Cleanup();
    after := service.GetStatus(id);
  }
}
