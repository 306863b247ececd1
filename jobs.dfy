/**
 * One entry of the job registry (`processing_status`): the record the
 * status endpoint returns for a job id.
 */
module Jobs {
  import opened Wrappers

  /** The record's 'status' key. */
  datatype Status = Processing | Completed | Failed {

    /** The string stored under 'status'. */
    function Name(): string
    {
      match this
      case Processing => "processing"
      case Completed => "completed"
      case Failed => "failed"
    }
  }

  /** The record's 'stage' key: the pipeline step most recently entered. */
  datatype Stage = DetectingKills | ExtractingClips | GeneratingMontage {

    /** The string stored under 'stage'. */
    function Name(): string
    {
      match this
      case DetectingKills => "detecting_kills"
      case ExtractingClips => "extracting_clips"
      case GeneratingMontage => "generating_montage"
    }

    /** Position of the stage in the pipeline, counting from 0. */
    function Rank(): nat
    {
      match this
      case DetectingKills => 0
      case ExtractingClips => 1
      case GeneratingMontage => 2
    }
  }

  /**
   * A job record. A key the source has not yet written is `None` (or `false`
   * for 'end_time', whose clock value is not modelled); 'start_time' is always
   * present and carries no logic, so it has no field here.
   */
  datatype JobRecord = JobRecord(
    status: Status,
    progress: nat,
    stage: Stage,
    outputFilename: string,
    ended: bool,
    error: Option<string>,
    killCount: Option<nat>,
    clipCount: Option<nat>)

  /** Name of the montage a job writes into the output area. */
  function OutputFilename(id: string): string
  {
    "montage_" + id + ".mp4"
  }

  /** Name of the transient kill-timestamps file a job keeps in the uploads area. */
  function TimestampsFile(id: string): string
  {
    "kill_timestamps_" + id + ".txt"
  }

  /** The record a process request publishes for a new job. */
  function NewJob(id: string): (r: JobRecord)
    ensures IsFresh(r) && r.outputFilename == OutputFilename(id)
  {
    JobRecord(Processing, 0, DetectingKills, OutputFilename(id), false, None, None, None)
  }

  /** A record as `NewJob` publishes it, whatever its output name. */
  predicate IsFresh(r: JobRecord)
  {
    && r.status == Processing && r.progress == 0 && r.stage == DetectingKills
    && !r.ended && r.error == None && r.killCount == None && r.clipCount == None
  }

  /** As the status endpoint shows it, a new job is 'processing' at stage 'detecting_kills'. */
  lemma NewJobNames(id: string)
    ensures NewJob(id).status.Name() == "processing" && NewJob(id).stage.Name() == "detecting_kills"
  {
  }

  /** Different jobs reserve different montage names. */
  lemma OutputFilenameInjective(a: string, b: string)
    requires OutputFilename(a) == OutputFilename(b)
    ensures a == b
  {
    assert a == OutputFilename(a)[8..|OutputFilename(a)| - 4];
    assert b == OutputFilename(b)[8..|OutputFilename(b)| - 4];
  }
}
