/**
 * The background task `process_task`: three collaborator calls in sequence,
 * with the job record updated one key at a time before, between and after
 * them. Its meaning is given as the trace of every record a status poll can
 * observe, one step per key assignment or collaborator call.
 */
module Pipeline {
  import opened Wrappers
  import opened Jobs

  /** What a collaborator call did: returned a value, or raised an exception with a message. */
  datatype Outcome<T> = Returned(value: T) | Raised(message: string)

  /** The three opaque routines the task calls, in the order it calls them. */
  datatype Collaborator = DetectKills | ExtractKillClips | GenerateFinalMontage {

    /** The stage the record shows while this collaborator runs. */
    function StageOf(): Stage
    {
      match this
      case DetectKills => DetectingKills
      case ExtractKillClips => ExtractingClips
      case GenerateFinalMontage => GeneratingMontage
    }

    /** The progress the record shows while this collaborator runs. */
    function Checkpoint(): nat
    {
      match this
      case DetectKills => 10
      case ExtractKillClips => 30
      case GenerateFinalMontage => 50
    }
  }

  /** The collaborators in calling order. */
  const CallOrder: seq<Collaborator> := [DetectKills, ExtractKillClips, GenerateFinalMontage]

  /** One thing the task does: assign one key of the record, call a collaborator, or delete the timestamps file. */
  datatype Action =
    | SetStage | SetProgress | SetStatus | SetEndTime | SetKillCount | SetClipCount | SetError
    | Call(who: Collaborator)
    | RemoveTimestamps

  /** An action and the record as readers see it right after. */
  datatype Step = Step(action: Action, after: JobRecord)

  /** The record after a trace that started from `r`. */
  function Final(r: JobRecord, t: seq<Step>): JobRecord
  {
    if t == [] then r else t[|t| - 1].after
  }

  /** The record while collaborator `c` runs: its stage and checkpoint progress. */
  function Checkpointed(r: JobRecord, c: Collaborator): JobRecord
  {
    r.(stage := c.StageOf(), progress := c.Checkpoint())
  }

  /** Entering the stage of `c`: 'stage' is assigned, then 'progress', then `c` is called. */
  function Begin(r: JobRecord, c: Collaborator): seq<Step>
  {
    [Step(SetStage, r.(stage := c.StageOf())),
     Step(SetProgress, Checkpointed(r, c)),
     Step(Call(c), Checkpointed(r, c))]
  }

  /** The exception handler: 'status' becomes failed, then 'error' takes the message. */
  function Fail(r: JobRecord, message: string): seq<Step>
  {
    [Step(SetStatus, r.(status := Failed)), Step(SetError, r.(status := Failed, error := Some(message)))]
  }

  /** The record once every completion key is written. */
  function Finished(r: JobRecord, kills: nat, clips: nat): JobRecord
  {
    r.(status := Completed, progress := 100, ended := true, killCount := Some(kills), clipCount := Some(clips))
  }

  /**
   * Completion: 'status', 'progress', 'end_time', 'kill_count', 'clip_count'
   * are assigned in that order, then the timestamps file is deleted.
   */
  function Complete(r: JobRecord, kills: nat, clips: nat): seq<Step>
  {
    var r1 := r.(status := Completed);
    var r2 := r1.(progress := 100);
    var r3 := r2.(ended := true);
    var r4 := r3.(killCount := Some(kills));
    [Step(SetStatus, r1), Step(SetProgress, r2), Step(SetEndTime, r3),
     Step(SetKillCount, r4), Step(SetClipCount, Finished(r, kills, clips)),
     Step(RemoveTimestamps, Finished(r, kills, clips))]
  }

  /**
   * Every record a run of the task publishes, starting from record `r0`.
   * `detect`, `extract` and `assemble` are what the three collaborators do
   * when called; `removal` is the exception, if any, that deleting the
   * timestamps file raises after the record already says completed.
   */
  function Trace(r0: JobRecord, detect: Outcome<seq<real>>, extract: Outcome<seq<string>>,
                 assemble: Outcome<()>, removal: Option<string>): (t: seq<Step>)
    ensures t != []
  {
    Begin(r0, DetectKills)
    + if detect.Raised? then Fail(Checkpointed(r0, DetectKills), detect.message)
      else Extraction(Checkpointed(r0, DetectKills), |detect.value|, extract, assemble, removal)
  }

  /** The rest of a run once detection returned `kills` kill times; `r` is the record at that point. */
  function Extraction(r: JobRecord, kills: nat, extract: Outcome<seq<string>>,
                      assemble: Outcome<()>, removal: Option<string>): seq<Step>
  {
    Begin(r, ExtractKillClips)
    + if extract.Raised? then Fail(Checkpointed(r, ExtractKillClips), extract.message)
      else Assembly(Checkpointed(r, ExtractKillClips), kills, |extract.value|, assemble, removal)
  }

  /** The rest of a run once extraction returned `clips` clips. */
  function Assembly(r: JobRecord, kills: nat, clips: nat, assemble: Outcome<()>, removal: Option<string>): seq<Step>
  {
    Begin(r, GenerateFinalMontage)
    + if assemble.Raised? then Fail(Checkpointed(r, GenerateFinalMontage), assemble.message)
      else Completion(Checkpointed(r, GenerateFinalMontage), kills, clips, removal)
  }

  /** The rest of a run once the montage was assembled. */
  function Completion(r: JobRecord, kills: nat, clips: nat, removal: Option<string>): seq<Step>
  {
    Complete(r, kills, clips) + if removal.Some? then Fail(Finished(r, kills, clips), removal.value) else []
  }

  /** How many collaborators a run calls: it stops at the first one that raises. */
  function CallsMade(detect: Outcome<seq<real>>, extract: Outcome<seq<string>>): nat
  {
    if detect.Raised? then 1 else if extract.Raised? then 2 else 3
  }

  /** The collaborators a trace calls, in calling order. */
  function Calls(t: seq<Step>): seq<Collaborator>
  {
    if t == [] then []
    else (if t[0].action.Call? then [t[0].action.who] else []) + Calls(t[1..])
  }

  lemma {:induction false} CallsAppend(s: seq<Step>, u: seq<Step>)
    ensures Calls(s + u) == Calls(s) + Calls(u)
    decreases |s|
  {
    if s != [] {
      assert (s + u)[0] == s[0];
      assert (s + u)[1..] == s[1..] + u;
      CallsAppend(s[1..], u);
    } else {
      assert s + u == u;
    }
  }

  /** A trace with no collaborator call calls nobody. */
  lemma {:induction false} CallsNone(t: seq<Step>)
    requires forall i :: 0 <= i < |t| ==> !t[i].action.Call?
    ensures Calls(t) == []
    decreases |t|
  {
    if t != [] {
      assert forall i :: 0 <= i < |t| - 1 ==> t[1..][i] == t[i + 1];
      CallsNone(t[1..]);
    }
  }

  /** Entering a stage calls exactly that stage's collaborator; failing and completing call none. */
  lemma CallsOfSegments(r: JobRecord, c: Collaborator, m: string, kills: nat, clips: nat)
    ensures Calls(Begin(r, c)) == [c]
    ensures Calls(Fail(r, m)) == []
    ensures Calls(Complete(r, kills, clips)) == []
  {
    var b := Begin(r, c);
    assert b == b[..2] + [b[2]];
    CallsAppend(b[..2], [b[2]]);
    CallsNone(b[..2]);
    assert [b[2]][1..] == [];
    CallsNone(Fail(r, m));
    CallsNone(Complete(r, kills, clips));
  }

  //////////////////////////////////////////////////////////////////////////
  // Chains: a relation between each record and the step that follows it

  /** `rel` holds between `a` and the first step of `t`, and between the record after each step and the next step. */
  ghost predicate Chain(rel: (JobRecord, Step) -> bool, a: JobRecord, t: seq<Step>)
    decreases |t|
  {
    t == [] || (rel(a, t[0]) && Chain(rel, t[0].after, t[1..]))
  }

  ghost predicate Transitive(rel: (JobRecord, JobRecord) -> bool)
  {
    forall x, y, z :: rel(x, y) && rel(y, z) ==> rel(x, z)
  }

  lemma {:induction false} ChainAppend(rel: (JobRecord, Step) -> bool, a: JobRecord, s: seq<Step>, u: seq<Step>)
    ensures Chain(rel, a, s + u) <==> Chain(rel, a, s) && Chain(rel, Final(a, s), u)
    decreases |s|
  {
    if s != [] {
      assert (s + u)[0] == s[0];
      assert (s + u)[1..] == s[1..] + u;
      ChainAppend(rel, s[0].after, s[1..], u);
      assert Final(s[0].after, s[1..]) == Final(a, s);
    } else {
      assert s + u == u;
    }
  }

  /** A chain read step by step: each step is related to the record before it. */
  lemma {:induction false} ChainNeighbours(rel: (JobRecord, Step) -> bool, a: JobRecord, t: seq<Step>)
    ensures Chain(rel, a, t) <==>
      (t != [] ==> rel(a, t[0])) && forall i :: 0 < i < |t| ==> rel(t[i - 1].after, t[i])
    decreases |t|
  {
    if t != [] {
      ChainNeighbours(rel, t[0].after, t[1..]);
      assert forall i :: 0 < i < |t| ==> t[i] == t[1..][i - 1];
    }
  }

  /** The record a step of `t` starts from, when `t` starts from `a`. */
  function Before(a: JobRecord, t: seq<Step>, i: nat): JobRecord
    requires i < |t|
  {
    if i == 0 then a else t[i - 1].after
  }

  /** Each step of a chain is related to the record it starts from. */
  lemma ChainEach(rel: (JobRecord, Step) -> bool, a: JobRecord, t: seq<Step>)
    requires Chain(rel, a, t)
    ensures forall i :: 0 <= i < |t| ==> rel(Before(a, t, i), t[i])
  {
    ChainNeighbours(rel, a, t);
  }

  /** A chain of steps whose records are related by a transitive `rr` relates every record to every later one. */
  lemma {:induction false} ChainAllPairs(rel: (JobRecord, Step) -> bool, rr: (JobRecord, JobRecord) -> bool,
                                         a: JobRecord, t: seq<Step>)
    requires Transitive(rr)
    requires forall x, st :: rel(x, st) ==> rr(x, st.after)
    requires Chain(rel, a, t)
    ensures forall i :: 0 <= i < |t| ==> rr(a, t[i].after)
    ensures forall i, j :: 0 <= i < j < |t| ==> rr(t[i].after, t[j].after)
    decreases |t|
  {
    if t != [] {
      ChainAllPairs(rel, rr, t[0].after, t[1..]);
      forall i | 0 <= i < |t| ensures rr(a, t[i].after) {
        if i > 0 { assert t[i] == t[1..][i - 1]; }
      }
      forall i, j | 0 <= i < j < |t| ensures rr(t[i].after, t[j].after) {
        assert t[j] == t[1..][j - 1];
        if i > 0 { assert t[i] == t[1..][i - 1]; }
      }
    }
  }

  /** Composes a chain over a whole run from chains over the segments it is made of. */
  lemma TraceChain(rel: (JobRecord, Step) -> bool, r0: JobRecord, detect: Outcome<seq<real>>,
                   extract: Outcome<seq<string>>, assemble: Outcome<()>, removal: Option<string>)
    requires Chain(rel, r0, Begin(r0, DetectKills))
    requires Chain(rel, Checkpointed(r0, DetectKills), Begin(Checkpointed(r0, DetectKills), ExtractKillClips))
    requires Chain(rel, Checkpointed(r0, ExtractKillClips),
                   Begin(Checkpointed(r0, ExtractKillClips), GenerateFinalMontage))
    requires forall c, m :: Chain(rel, Checkpointed(r0, c), Fail(Checkpointed(r0, c), m))
    requires forall k, n :: Chain(rel, Checkpointed(r0, GenerateFinalMontage),
                                  Complete(Checkpointed(r0, GenerateFinalMontage), k, n))
    requires removal.Some? ==> forall k, n ::
      Chain(rel, Finished(Checkpointed(r0, GenerateFinalMontage), k, n),
            Fail(Finished(Checkpointed(r0, GenerateFinalMontage), k, n), removal.value))
    ensures Chain(rel, r0, Trace(r0, detect, extract, assemble, removal))
  {
    var r1 := Checkpointed(r0, DetectKills);
    var r2 := Checkpointed(r1, ExtractKillClips);
    var r3 := Checkpointed(r2, GenerateFinalMontage);
    assert r2 == Checkpointed(r0, ExtractKillClips) && r3 == Checkpointed(r0, GenerateFinalMontage);
    assert Final(r0, Begin(r0, DetectKills)) == r1;
    assert Final(r1, Begin(r1, ExtractKillClips)) == r2;
    assert Final(r2, Begin(r2, GenerateFinalMontage)) == r3;
    var rest: seq<Step>;
    if detect.Raised? {
      rest := Fail(r1, detect.message);
    } else {
      var kills := |detect.value|;
      var rest1: seq<Step>;
      if extract.Raised? {
        rest1 := Fail(r2, extract.message);
      } else {
        var clips := |extract.value|;
        var rest2: seq<Step>;
        if assemble.Raised? {
          rest2 := Fail(r3, assemble.message);
        } else {
          assert Final(r3, Complete(r3, kills, clips)) == Finished(r3, kills, clips);
          rest2 := Completion(r3, kills, clips, removal);
          ChainAppend(rel, r3, Complete(r3, kills, clips),
                      if removal.Some? then Fail(Finished(r3, kills, clips), removal.value) else []);
        }
        rest1 := Assembly(r2, kills, clips, assemble, removal);
        ChainAppend(rel, r2, Begin(r2, GenerateFinalMontage), rest2);
      }
      rest := Extraction(r1, kills, extract, assemble, removal);
      ChainAppend(rel, r1, Begin(r1, ExtractKillClips), rest1);
    }
    ChainAppend(rel, r0, Begin(r0, DetectKills), rest);
  }

  //////////////////////////////////////////////////////////////////////////
  // What every run guarantees

  /** Progress never goes down and the stage never goes back. */
  ghost predicate Advances(a: JobRecord, b: JobRecord)
  {
    a.progress <= b.progress && a.stage.Rank() <= b.stage.Rank()
  }

  /**
   * What each step of a run keeps: progress and stage do not go back;
   * 'error' is present only on a failed record; 'end_time' and the counts
   * only on a record that is no longer processing; and a collaborator is
   * called only with the record at that collaborator's stage and checkpoint,
   * which the call itself leaves as it is.
   */
  ghost predicate Orderly(before: JobRecord, st: Step)
  {
    && Advances(before, st.after)
    && (st.after.error.Some? ==> st.after.status == Failed)
    && (st.after.ended || st.after.killCount.Some? || st.after.clipCount.Some? ==> st.after.status != Processing)
    && (st.action.Call? ==>
          st.after == before && st.after.stage == st.action.who.StageOf()
          && st.after.progress == st.action.who.Checkpoint())
  }

  /** Once the status is terminal it stays what it is. */
  ghost predicate Settled(before: JobRecord, st: Step)
  {
    before.status != Processing ==> st.after.status == before.status
  }

  /** Every step of a run from a fresh record is orderly. */
  lemma RunIsOrderly(r0: JobRecord, detect: Outcome<seq<real>>, extract: Outcome<seq<string>>,
                     assemble: Outcome<()>, removal: Option<string>)
    requires IsFresh(r0)
    ensures Chain((a, st) => Orderly(a, st), r0, Trace(r0, detect, extract, assemble, removal))
  {
    var rel := (a, st) => Orderly(a, st);
    var r1, r2, r3 := Checkpointed(r0, DetectKills), Checkpointed(r0, ExtractKillClips),
                      Checkpointed(r0, GenerateFinalMontage);
    ChainNeighbours(rel, r0, Begin(r0, DetectKills));
    ChainNeighbours(rel, r1, Begin(r1, ExtractKillClips));
    ChainNeighbours(rel, r2, Begin(r2, GenerateFinalMontage));
    forall c, m ensures Chain(rel, Checkpointed(r0, c), Fail(Checkpointed(r0, c), m)) {
      ChainNeighbours(rel, Checkpointed(r0, c), Fail(Checkpointed(r0, c), m));
    }
    forall k, n ensures Chain(rel, r3, Complete(r3, k, n)) {
      ChainNeighbours(rel, r3, Complete(r3, k, n));
    }
    forall k, n, m ensures Chain(rel, Finished(r3, k, n), Fail(Finished(r3, k, n), m)) {
      ChainNeighbours(rel, Finished(r3, k, n), Fail(Finished(r3, k, n), m));
    }
    TraceChain(rel, r0, detect, extract, assemble, removal);
  }

  /**
   * Monotone progress: every record a poll can see during a run has progress
   * at least that of every earlier one, and a stage no earlier.
   */
  lemma ProgressNeverDecreases(r0: JobRecord, detect: Outcome<seq<real>>, extract: Outcome<seq<string>>,
                               assemble: Outcome<()>, removal: Option<string>)
    requires IsFresh(r0)
    ensures var t := Trace(r0, detect, extract, assemble, removal);
      forall i, j :: 0 <= i < j < |t| ==>
        t[i].after.progress <= t[j].after.progress && t[i].after.stage.Rank() <= t[j].after.stage.Rank()
  {
    RunIsOrderly(r0, detect, extract, assemble, removal);
    ChainAllPairs((a, st) => Orderly(a, st), (a, b) => Advances(a, b), r0,
                  Trace(r0, detect, extract, assemble, removal));
  }

  /** Every progress value a run shows is 0 or one of the checkpoints 10, 30, 50, 100. */
  lemma ProgressIsACheckpoint(r0: JobRecord, detect: Outcome<seq<real>>, extract: Outcome<seq<string>>,
                              assemble: Outcome<()>, removal: Option<string>)
    requires IsFresh(r0)
    ensures var t := Trace(r0, detect, extract, assemble, removal);
      forall i :: 0 <= i < |t| ==> t[i].after.progress in {0, 10, 30, 50, 100}
  {
  }

  /**
   * Each collaborator is called only while the record shows its stage and
   * checkpoint, and an 'error' key, an end time or a count never appears on a
   * record whose status is not the one it belongs to.
   */
  lemma RecordsStayConsistent(r0: JobRecord, detect: Outcome<seq<real>>, extract: Outcome<seq<string>>,
                              assemble: Outcome<()>, removal: Option<string>)
    requires IsFresh(r0)
    ensures var t := Trace(r0, detect, extract, assemble, removal);
      forall i :: 0 <= i < |t| ==>
        && (t[i].action.Call? ==>
              t[i].after.stage == t[i].action.who.StageOf() && t[i].after.progress == t[i].action.who.Checkpoint())
        && (t[i].after.error.Some? ==> t[i].after.status == Failed)
        && (t[i].after.ended || t[i].after.killCount.Some? || t[i].after.clipCount.Some? ==>
              t[i].after.status != Processing)
  {
    RunIsOrderly(r0, detect, extract, assemble, removal);
    ChainEach((a, st) => Orderly(a, st), r0, Trace(r0, detect, extract, assemble, removal));
  }

  /**
   * The collaborators run in pipeline order, each only after the previous
   * one returned: the run calls exactly the first `CallsMade` of them.
   */
  lemma CollaboratorsRunInOrder(r0: JobRecord, detect: Outcome<seq<real>>, extract: Outcome<seq<string>>,
                                assemble: Outcome<()>, removal: Option<string>)
    ensures Calls(Trace(r0, detect, extract, assemble, removal)) == CallOrder[..CallsMade(detect, extract)]
  {
    var r1 := Checkpointed(r0, DetectKills);
    var r2 := Checkpointed(r1, ExtractKillClips);
    var r3 := Checkpointed(r2, GenerateFinalMontage);
    var kills := if detect.Returned? then |detect.value| else 0;
    var clips := if extract.Returned? then |extract.value| else 0;
    forall r, c ensures Calls(Begin(r, c)) == [c] {
      CallsOfSegments(r, c, "", kills, clips);
    }
    forall r, m ensures Calls(Fail(r, m)) == [] {
      CallsOfSegments(r, DetectKills, m, kills, clips);
    }
    var rest: seq<Step>;
    if detect.Raised? {
      rest := Fail(r1, detect.message);
    } else {
      var rest1: seq<Step>;
      if extract.Raised? {
        rest1 := Fail(r2, extract.message);
      } else {
        var rest2: seq<Step>;
        if assemble.Raised? {
          rest2 := Fail(r3, assemble.message);
        } else {
          CallsOfSegments(r3, GenerateFinalMontage, "", kills, clips);
          rest2 := Completion(r3, kills, clips, removal);
          CallsAppend(Complete(r3, kills, clips),
                      if removal.Some? then Fail(Finished(r3, kills, clips), removal.value) else []);
        }
        rest1 := Assembly(r2, kills, clips, assemble, removal);
        CallsAppend(Begin(r2, GenerateFinalMontage), rest2);
        assert Calls(rest1) == [GenerateFinalMontage];
      }
      rest := Extraction(r1, kills, extract, assemble, removal);
      CallsAppend(Begin(r1, ExtractKillClips), rest1);
    }
    CallsAppend(Begin(r0, DetectKills), rest);
  }

  /**
   * Failure short-circuit: when a collaborator raises, the run ends with the
   * record failed, 'error' holding that exception's message, stage and
   * progress left at the failing collaborator's checkpoint, and every other
   * key (end time, counts) as the run found it.
   */
  lemma CollaboratorFailureIsFinal(r0: JobRecord, detect: Outcome<seq<real>>, extract: Outcome<seq<string>>,
                                   assemble: Outcome<()>, removal: Option<string>)
    ensures var last := Final(r0, Trace(r0, detect, extract, assemble, removal));
      && (detect.Raised? ==>
            last == r0.(stage := DetectingKills, progress := 10, status := Failed, error := Some(detect.message)))
      && (detect.Returned? && extract.Raised? ==>
            last == r0.(stage := ExtractingClips, progress := 30, status := Failed, error := Some(extract.message)))
      && (detect.Returned? && extract.Returned? && assemble.Raised? ==>
            last == r0.(stage := GeneratingMontage, progress := 50, status := Failed, error := Some(assemble.message)))
  {
  }

  /**
   * Success: when every collaborator returns and the timestamps file goes
   * away quietly, the run ends completed at progress 100 with its end time
   * set and the counts of detected kill times and extracted clips.
   */
  lemma SuccessfulRunCompletes(r0: JobRecord, kills: seq<real>, clips: seq<string>)
    ensures var last := Final(r0, Trace(r0, Returned(kills), Returned(clips), Returned(()), None));
      && last.status == Completed && last.progress == 100 && last.stage == GeneratingMontage && last.ended
      && last.killCount == Some(|kills|) && last.clipCount == Some(|clips|)
      && last.error == r0.error && last.outputFilename == r0.outputFilename
  {
  }

  /**
   * When deleting the timestamps file raises, the exception handler runs
   * after the record already said completed: a poll may see completed, and
   * the run still ends failed, with progress 100 and both counts present.
   */
  lemma RemovalFaultOverwritesCompleted(r0: JobRecord, kills: seq<real>, clips: seq<string>, message: string)
    ensures var t := Trace(r0, Returned(kills), Returned(clips), Returned(()), Some(message));
      && (exists i :: 0 <= i < |t| - 1 && t[i].after.status == Completed)
      && Final(r0, t) == Finished(Checkpointed(r0, GenerateFinalMontage), |kills|, |clips|)
                           .(status := Failed, error := Some(message))
  {
    var t := Trace(r0, Returned(kills), Returned(clips), Returned(()), Some(message));
    assert t[|t| - 3].after.status == Completed;
  }

  /**
   * Terminal states are final as long as deleting the timestamps file does
   * not raise: once a poll sees completed or failed, every later poll sees the
   * same status.
   */
  lemma TerminalStatusIsStable(r0: JobRecord, detect: Outcome<seq<real>>, extract: Outcome<seq<string>>,
                               assemble: Outcome<()>)
    requires r0.status == Processing
    ensures var t := Trace(r0, detect, extract, assemble, None);
      forall i, j :: 0 <= i < j < |t| && t[i].after.status != Processing ==> t[j].after.status == t[i].after.status
  {
    var rel := (a, st) => Settled(a, st);
    var r1, r2, r3 := Checkpointed(r0, DetectKills), Checkpointed(r0, ExtractKillClips),
                      Checkpointed(r0, GenerateFinalMontage);
    ChainNeighbours(rel, r0, Begin(r0, DetectKills));
    ChainNeighbours(rel, r1, Begin(r1, ExtractKillClips));
    ChainNeighbours(rel, r2, Begin(r2, GenerateFinalMontage));
    forall c, m ensures Chain(rel, Checkpointed(r0, c), Fail(Checkpointed(r0, c), m)) {
      ChainNeighbours(rel, Checkpointed(r0, c), Fail(Checkpointed(r0, c), m));
    }
    forall k, n ensures Chain(rel, r3, Complete(r3, k, n)) {
      ChainNeighbours(rel, r3, Complete(r3, k, n));
    }
    TraceChain(rel, r0, detect, extract, assemble, None);
    var rr := (a: JobRecord, b: JobRecord) => a.status != Processing ==> b.status == a.status;
    ChainAllPairs(rel, rr, r0, Trace(r0, detect, extract, assemble, None));
  }
}
