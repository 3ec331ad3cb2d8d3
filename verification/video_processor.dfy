/** The processing hook: a run steps the hook's two pieces of state through
    four fixed progress values and then hands back three mock results. The
    timed waits between the steps only pace the display and are left out; a
    run is a straight sequence of state updates. */
module VideoProcessor {
  import opened Wrappers
  import opened Decimal
  import opened Types
  import opened Utils

  // ---------------------------------------------------------------------
  // Fixed values of the hook

  const InitialProgress: UploadProgress := UploadProgress(0, Uploading, "Preparando...")

  /** The progress values a run sets, in order. */
  const RunSteps: seq<UploadProgress> := [
    UploadProgress(20, Uploading, "Fazendo upload do vídeo..."),
    UploadProgress(50, Processing, "Analisando conteúdo do vídeo..."),
    UploadProgress(80, Generating, "Gerando shorts com IA..."),
    UploadProgress(100, Complete, "Shorts gerados com sucesso!")
  ]

  const ProcessingFailedMessage: string := "Falha no processamento do vídeo"

  /** The single error a run raises, whatever went wrong inside it. */
  datatype ProcessingError = ProcessingFailed(message: string)

  /** Where a run breaks, if it does. `FailAfter(k)` raises after the first
      `k` progress updates; from `k = 4` on the failure comes while the
      results are being generated. The source's steps cannot fail on their
      own, so the failure is a parameter of the model. */
  datatype Fault = NoFault | FailAfter(updates: nat)

  /** The number of progress updates a run gets through. */
  function CompletedSteps(fault: Fault): (n: nat)
    ensures n <= |RunSteps|
    ensures fault.NoFault? ==> n == |RunSteps|
    ensures fault.FailAfter? && fault.updates <= |RunSteps| ==> n == fault.updates
    ensures fault.FailAfter? && fault.updates >= |RunSteps| ==> n == |RunSteps|
  {
    match fault
    case NoFault => |RunSteps|
    case FailAfter(k) => if k < |RunSteps| then k else |RunSteps|
  }

  /** True when the fault strikes at the point reached after `k` updates. */
  predicate FailsAt(fault: Fault, k: nat) {
    fault.FailAfter? && fault.updates <= k
  }

  // ---------------------------------------------------------------------
  // The hook's state as a value, and the setter calls that change it

  datatype HookState = HookState(isProcessing: bool, progress: UploadProgress)

  const InitialState: HookState := HookState(false, InitialProgress)

  /** One call of one of the hook's two state setters. */
  datatype Update = IsProcessingUpdate(flag: bool) | ProgressUpdate(value: UploadProgress)

  /** The state after one setter call: it replaces its own field only. */
  function Apply(s: HookState, u: Update): (t: HookState)
    ensures u.IsProcessingUpdate? ==> t.isProcessing == u.flag && t.progress == s.progress
    ensures u.ProgressUpdate? ==> t.progress == u.value && t.isProcessing == s.isProcessing
  {
    match u
    case IsProcessingUpdate(flag) => s.(isProcessing := flag)
    case ProgressUpdate(value) => s.(progress := value)
  }

  /** The state after a sequence of setter calls, oldest first. */
  function Replay(s: HookState, us: seq<Update>): HookState
  {
    if us == [] then s else Apply(Replay(s, us[..|us| - 1]), us[|us| - 1])
  }

  /** Replaying two sequences one after the other is replaying their
      concatenation. */
  lemma {:induction false} ReplayConcat(s: HookState, a: seq<Update>, b: seq<Update>)
    ensures Replay(s, a + b) == Replay(Replay(s, a), b)
  {
    if b != [] {
      var b' := b[..|b| - 1];
      assert (a + b)[..|a + b| - 1] == a + b';
      ReplayConcat(s, a, b');
    } else {
      assert a + b == a;
    }
  }

  /** The progress updates of the first `n` steps. */
  function ProgressUpdates(n: nat): (us: seq<Update>)
    requires n <= |RunSteps|
  {
    seq(n, i requires 0 <= i < n => ProgressUpdate(RunSteps[i]))
  }

  /** The setter calls a run makes: raise the flag, the progress updates it
      gets through, and clear the flag on the way out, whether the run
      succeeded or failed. */
  function RunUpdates(fault: Fault): (us: seq<Update>)
  {
    [IsProcessingUpdate(true)] + ProgressUpdates(CompletedSteps(fault)) + [IsProcessingUpdate(false)]
  }

  /** A run's setter calls in order: the flag goes up first and down last
      (on success and on failure alike), and in between come the fixed steps
      in their order, as many as the run got through; a failure after `k`
      updates with `k < 4` cuts the steps off at `k`. */
  lemma {:induction false} RunUpdatesInOrder(fault: Fault)
    ensures var run, n := RunUpdates(fault), CompletedSteps(fault);
      |run| == n + 2 &&
      run[0] == IsProcessingUpdate(true) &&
      run[|run| - 1] == IsProcessingUpdate(false) &&
      (forall i :: 1 <= i <= n ==> run[i] == ProgressUpdate(RunSteps[i - 1])) &&
      (fault.FailAfter? && fault.updates < |RunSteps| ==> n == fault.updates)
  {
  }

  /** The setter calls of `reset`. */
  const ResetUpdates: seq<Update> := [IsProcessingUpdate(false), ProgressUpdate(InitialProgress)]

  // ---------------------------------------------------------------------
  // What a run and a reset do to the state

  /** Whatever the state before, a run leaves the flag cleared, and the
      progress is the last value the run set (unchanged if it set none). */
  lemma {:induction false} RunOutcome(s: HookState, fault: Fault)
    ensures var n := CompletedSteps(fault);
      Replay(s, RunUpdates(fault)) ==
        HookState(false, if n == 0 then s.progress else RunSteps[n - 1])
  {
    var n := CompletedSteps(fault);
    var run := RunUpdates(fault);
    assert run[..|run| - 1] == [IsProcessingUpdate(true)] + ProgressUpdates(n);
    RunPrefix(s, fault, |run| - 1);
  }

  /** A completed run ends at 100 percent, in the complete stage. */
  lemma {:induction false} SuccessfulRunEndsComplete(s: HookState)
    ensures Replay(s, RunUpdates(NoFault)).progress.progress == 100
    ensures Replay(s, RunUpdates(NoFault)).progress.stage == Complete
    ensures !Replay(s, RunUpdates(NoFault)).isProcessing
  {
    RunOutcome(s, NoFault);
  }

  /** The hook's state after the first `k` setter calls of a run, before the
      last one: the flag is up, and the progress is the latest step set so
      far (the previous value right after the flag went up). */
  lemma {:induction false} RunPrefix(s: HookState, fault: Fault, k: nat)
    requires 1 <= k < |RunUpdates(fault)|
    ensures Replay(s, RunUpdates(fault)[..k]) ==
      HookState(true, if k == 1 then s.progress else RunSteps[k - 2])
  {
    var run := RunUpdates(fault);
    if k == 1 {
      assert run[..1][..0] == [];
    } else {
      assert run[..k][..k - 1] == run[..k - 1];
      RunPrefix(s, fault, k - 1);
      assert run[k - 1] == ProgressUpdate(RunSteps[k - 2]);
    }
  }

  /** The fixed steps advance: the percentage and the stage rise strictly
      from one step to the next, the stages are the four phases in order,
      and the last step is 100 percent, complete. */
  lemma RunStepsAdvance(i: nat, j: nat)
    requires i < j < |RunSteps|
    ensures RunSteps[i].progress < RunSteps[j].progress
    ensures RunSteps[i].stage.Index() < RunSteps[j].stage.Index()
    ensures RunSteps[i].stage.Index() == i && RunSteps[j].stage.Index() == j
    ensures RunSteps[|RunSteps| - 1] == UploadProgress(100, Complete, "Shorts gerados com sucesso!")
  {
  }

  /** Within a run the progress in the hook's state never goes back: between any two
      moments after the first step was set, the percentage and the stage
      only rise, and they rise strictly while steps are still being set. */
  lemma {:induction false} ProgressMonotoneWithinRun(s: HookState, fault: Fault, j: nat, k: nat)
    requires 2 <= j <= k <= |RunUpdates(fault)|
    ensures var run := RunUpdates(fault);
      var p, q := Replay(s, run[..j]).progress, Replay(s, run[..k]).progress;
      p.progress <= q.progress && p.stage.Index() <= q.stage.Index() &&
      (j < k < |run| ==> p.progress < q.progress && p.stage.Index() < q.stage.Index())
  {
    var run := RunUpdates(fault);
    if j == k {
    } else if k < |run| {
      RunPrefix(s, fault, j);
      RunPrefix(s, fault, k);
      if j < k {
        RunStepsAdvance(j - 2, k - 2);
      }
    } else {
      RunPrefix(s, fault, j);
      assert run[..k] == run;
      RunOutcome(s, fault);
      if j < k - 1 {
        RunStepsAdvance(j - 2, k - 3);
      } else {
        RunPrefix(s, fault, k - 1);
      }
    }
  }

  /** A run does not reset the progress when it starts. Right after a
      completed run, the hook's state after the next run's first setter call
      still holds 100 percent with the flag up; after its first step it holds
      20 percent, the flag still up. */
  lemma {:induction false} SecondRunFallsBack(fault: Fault)
    ensures var done := Replay(InitialState, RunUpdates(NoFault));
      var run := RunUpdates(fault);
      Replay(done, run[..1]) == HookState(true, RunSteps[3]) &&
      (CompletedSteps(fault) >= 1 ==>
        Replay(done, run[..2]) == HookState(true, UploadProgress(20, Uploading, "Fazendo upload do vídeo...")))
  {
    var done := Replay(InitialState, RunUpdates(NoFault));
    RunOutcome(InitialState, NoFault);
    RunPrefix(done, fault, 1);
    if CompletedSteps(fault) >= 1 {
      RunPrefix(done, fault, 2);
    }
  }

  /** The flag is up from the first setter call of a run until its last,
      and down after it. */
  lemma {:induction false} FlagHeldDuringRun(s: HookState, fault: Fault, k: nat)
    requires 1 <= k <= |RunUpdates(fault)|
    ensures Replay(s, RunUpdates(fault)[..k]).isProcessing <==> k < |RunUpdates(fault)|
  {
    var run := RunUpdates(fault);
    if k < |run| {
      RunPrefix(s, fault, k);
    } else {
      assert run[..k] == run;
      RunOutcome(s, fault);
    }
  }

  /** `reset` brings any state back to the initial one, so doing it twice
      is the same as doing it once. */
  lemma {:induction false} ResetRestoresInitial(s: HookState)
    ensures Replay(s, ResetUpdates) == InitialState
    ensures Replay(Replay(s, ResetUpdates), ResetUpdates) == Replay(s, ResetUpdates)
  {
    assert ResetUpdates[..1] == [IsProcessingUpdate(false)];
    assert ResetUpdates[..1][..0] == [];
  }

  // ---------------------------------------------------------------------
  // Mock results

  const ResultTitles: seq<string> := [
    "Melhor Momento - Início Impactante",
    "Momento Viral - Clímax do Vídeo",
    "Final Épico - Call to Action"
  ]

  /** The hard-coded durations of the three results for each target length. */
  function BaseDurations(d: Duration): seq<string>
  {
    match d
    case Thirty => ["0:30", "0:28", "0:30"]
    case Sixty => ["0:60", "0:58", "0:60"]
    case Ninety => ["0:90", "0:85", "0:90"]
  }

  /** `x.toFixed(1) + " MB"` for a value that rounds to `tenths` tenths. */
  function SizeLabel(tenths: nat): string
  {
    NatToString(tenths / 10) + "." + [DigitChar(tenths % 10)] + " MB"
  }

  /** The three mock results of a run. Each result's size comes from a
      random draw; `sizeTenths(i)` stands for the draw of result `i`
      rounded to tenths of a megabyte. */
  function GenerateMockResults(file: VideoFile, config: ProcessingConfig, sizeTenths: nat -> nat)
    : (r: seq<VideoResult>)
    ensures |r| == 3
    ensures r[0].duration == r[2].duration
  {
    var durations := BaseDurations(config.duration);
    seq(3, i requires 0 <= i < 3 =>
      VideoResult(
        "short-" + NatToString(i + 1),
        ResultTitles[i],
        durations[i],
        "",
        SizeLabel(sizeTenths(i)),
        Some("#download-" + NatToString(i + 1)),
        Some("#preview-" + NatToString(i + 1))))
  }

  /** Result `i` (counting from 0) is numbered `i + 1` in its id and its
      two links, has no thumbnail yet, carries the `i`-th fixed title, and
      its size label is its own draw. */
  lemma {:induction false} MockResultFields(file: VideoFile, config: ProcessingConfig, sizeTenths: nat -> nat, i: nat)
    requires i < 3
    ensures var r := GenerateMockResults(file, config, sizeTenths)[i];
      r.id == "short-" + NatToString(i + 1) &&
      r.downloadUrl == Some("#download-" + NatToString(i + 1)) &&
      r.previewUrl == Some("#preview-" + NatToString(i + 1)) &&
      r.thumbnail == "" && r.title == ResultTitles[i] &&
      r.size == SizeLabel(sizeTenths(i))
  {
  }

  /** The duration table: the first and third results last the target
      length, written `0:` and its value; the second lasts 28, 58 or 85
      seconds for a target of 30, 60 or 90. */
  lemma {:induction false} MockDurationTable(file: VideoFile, config: ProcessingConfig, sizeTenths: nat -> nat)
    ensures var r := GenerateMockResults(file, config, sizeTenths);
      r[0].duration == r[2].duration == "0:" + config.duration.Value() &&
      r[1].duration == match config.duration
        case Thirty => "0:28"
        case Sixty => "0:58"
        case Ninety => "0:85"
  {
    var r := GenerateMockResults(file, config, sizeTenths);
    assert r[0].duration == BaseDurations(config.duration)[0];
    assert r[1].duration == BaseDurations(config.duration)[1];
  }

  /** The ids of one batch are pairwise distinct. */
  lemma {:induction false} MockIdsDistinct(file: VideoFile, config: ProcessingConfig, sizeTenths: nat -> nat, i: nat, j: nat)
    requires i < j < 3
    ensures GenerateMockResults(file, config, sizeTenths)[i].id !=
            GenerateMockResults(file, config, sizeTenths)[j].id
  {
    var r := GenerateMockResults(file, config, sizeTenths);
    MockResultFields(file, config, sizeTenths, i);
    MockResultFields(file, config, sizeTenths, j);
    assert NatToString(i + 1) == [DigitChar(i + 1)];
    assert NatToString(j + 1) == [DigitChar(j + 1)];
    assert r[i].id[6] == DigitChar(i + 1) && r[j].id[6] == DigitChar(j + 1);
  }

  /** For the same size draws, the results depend on the target length
      only: the file, the style and the quality are never read. */
  lemma {:induction false} MockResultsDependOnDurationOnly(
    f1: VideoFile, c1: ProcessingConfig, f2: VideoFile, c2: ProcessingConfig, sizeTenths: nat -> nat)
    requires c1.duration == c2.duration
    ensures GenerateMockResults(f1, c1, sizeTenths) == GenerateMockResults(f2, c2, sizeTenths)
  {
  }

  /** The 30-second table is in the `m:ss` form `formatDuration` gives:
      its entries are the formatting of 30, 28 and 30 seconds. */
  lemma {:induction false} ThirtySecondTableIsFormatted(file: VideoFile, config: ProcessingConfig, sizeTenths: nat -> nat)
    requires config.duration == Thirty
    ensures var r := GenerateMockResults(file, config, sizeTenths);
      r[0].duration == r[2].duration == FormatDuration(30) && r[1].duration == FormatDuration(28)
  {
    MockDurationTable(file, config, sizeTenths);
    FormatOfSmall(30, "0:30");
    FormatOfSmall(28, "0:28");
  }

  /** The 60- and 90-second tables write a whole minute or more as seconds
      (`0:60`, `0:90`, `0:85`), which `formatDuration` never produces for any
      count; only their `0:58` entry is in its form. */
  lemma {:induction false} LongerTablesAreNotFormatted(file: VideoFile, config: ProcessingConfig, sizeTenths: nat -> nat)
    requires config.duration != Thirty
    ensures var r := GenerateMockResults(file, config, sizeTenths);
      (forall s: int :: r[0].duration != FormatDuration(s) && r[2].duration != FormatDuration(s)) &&
      (config.duration == Sixty ==> r[1].duration == FormatDuration(58)) &&
      (config.duration == Ninety ==> forall s: int :: r[1].duration != FormatDuration(s))
  {
    MockDurationTable(file, config, sizeTenths);
    if config.duration == Sixty {
      NotFormatted("0:60");
      FormatOfSmall(58, "0:58");
    } else {
      NotFormatted("0:90");
      NotFormatted("0:85");
    }
  }

  /** Below a minute (from 10 seconds on) the text is `0:` and two digits. */
  lemma {:induction false} FormatOfSmall(seconds: nat, t: string)
    requires 10 <= seconds < 60
    requires |t| == 4 && t[..2] == "0:" && IsDigit(t[2]) && IsDigit(t[3])
    requires DigitValue(t[2]) * 10 + DigitValue(t[3]) == seconds
    ensures FormatDuration(seconds) == t
  {
    var d := t[2..];
    assert |d| == 2 && AllDigits(d) && d[0] == t[2] && d[1] == t[3];
    calc {
      FormatDuration(seconds);
      { FormatDurationOfNat(seconds); }
      NatToString(seconds / 60) + ":" + PadStart(NatToString(seconds % 60), 2, '0');
      { assert seconds / 60 == 0 && seconds % 60 == seconds; }
      NatToString(0) + ":" + PadStart(NatToString(seconds), 2, '0');
      { TwoDigitValue(d); TwoDigitText(d); }
      "0" + ":" + d;
      t[..2] + t[2..];
      t;
    }
  }

  /** `0:` followed by two digits that stand for 60 or more is not the
      formatting of any count. */
  lemma {:induction false} NotFormatted(t: string)
    requires |t| == 4 && t[..2] == "0:" && IsDigit(t[2]) && IsDigit(t[3])
    requires DigitValue(t[2]) * 10 + DigitValue(t[3]) >= 60
    ensures forall s: int :: t != FormatDuration(s)
  {
    assert !IsDurationText(t) by {
      TwoDigitValue(t[2..]);
      assert t[|t| - 2..] == t[2..];
    }
    assert t[0] == '0';
    forall s: int
      ensures t != FormatDuration(s)
    {
      FormattedIsDurationText(s);
    }
  }
  // ---------------------------------------------------------------------
  // The hook

  /** The hook's two pieces of state. `updates` records every setter call
      made so far, oldest first; the fields are always the replay of it. */
  class VideoProcessorHook {
    var isProcessing: bool
    var progress: UploadProgress
    ghost var updates: seq<Update>

    function State(): HookState
      reads this
    {
      HookState(isProcessing, progress)
    }

    ghost predicate Valid()
      reads this
    {
      State() == Replay(InitialState, updates)
    }

    /** The state the hook starts with: not processing, 0 percent,
        uploading, "Preparando...". */
    constructor ()
      ensures Valid() && updates == []
      ensures !isProcessing && progress == InitialProgress
    {
      isProcessing := false;
      progress := InitialProgress;
      updates := [];
    }

    /** The `setIsProcessing` setter. */
    method SetIsProcessing(flag: bool)
      requires Valid()
      modifies this
      ensures Valid()
      ensures updates == old(updates) + [IsProcessingUpdate(flag)]
      ensures isProcessing == flag && progress == old(progress)
    {
      isProcessing := flag;
      updates := updates + [IsProcessingUpdate(flag)];
      assert updates[..|updates| - 1] == old(updates);
    }

    /** The `setProgress` setter. */
    method SetProgress(value: UploadProgress)
      requires Valid()
      modifies this
      ensures Valid()
      ensures updates == old(updates) + [ProgressUpdate(value)]
      ensures progress == value && isProcessing == old(isProcessing)
    {
      progress := value;
      updates := updates + [ProgressUpdate(value)];
      assert updates[..|updates| - 1] == old(updates);
    }

    /** `processVideo`: raise the flag, set the four steps in order, then
        generate the results; any failure on the way is replaced by the one
        generic error, and the flag is cleared on every way out. */
    method ProcessVideo(file: VideoFile, config: ProcessingConfig, sizeTenths: nat -> nat, fault: Fault)
      returns (r: Result<seq<VideoResult>, ProcessingError>)
      requires Valid()
      modifies this
      ensures Valid()
      ensures updates == old(updates) + RunUpdates(fault)
      ensures State() == Replay(old(State()), RunUpdates(fault))
      ensures !isProcessing
      ensures fault.NoFault? ==>
        r == Success(GenerateMockResults(file, config, sizeTenths)) && progress == RunSteps[3]
      ensures fault.FailAfter? ==> r == Failure(ProcessingFailed(ProcessingFailedMessage))
    {
      ghost var before := updates;
      SetIsProcessing(true);
      // try
      var failed := TakeSteps(fault);
      if !failed {
        r := Success(GenerateMockResults(file, config, sizeTenths));
      } else {
        // catch: the cause is only logged
        r := Failure(ProcessingFailed(ProcessingFailedMessage));
      }
      // finally
      SetIsProcessing(false);
      LogOfRun(before, fault, updates);
      ReplayConcat(InitialState, before, RunUpdates(fault));
    }

    /** The four progress steps at the start of `processVideo`'s try block,
        as far as the run gets before the fault strikes; `failed` tells
        whether it struck (during the steps or while the results are
        generated). The flag is left as it was. */
    method TakeSteps(fault: Fault) returns (failed: bool)
      requires Valid()
      modifies this
      ensures Valid()
      ensures updates == old(updates) + ProgressUpdates(CompletedSteps(fault))
      ensures failed <==> fault.FailAfter?
      ensures isProcessing == old(isProcessing)
      ensures progress ==
        if CompletedSteps(fault) == 0 then old(progress) else RunSteps[CompletedSteps(fault) - 1]
    {
      failed := true;
      if FailsAt(fault, 0) { return; }
      SetProgress(RunSteps[0]);
      if FailsAt(fault, 1) { return; }
      // wait 1000 ms
      SetProgress(RunSteps[1]);
      if FailsAt(fault, 2) { return; }
      // wait 1500 ms
      SetProgress(RunSteps[2]);
      if FailsAt(fault, 3) { return; }
      // wait 1500 ms
      SetProgress(RunSteps[3]);
      failed := fault.FailAfter?;
    }

    /** The log of a whole run, put together from its three parts. */
    static lemma LogOfRun(before: seq<Update>, fault: Fault, log: seq<Update>)
      requires log == before + [IsProcessingUpdate(true)] + ProgressUpdates(CompletedSteps(fault)) + [IsProcessingUpdate(false)]
      ensures log == before + RunUpdates(fault)
    {
    }

    /** `reset`: clear the flag and put the progress back to its initial
        value, from any state. */
    method Reset()
      requires Valid()
      modifies this
      ensures Valid()
      ensures updates == old(updates) + ResetUpdates
      ensures State() == Replay(old(State()), ResetUpdates)
      ensures State() == InitialState
    {
      ghost var before := updates;
      SetIsProcessing(false);
      SetProgress(InitialProgress);
      assert updates == before + ResetUpdates;
      ReplayConcat(InitialState, before, ResetUpdates);
      ResetRestoresInitial(Replay(InitialState, before));
    }
  }
}
