/**
 One run of the launcher, over every pattern of failures: the checks before a
 start, the network join, the machine, the steps of a restore, the end. The
 effects of a run are its trace.
 */
module LauncherRun {
  import opened Wrappers

  datatype Start = Booted | Loaded | LoadedNoReseed

  datatype Evidence = Confirmed(reseeded: bool) | Refused

  /** Left and Stopped are the calls of Leave and Stop, and whether they did it. */
  datatype Event =
    | DiskMatched | JoinTried | Joined | Left(done: bool)
    | VmmStarted | SnapshotLoaded | Stopped(done: bool) | Exited | Connected
    | AgentReady | Reseeded | ClockSet | NetConfigured | Uniquified | ResumeTold | WorkloadStarted
    | EvidenceWritten(evidence: Evidence)

  datatype DiskCheck = NoCheck | CheckFailed | Sum(digest: string)

  /** How the run of a started machine ends. */
  datatype Ending = Report(code: int) | VmmDone(late: Option<int>) | Canceled | ListenFailed

  /** What the launcher was given. */
  datatype Config = Config(snapshot: bool, stagedPath: bool, afterStart: bool, workload: bool)

  /** What each effect of the run comes to. */
  datatype Env = Env(
    prepared: bool, checkDisk: DiskCheck, digestRecorded: bool,
    staged: bool, marker: Option<string>, snapshotDisk: Option<string>,
    joins: bool, leaves: bool, disks: bool, listens: bool, identity: bool, bootConfig: bool,
    vmmStarts: bool, stops: bool, loads: bool, connects: bool,
    ready: bool, reseeds: bool, setsClock: bool, configuresNet: bool, uniquifies: bool, tellsResumed: bool,
    startsWorkload: bool, writesEvidence: bool, ending: Ending)

  const STAGED_NO_RESEED := "entropy-reseed=off"
  const LAUNCH_FAILED := 125

  predicate HexDigit(c: char) {
    '0' <= c <= '9' || 'a' <= c <= 'f'
  }

  predicate DiskDigest(s: string) {
    |s| == 64 && forall i :: 0 <= i < |s| ==> HexDigit(s[i])
  }

  const HEX := "0123456789abcdef"

  lemma DigestMeans(s: string)
    ensures DiskDigest(s) <==> |s| == 64 && forall c :: c in s ==> c in HEX
  {
    forall c: char ensures HexDigit(c) <==> c in HEX {
      HexMeans(c);
    }
    assert forall i :: 0 <= i < |s| ==> s[i] in s;
  }

  lemma HexMeans(c: char)
    ensures HexDigit(c) <==> c in HEX
  {
    assert HEX == ['0', '1', '2', '3', '4', '5', '6', '7', '8', '9', 'a', 'b', 'c', 'd', 'e', 'f'];
    if '0' <= c <= '9' {
      assert HEX[c as int - '0' as int] == c;
    } else if 'a' <= c <= 'f' {
      assert HEX[c as int - 'a' as int + 10] == c;
    }
  }

  method IsDiskSHA256(s: string) returns (ok: bool)
    ensures ok <==> DiskDigest(s)
  {
    if |s| != 64 {
      return false;
    }
    for i := 0 to |s|
      invariant forall j :: 0 <= j < i ==> HexDigit(s[j])
    {
      var c := s[i];
      if (c < '0' || c > '9') && (c < 'a' || c > 'f') {
        return false;
      }
    }
    return true;
  }

  // What a run should do

  /** What comes before anything else: the agent answers, fresh randomness, the clock. */
  function FirstSteps(start: Start): seq<Event> {
    match start
    case Booted => [AgentReady]
    case Loaded => [AgentReady, Reseeded, ClockSet]
    case LoadedNoReseed => [AgentReady, ClockSet]
  }

  function LastSteps(start: Start, workload: bool): seq<Event> {
    (if start == Booted then [NetConfigured] else [NetConfigured, Uniquified, ResumeTold])
    + (if workload then [WorkloadStarted] else [])
  }

  /** The effects of AfterStart, in order. */
  function AfterSteps(start: Start, workload: bool): seq<Event> {
    FirstSteps(start) + LastSteps(start, workload)
  }

  /** The steps for each start: a booted guest needs no fresh randomness, clock or identity. */
  lemma AfterStepsMeans(start: Start, workload: bool)
    ensures AfterSteps(start, workload) ==
            (match start
             case Booted => [AgentReady, NetConfigured]
             case Loaded => [AgentReady, Reseeded, ClockSet, NetConfigured, Uniquified, ResumeTold]
             case LoadedNoReseed => [AgentReady, ClockSet, NetConfigured, Uniquified, ResumeTold])
            + if workload then [WorkloadStarted] else []
  {
  }

  predicate FirstSucceeds(env: Env, start: Start) {
    && env.ready
    && (start == Loaded ==> env.reseeds)
    && (start != Booted ==> env.setsClock)
  }

  predicate LastSucceeds(env: Env, start: Start, workload: bool) {
    && env.configuresNet
    && (start != Booted ==> env.uniquifies && env.tellsResumed)
    && (workload ==> env.startsWorkload)
  }

  predicate AfterSucceeds(env: Env, start: Start, workload: bool) {
    FirstSucceeds(env, start) && LastSucceeds(env, start, workload)
  }

  /** The disk of the Pod was checked, and it is the one the snapshot ran on. */
  predicate SameDisk(env: Env) {
    && env.checkDisk.Sum? && DiskDigest(env.checkDisk.digest)
    && env.snapshotDisk == Some(env.checkDisk.digest)
  }

  function KindOf(cfg: Config, env: Env): Start {
    if !cfg.snapshot then Booted
    else if cfg.stagedPath && env.marker == Some(STAGED_NO_RESEED) then LoadedNoReseed
    else Loaded
  }

  predicate DiskUsable(env: Env) {
    env.checkDisk.NoCheck? || (env.checkDisk.Sum? && DiskDigest(env.checkDisk.digest) && env.digestRecorded)
  }

  predicate SourceUsable(cfg: Config, env: Env) {
    cfg.snapshot ==> (cfg.stagedPath ==> env.staged && env.marker.Some?) && SameDisk(env)
  }

  /** The run gets as far as the network. */
  predicate TriesJoin(cfg: Config, env: Env) {
    env.prepared && DiskUsable(env) && SourceUsable(cfg, env)
  }

  /** The run gets as far as a machine. */
  predicate Starts(cfg: Config, env: Env) {
    TriesJoin(cfg, env) && env.joins && env.disks && env.listens && env.identity && env.bootConfig && env.vmmStarts
  }

  /** The guest confirmed its part of the start; without AfterStart there is none. */
  predicate Confirms(cfg: Config, env: Env) {
    cfg.afterStart ==> AfterSucceeds(env, KindOf(cfg, env), cfg.workload)
  }

  /** Exactly when the machine gets onto the Pod network. */
  predicate Connects(cfg: Config, env: Env) {
    && Starts(cfg, env) && env.connects
    && (cfg.snapshot ==> KindOf(cfg, env) == Loaded && env.loads && Confirms(cfg, env))
  }

  /** The run gets as far as waiting for the end of the workload. */
  predicate Waits(cfg: Config, env: Env) {
    && Starts(cfg, env) && Confirms(cfg, env)
    && (if !cfg.snapshot then env.connects
        else env.loads && env.writesEvidence && (KindOf(cfg, env) == Loaded ==> env.connects))
  }

  /** All that must have happened before a machine with this start is connected. */
  ghost predicate Cleared(trace: seq<Event>, cfg: Config) {
    cfg.snapshot ==>
      && DiskMatched in trace && SnapshotLoaded in trace
      && (cfg.afterStart ==> Reseeded in trace && ClockSet in trace && NetConfigured in trace && Uniquified in trace)
  }

  /** The state was loaded, and its guest has the time and an identity of its own. */
  ghost predicate Restored(trace: seq<Event>, cfg: Config) {
    SnapshotLoaded in trace && (cfg.afterStart ==> ClockSet in trace && Uniquified in trace)
  }

  /** The event may follow the trace: a connect after all of that, evidence that tells whether there was one. */
  ghost predicate Fits(trace: seq<Event>, e: Event, cfg: Config) {
    && (e == Connected ==> Cleared(trace, cfg))
    && (e.EvidenceWritten? && e.evidence.Confirmed? ==>
          && Restored(trace, cfg) && (e.evidence.reseeded <==> Connected in trace)
          && (cfg.afterStart && e.evidence.reseeded ==> Reseeded in trace))
  }

  /** Each event of the trace followed what came before it that way. */
  ghost predicate Gated(trace: seq<Event>, cfg: Config) {
    forall j :: 0 <= j < |trace| ==> Fits(trace[..j], trace[j], cfg)
  }

  // The network and the machine in a trace

  predicate IsControl(e: Event) {
    e.JoinTried? || e.Joined? || e.Left? || e.VmmStarted? || e.Stopped? || e.Exited? || e.Connected?
  }

  predicate Quiet(es: seq<Event>) {
    forall e :: e in es ==> !IsControl(e) && !(e.EvidenceWritten? && e.evidence.Confirmed?)
  }

  /** What a trace does to the network and the machine, in order. */
  function Control(trace: seq<Event>): seq<Event> {
    if trace == [] then []
    else
      var last := trace[|trace| - 1];
      Control(trace[..|trace| - 1]) + if IsControl(last) then [last] else []
  }

  lemma {:induction false} ControlHas(trace: seq<Event>, e: Event)
    requires IsControl(e)
    ensures e in Control(trace) <==> e in trace
  {
    if trace != [] {
      var init, last := trace[..|trace| - 1], trace[|trace| - 1];
      assert trace == init + [last];
      ControlHas(init, e);
    }
  }

  /** What a whole run does to the network and the machine. */
  function RunControl(cfg: Config, env: Env): seq<Event> {
    if !TriesJoin(cfg, env) then []
    else if !env.joins then [JoinTried, Left(env.leaves)]
    else if !Starts(cfg, env) then [JoinTried, Joined, Left(env.leaves)]
    else if Connects(cfg, env) then [JoinTried, Joined, VmmStarted, Connected, Ended(cfg, env), Left(env.leaves)]
    else [JoinTried, Joined, VmmStarted, Ended(cfg, env), Left(env.leaves)]
  }

  /** The machine ends by itself while the launcher waits. */
  predicate ExitsAlone(cfg: Config, env: Env) {
    Waits(cfg, env) && env.ending.VmmDone?
  }

  /** How the machine ended: by itself, or by the stop of the launcher. */
  function Ended(cfg: Config, env: Env): Event {
    if ExitsAlone(cfg, env) then Exited else Stopped(env.stops)
  }

  /** The machine ran to an exit report. */
  predicate Reports(cfg: Config, env: Env) {
    Waits(cfg, env) && (env.ending.Report? || (env.ending.VmmDone? && env.ending.late.Some?))
  }

  function ReportedCode(env: Env): int
    requires env.ending.Report? || (env.ending.VmmDone? && env.ending.late.Some?)
  {
    if env.ending.Report? then env.ending.code else env.ending.late.value
  }

  lemma ControlEmit(trace: seq<Event>, e: Event)
    ensures Control(trace + [e]) == if IsControl(e) then Control(trace) + [e] else Control(trace)
  {
    assert (trace + [e])[..|trace|] == trace;
  }

  lemma {:induction false} QuietEmit(trace: seq<Event>, es: seq<Event>, cfg: Config)
    requires Quiet(es) && Gated(trace, cfg)
    ensures Control(trace + es) == Control(trace) && Gated(trace + es, cfg)
    decreases |es|
  {
    hide Control, Gated;
    if es == [] {
      assert trace + es == trace;
    } else {
      var init, e := es[..|es| - 1], es[|es| - 1];
      assert e in es;
      QuietEmit(trace, init, cfg);
      assert trace + es == trace + init + [e];
      ControlEmit(trace + init, e);
      GatedEmit(trace + init, e, cfg);
    }
  }

  lemma AfterStepsQuiet(start: Start, workload: bool)
    ensures Quiet(AfterSteps(start, workload))
  {
  }

  /** Any part of AfterStart leaves the network and the machine as they are. */
  lemma AfterQuiet(before: seq<Event>, after: seq<Event>, start: Start, cfg: Config)
    requires Gated(before, cfg) && before <= after <= before + AfterSteps(start, cfg.workload)
    ensures Control(after) == Control(before) && Gated(after, cfg)
    ensures forall e :: e in before ==> e in after
  {
    hide Control, Gated, AfterSteps;
    var steps := AfterSteps(start, cfg.workload);
    var es := after[|before|..];
    assert after == before + es;
    assert es == steps[..|es|];
    AfterStepsQuiet(start, cfg.workload);
    QuietEmit(before, es, cfg);
  }

  lemma GatedEmit(trace: seq<Event>, e: Event, cfg: Config)
    requires Gated(trace, cfg) && Fits(trace, e, cfg)
    ensures Gated(trace + [e], cfg)
  {
    hide Fits;
    var after := trace + [e];
    forall j | 0 <= j < |after| ensures Fits(after[..j], after[j], cfg) {
      assert after[..j] == trace[..j];
      assert trace[..|trace|] == trace;
    }
  }

  class Launcher {
    const cfg: Config
    const env: Env
    var trace: seq<Event>
    var diskSHA256: string
    var stopped: bool

    constructor (cfg: Config, env: Env)
      ensures this.cfg == cfg && this.env == env && trace == [] && diskSHA256 == "" && !stopped
    {
      this.cfg, this.env := cfg, env;
      trace, diskSHA256, stopped := [], "", false;
    }

    /** Checks the spec and the image disk, and keeps the digest of the disk. */
    method Prepare() returns (ok: bool)
      requires diskSHA256 == ""
      modifies this`diskSHA256
      ensures ok <==> env.prepared && DiskUsable(env)
      ensures ok ==> diskSHA256 == if env.checkDisk.Sum? then env.checkDisk.digest else ""
    {
      if !env.prepared {
        return false;
      }
      if env.checkDisk.NoCheck? {
        return true;
      }
      if env.checkDisk.CheckFailed? {
        return false;
      }
      var valid := IsDiskSHA256(env.checkDisk.digest);
      if !valid {
        return false;
      }
      diskSHA256 := env.checkDisk.digest;
      return env.digestRecorded;
    }

    method WriteEvidence(evidence: Evidence) returns (ok: bool)
      requires Gated(trace, cfg) && Fits(trace, EvidenceWritten(evidence), cfg)
      modifies this`trace
      ensures ok == env.writesEvidence
      ensures trace == if ok then old(trace) + [EvidenceWritten(evidence)] else old(trace)
      ensures Control(trace) == old(Control(trace)) && Gated(trace, cfg)
    {
      hide Control, Gated, Fits;
      if env.writesEvidence {
        ControlEmit(trace, EvidenceWritten(evidence));
        GatedEmit(trace, EvidenceWritten(evidence), cfg);
        trace := trace + [EvidenceWritten(evidence)];
      }
      return env.writesEvidence;
    }

    /** Tells the node agent that the restore failed. */
    method FailRestore()
      requires Gated(trace, cfg)
      modifies this`trace
      ensures trace ==
                if cfg.snapshot && env.writesEvidence then old(trace) + [EvidenceWritten(Refused)] else old(trace)
      ensures Control(trace) == old(Control(trace)) && Gated(trace, cfg)
    {
      if cfg.snapshot {
        var _ := WriteEvidence(Refused);
      }
    }

    /** Waits for the staged files and compares the disk digests. */
    method StartKind() returns (start: Start, ok: bool)
      requires diskSHA256 == if env.checkDisk.Sum? then env.checkDisk.digest else ""
      requires (env.checkDisk.Sum? ==> DiskDigest(env.checkDisk.digest)) && Gated(trace, cfg)
      modifies this`trace
      ensures ok <==> SourceUsable(cfg, env)
      ensures ok ==> start == KindOf(cfg, env)
      ensures Control(trace) == old(Control(trace)) && Gated(trace, cfg)
      ensures ok ==> trace == if cfg.snapshot then old(trace) + [DiskMatched] else old(trace)
      ensures !ok ==> trace == if env.writesEvidence then old(trace) + [EvidenceWritten(Refused)] else old(trace)
    {
      hide Control, Gated;
      if !cfg.snapshot {
        return Booted, true;
      }
      start := Loaded;
      if cfg.stagedPath {
        if !env.staged || env.marker.None? {
          FailRestore();
          return start, false;
        }
        if env.marker.value == STAGED_NO_RESEED {
          start := LoadedNoReseed;
        }
      }
      if env.snapshotDisk.None? {
        FailRestore();
        return start, false;
      }
      var want := env.snapshotDisk.value;
      var valid := IsDiskSHA256(want);
      if !valid || diskSHA256 == "" || want != diskSHA256 {
        FailRestore();
        return start, false;
      }
      QuietEmit(trace, [DiskMatched], cfg);
      trace := trace + [DiskMatched];
      return start, true;
    }

    /** One call to the guest. */
    method Ask(succeeds: bool, e: Event) returns (ok: bool)
      modifies this`trace
      ensures ok == succeeds && trace == if ok then old(trace) + [e] else old(trace)
    {
      if succeeds {
        trace := trace + [e];
      }
      return succeeds;
    }

    method Refresh(start: Start) returns (ok: bool)
      modifies this`trace
      ensures ok <==> FirstSucceeds(env, start)
      ensures ok ==> trace == old(trace) + FirstSteps(start)
      ensures !ok ==> old(trace) <= trace < old(trace) + FirstSteps(start)
    {
      ok := Ask(env.ready, AgentReady);
      if ok && start == Loaded {
        ok := Ask(env.reseeds, Reseeded);
      }
      if ok && start != Booted {
        ok := Ask(env.setsClock, ClockSet);
      }
    }

    method Settle(start: Start) returns (ok: bool)
      modifies this`trace
      ensures ok <==> LastSucceeds(env, start, cfg.workload)
      ensures ok ==> trace == old(trace) + LastSteps(start, cfg.workload)
      ensures !ok ==> old(trace) <= trace < old(trace) + LastSteps(start, cfg.workload)
    {
      ok := Ask(env.configuresNet, NetConfigured);
      if ok && start != Booted {
        ok := Identify();
      }
      if ok && cfg.workload {
        ok := Ask(env.startsWorkload, WorkloadStarted);
      }
    }

    /** The guest's side of a start: it stops at the first step that fails. */
    method AfterStart(start: Start) returns (ok: bool)
      modifies this`trace
      ensures ok <==> AfterSucceeds(env, start, cfg.workload)
      ensures ok ==> trace == old(trace) + AfterSteps(start, cfg.workload)
      ensures !ok ==> old(trace) <= trace < old(trace) + AfterSteps(start, cfg.workload)
    {
      hide FirstSteps, LastSteps, FirstSucceeds, LastSucceeds;
      ok := Refresh(start);
      if ok {
        ok := Settle(start);
      }
    }

    /** A new identity for a loaded guest, and the time of the loaded state. */
    method Identify() returns (ok: bool)
      modifies this`trace
      ensures ok <==> env.uniquifies && env.tellsResumed
      ensures ok ==> trace == old(trace) + [Uniquified, ResumeTold]
      ensures !ok ==> old(trace) <= trace < old(trace) + [Uniquified, ResumeTold]
    {
      ok := Ask(env.uniquifies, Uniquified);
      if ok {
        ok := Ask(env.tellsResumed, ResumeTold);
      }
    }

    method Stop()
      modifies this`trace, this`stopped
      ensures stopped && trace == if old(stopped) then old(trace) else old(trace) + [Stopped(env.stops)]
    {
      if !stopped {
        stopped := true;
        trace := trace + [Stopped(env.stops)];
      }
    }

    /** Connects a loaded machine, unless it got no fresh randomness, and says which. */
    method FinishRestore(start: Start) returns (ok: bool)
      requires start == KindOf(cfg, env) && Gated(trace, cfg) && (start == Loaded ==> Cleared(trace, cfg))
      requires start != Booted ==> Restored(trace, cfg) && Connected !in trace
      modifies this`trace
      ensures ok <==> start == Booted || (env.writesEvidence && (start == Loaded ==> env.connects))
      ensures Gated(trace, cfg)
      ensures Control(trace) ==
                if start == Loaded && env.connects then old(Control(trace)) + [Connected] else old(Control(trace))
      ensures ok && start != Booted ==> trace != [] && trace[|trace| - 1] == EvidenceWritten(Confirmed(start == Loaded))
    {
      hide Control, Gated;
      ok := true;
      if start == Loaded {
        if !env.connects {
          FailRestore();
          return false;
        }
        ControlEmit(trace, Connected);
        GatedEmit(trace, Connected, cfg);
        trace := trace + [Connected];
        ok := WriteEvidence(Confirmed(true));
      } else if start == LoadedNoReseed {
        ok := WriteEvidence(Confirmed(false));
      }
    }

    /** Waits for the end of the run. Only an exit report gives the code of the workload. */
    method WaitExit() returns (code: int, ok: bool)
      requires !stopped
      modifies this`trace, this`stopped
      ensures stopped && trace == old(trace) + [if env.ending.VmmDone? then Exited else Stopped(env.stops)]
      ensures ok <==> env.ending.Report? || (env.ending.VmmDone? && env.ending.late.Some?)
      ensures code == match env.ending
                      case Report(c) => c
                      case VmmDone(late) => if late.Some? then late.value else LAUNCH_FAILED
                      case _ => LAUNCH_FAILED
    {
      match env.ending {
        case Report(c) =>
          Stop();
          return c, true;
        case VmmDone(late) =>
          stopped := true;
          trace := trace + [Exited];
          if late.Some? {
            return late.value, true;
          }
          return LAUNCH_FAILED, false;
        case Canceled =>
          Stop();
          return LAUNCH_FAILED, false;
        case ListenFailed =>
          Stop();
          return LAUNCH_FAILED, false;
      }
    }

    /** A started machine up to the wait: connected or loaded, confirmed by its guest, let onto the network. */
    method BringUp(start: Start) returns (ok: bool)
      requires start == KindOf(cfg, env) && Starts(cfg, env)
      requires Gated(trace, cfg) && (cfg.snapshot ==> DiskMatched in trace) && Connected !in trace
      modifies this`trace
      ensures ok <==> Waits(cfg, env)
      ensures Control(trace) == if Connects(cfg, env) then old(Control(trace)) + [Connected] else old(Control(trace))
      ensures Gated(trace, cfg)
    {
      hide Control, Gated, AfterSteps, AfterSucceeds, Starts;
      if !cfg.snapshot {
        if !env.connects {
          return false;
        }
        ControlEmit(trace, Connected);
        GatedEmit(trace, Connected, cfg);
        trace := trace + [Connected];
      } else {
        if !env.loads {
          FailRestore();
          return false;
        }
        QuietEmit(trace, [SnapshotLoaded], cfg);
        trace := trace + [SnapshotLoaded];
      }
      if cfg.afterStart {
        ghost var before := trace;
        ok := AfterStart(start);
        AfterQuiet(before, trace, start, cfg);
        ControlHas(before, Connected);
        ControlHas(trace, Connected);
        if !ok {
          FailRestore();
          return false;
        }
        AfterClears(before, start, cfg);
      }
      ok := FinishRestore(start);
    }

    /** A started machine to its end. Whatever happens, it exited or was told to stop, once. */
    method RunMachine(start: Start) returns (code: int, ok: bool)
      requires start == KindOf(cfg, env) && Starts(cfg, env)
      requires Gated(trace, cfg) && (cfg.snapshot ==> DiskMatched in trace) && Connected !in trace
      requires !stopped
      modifies this`trace, this`stopped
      ensures ok <==> Reports(cfg, env)
      ensures code == if ok then ReportedCode(env) else LAUNCH_FAILED
      ensures Control(trace) ==
                old(Control(trace)) + if Connects(cfg, env) then [Connected, Ended(cfg, env)] else [Ended(cfg, env)]
      ensures Gated(trace, cfg)
    {
      hide Control, Gated, Connects, Waits, Starts;
      ok := BringUp(start);
      code := LAUNCH_FAILED;
      ControlEmit(trace, Exited);
      GatedEmit(trace, Exited, cfg);
      ControlEmit(trace, Stopped(env.stops));
      GatedEmit(trace, Stopped(env.stops), cfg);
      if ok {
        code, ok := WaitExit();
      }
      Stop();
    }

    /** From the network join to the machine and back. The join is left in any case. */
    method RunJoined(start: Start) returns (code: int, ok: bool)
      requires start == KindOf(cfg, env) && TriesJoin(cfg, env)
      requires Gated(trace, cfg) && (cfg.snapshot ==> DiskMatched in trace) && Connected !in trace
      requires !stopped
      modifies this`trace, this`stopped
      ensures ok <==> Reports(cfg, env)
      ensures code == if ok then ReportedCode(env) else LAUNCH_FAILED
      ensures Control(trace) + [Left(env.leaves)] == old(Control(trace)) + RunControl(cfg, env)
      ensures Gated(trace, cfg)
    {
      hide Control, Gated, Connects, TriesJoin;
      code, ok := LAUNCH_FAILED, false;
      Emit(JoinTried);
      if !env.joins {
        return;
      }
      Emit(Joined);
      if !env.disks || !env.listens || !env.identity || !env.bootConfig || !env.vmmStarts {
        return;
      }
      Emit(VmmStarted);
      code, ok := RunMachine(start);
    }

    method Emit(e: Event)
      requires Gated(trace, cfg) && IsControl(e) && e != Connected
      modifies this`trace
      ensures trace == old(trace) + [e] && Control(trace) == old(Control(trace)) + [e] && Gated(trace, cfg)
    {
      hide Control, Gated;
      ControlEmit(trace, e);
      GatedEmit(trace, e, cfg);
      trace := trace + [e];
    }

    /**
     A whole run, over every pattern of failures. It says exactly when the machine
     gets onto the network, what came before, and every call that starts or ends a
     join or a machine, in order, with what it came to.
     */
    method Run() returns (code: int, ok: bool)
      requires trace == [] && diskSHA256 == "" && !stopped
      modifies this
      ensures Control(trace) == RunControl(cfg, env)
      ensures Gated(trace, cfg)
      ensures JoinTried in trace <==> TriesJoin(cfg, env)
      ensures Connected in trace <==> Connects(cfg, env)
      ensures ok <==> Reports(cfg, env) && env.leaves
      ensures code == if Reports(cfg, env) then ReportedCode(env) else LAUNCH_FAILED
      ensures Connected in trace && cfg.snapshot ==>
                && env.checkDisk.Sum? && DiskDigest(env.checkDisk.digest)
                && env.snapshotDisk == Some(env.checkDisk.digest) && env.loads
      ensures cfg.snapshot && cfg.stagedPath && env.marker == Some("entropy-reseed=off") ==> Connected !in trace
      ensures Connected in trace && cfg.snapshot && cfg.afterStart ==>
                && env.ready && env.reseeds && env.setsClock && env.configuresNet && env.uniquifies && env.tellsResumed
                && (cfg.workload ==> env.startsWorkload)
      ensures ok ==> env.ending == Report(code) || env.ending == VmmDone(Some(code))
      ensures env.ending.Canceled? || env.ending.ListenFailed? || env.ending == VmmDone(None) ==> code == 125 && !ok
    {
      hide Control, Gated, Connects, Reports, RunControl, ReportedCode;
      NoTrace(cfg);
      RunFacts(cfg, env);
      ConnectsMeans(cfg, env);
      ReportsMeans(cfg, env);
      code, ok := LAUNCH_FAILED, false;
      var prepared := Prepare();
      var start := Booted;
      if prepared {
        start, prepared := StartKind();
      }
      if prepared {
        code, ok := RunJoined(start);
        Emit(Left(env.leaves));
        ok := ok && env.leaves;
      }
      ControlHas(trace, JoinTried);
      ControlHas(trace, Connected);
    }
  }

  /** A run is refused before it touches the network exactly in these cases. */
  lemma RefusedMeans(cfg: Config, env: Env)
    ensures !TriesJoin(cfg, env) <==>
            || !env.prepared
            || env.checkDisk.CheckFailed?
            || (env.checkDisk.Sum? && (!DiskDigest(env.checkDisk.digest) || !env.digestRecorded))
            || (cfg.snapshot &&
                (|| (cfg.stagedPath && (!env.staged || env.marker.None?))
                 || env.checkDisk.NoCheck? || env.snapshotDisk.None?
                 || !DiskDigest(env.snapshotDisk.value) || env.snapshotDisk.value != env.checkDisk.digest))
  {
  }

  /** A machine gets onto the Pod network exactly when nothing before it failed, in terms of the effects alone. */
  lemma ConnectsMeans(cfg: Config, env: Env)
    ensures Connects(cfg, env) <==>
            && TriesJoin(cfg, env) && env.joins && env.disks && env.listens && env.identity && env.bootConfig
            && env.vmmStarts && env.connects
            && (cfg.snapshot ==>
                  && env.loads && !(cfg.stagedPath && env.marker == Some("entropy-reseed=off"))
                  && (cfg.afterStart ==>
                        && env.ready && env.reseeds && env.setsClock
                        && env.configuresNet && env.uniquifies && env.tellsResumed
                        && (cfg.workload ==> env.startsWorkload)))
    ensures TriesJoin(cfg, env) && cfg.snapshot ==>
              && env.checkDisk.Sum? && DiskDigest(env.checkDisk.digest)
              && env.snapshotDisk == Some(env.checkDisk.digest)
  {
    hide DiskDigest;
  }

  /** A run that reports waited for a machine that its guest confirmed, and has the code of the report. */
  lemma ReportsMeans(cfg: Config, env: Env)
    ensures Reports(cfg, env) ==>
              && env.ending in {Report(ReportedCode(env)), VmmDone(Some(ReportedCode(env)))}
              && env.joins && env.vmmStarts && (!cfg.snapshot ==> env.connects)
              && (cfg.snapshot ==> env.loads && env.writesEvidence)
              && (cfg.snapshot && !(cfg.stagedPath && env.marker == Some("entropy-reseed=off")) ==> env.connects)
              && (cfg.afterStart ==> env.ready && env.configuresNet && (cfg.workload ==> env.startsWorkload))
              && (cfg.afterStart && cfg.snapshot ==> env.setsClock && env.uniquifies && env.tellsResumed)
    ensures Connects(cfg, env) && (cfg.snapshot ==> env.writesEvidence) && Confirms(cfg, env) ==>
              (Reports(cfg, env) <==> env.ending.Report? || (env.ending.VmmDone? && env.ending.late.Some?))
  {
    hide TriesJoin;
  }

  lemma RunFacts(cfg: Config, env: Env)
    ensures JoinTried in RunControl(cfg, env) <==> TriesJoin(cfg, env)
    ensures Connected in RunControl(cfg, env) <==> Connects(cfg, env)
    ensures !TriesJoin(cfg, env) ==> !Reports(cfg, env) && RunControl(cfg, env) == []
  {
  }

  /** Where a run is with its calls to the network and the machine. */
  datatype Phase = Away | Trying | Attached | Alive | Dead | Broken

  /** What is there to clean up: a join, even one that failed half way, and a machine. */
  datatype Remains = Remains(joined: bool, alive: bool)

  datatype Progress = Progress(phase: Phase, left: Remains)

  function NextPhase(p: Phase, e: Event): Phase {
    match (p, e)
    case (Away, JoinTried) => Trying
    case (Trying, Joined) => Attached
    case (Trying, Left(_)) => Away
    case (Attached, VmmStarted) => Alive
    case (Attached, Left(_)) => Away
    case (Alive, Connected) => Alive
    case (Alive, Stopped(_)) => Dead
    case (Alive, Exited) => Dead
    case (Dead, Left(_)) => Away
    case _ => Broken
  }

  function NextRemains(r: Remains, e: Event): Remains {
    match e
    case JoinTried => r.(joined := true)
    case Left(done) => if done then r.(joined := false) else r
    case VmmStarted => r.(alive := true)
    case Stopped(done) => if done then r.(alive := false) else r
    case Exited => r.(alive := false)
    case _ => r
  }

  function After(c: seq<Event>): Progress {
    if c == [] then Progress(Away, Remains(false, false))
    else
      var p, e := After(c[..|c| - 1]), c[|c| - 1];
      Progress(NextPhase(p.phase, e), NextRemains(p.left, e))
  }

  lemma AfterOne(c: seq<Event>, e: Event)
    ensures After(c + [e]) == Progress(NextPhase(After(c).phase, e), NextRemains(After(c).left, e))
  {
    assert (c + [e])[..|c|] == c;
  }

  /**
   In every run each join is followed by one call to leave, last of all, and each
   started machine by its exit or one call to stop. Nothing remains exactly when
   the leave of a run that tried to join succeeds, and the machine of a run that
   started one exits by itself or its stop succeeds.
   */
  lemma NothingRemains(cfg: Config, env: Env)
    ensures var p := After(RunControl(cfg, env));
            && p.phase == Away
            && (p.left.joined <==> TriesJoin(cfg, env) && !env.leaves)
            && (p.left.alive <==> Starts(cfg, env) && !(Waits(cfg, env) && env.ending.VmmDone?) && !env.stops)
  {
    StartsJoins(cfg, env);
    hide TriesJoin, Starts, Connects, Waits, After;
    var ended, left := Ended(cfg, env), Left(env.leaves);
    NoProgress();
    AfterOne([], JoinTried);
    AfterOne([JoinTried], left);
    AfterOne([JoinTried], Joined);
    AfterOne([JoinTried, Joined], left);
    AfterOne([JoinTried, Joined], VmmStarted);
    var up := [JoinTried, Joined, VmmStarted];
    assert [] + [JoinTried] == [JoinTried] && [JoinTried] + [left] == [JoinTried, left];
    assert [JoinTried] + [Joined] == [JoinTried, Joined] && [JoinTried, Joined] + [left] == [JoinTried, Joined, left];
    assert [JoinTried, Joined] + [VmmStarted] == up;
    AfterOne(up, ended);
    AfterOne(up + [ended], left);
    AfterOne(up, Connected);
    AfterOne(up + [Connected], ended);
    AfterOne(up + [Connected] + [ended], left);
    assert up + [ended] + [left] == [JoinTried, Joined, VmmStarted, ended, left];
    assert up + [Connected] + [ended] + [left] == [JoinTried, Joined, VmmStarted, Connected, ended, left];
  }

  lemma StartsJoins(cfg: Config, env: Env)
    ensures Starts(cfg, env) ==> TriesJoin(cfg, env) && env.joins
  {
  }

  lemma NoProgress()
    ensures After([]) == Progress(Away, Remains(false, false))
  {
  }

  /** Everything succeeds but what the guest has to confirm. */
  function Unconfirmed(digest: string): Env {
    Env(true, Sum(digest), true, true, Some(""), Some(digest),
        true, true, true, true, true, true, true, true, true, true,
        false, false, false, false, false, false, false, true, Report(0))
  }

  /** Without AfterStart a loaded machine is connected although its guest confirmed nothing. */
  lemma UnconfirmedInstance(digest: string)
    requires DiskDigest(digest)
    ensures var cfg := Config(true, true, false, true);
            var env := Unconfirmed(digest);
            && KindOf(cfg, env) == Loaded && Connects(cfg, env)
            && !AfterSucceeds(env, Loaded, cfg.workload) && !env.reseeds && !env.setsClock && !env.uniquifies
  {
    assert STAGED_NO_RESEED[0] == 'e';
  }

  lemma NoTrace(cfg: Config)
    ensures Control([]) == [] && Gated([], cfg)
  {
  }

  /** A confirmed restore has all that a connect needs. */
  lemma AfterClears(before: seq<Event>, start: Start, cfg: Config)
    requires cfg.snapshot ==> DiskMatched in before && SnapshotLoaded in before
    ensures start == Loaded || !cfg.snapshot ==> Cleared(before + AfterSteps(start, cfg.workload), cfg)
    ensures cfg.snapshot && start != Booted ==> Restored(before + AfterSteps(start, cfg.workload), cfg)
  {
    var steps := AfterSteps(start, cfg.workload);
    if start == Loaded {
      assert steps[1] == Reseeded && steps[2] == ClockSet && steps[3] == NetConfigured && steps[4] == Uniquified;
    } else if start == LoadedNoReseed {
      assert steps[1] == ClockSet && steps[3] == Uniquified;
    }
  }
}