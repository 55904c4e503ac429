/** The backup handler object: the configuration it validates and the paths
    it derives when constructed, the include and exclude lists it rewrites in
    place when encryption is on, and the fixed order of the steps of one
    backup run, each step's shell commands and API calls being oracles. */
module BackupHandler {
  import opened Util
  import C14Api
  import Rotation
  import BackupSteps

  // ------------------------------------------------------- configuration

  /** The entries of the configuration array the handler reads.
      `incremental` is None when the key is missing. */
  datatype Config = Config(
    safeName: string,
    incremental: Option<bool>,
    includes: seq<string>,
    excludes: seq<string>,
    encrypt: bool,
    password: Option<string>,
    privateKey: string,
    rsyncOptions: string,
    rotationOptions: seq<(string, bool)>)

  datatype ConfigError = PasswordMissing | UnknownInterval(key: string)

  /** The constructor's two rejections, in the order it makes them: the
      password test comes before the loop over the rotation options. */
  function ConfigCheck(config: Config): (r: Result<seq<Rotation.OptionValue>, ConfigError>)
    ensures r == Err(PasswordMissing) <==> config.encrypt && EmptyValue(config.password)
    ensures r.Err? <==> ((config.encrypt && EmptyValue(config.password))
                         || exists i :: 0 <= i < |config.rotationOptions| && config.rotationOptions[i].0 !in Rotation.RotationOptions)
    ensures r.Err? && r.error.UnknownInterval? ==>
      Rotation.RotationOptionsFor(config.rotationOptions) == Err(r.error.key)
    ensures r.Ok? ==> Rotation.RotationOptionsFor(config.rotationOptions) == Ok(r.value)
  {
    if config.encrypt && EmptyValue(config.password) then Err(PasswordMissing)
    else match Rotation.RotationOptionsFor(config.rotationOptions)
      case Err(key) => Err(UnknownInterval(key))
      case Ok(opts) => Ok(opts)
  }

  /** A configuration naming only known intervals, with a password whenever
      encryption is on, is accepted, and its options list holds every value
      followed by the names of the enabled intervals. */
  lemma ValidConfigAccepted(config: Config)
    requires !config.encrypt || !EmptyValue(config.password)
    requires forall i :: 0 <= i < |config.rotationOptions| ==> config.rotationOptions[i].0 in Rotation.RotationOptions
    ensures ConfigCheck(config).Ok?
    ensures forall n :: Rotation.Name(n) in ConfigCheck(config).value <==> (n, true) in config.rotationOptions
    ensures |ConfigCheck(config).value| == 0 <==> |config.rotationOptions| == 0
  {
  }

  /** With encryption off, the password is never looked at. */
  lemma PasswordIgnoredWithoutEncryption(config: Config, password: Option<string>)
    requires !config.encrypt
    ensures ConfigCheck(config) == ConfigCheck(config.(password := password))
  {
  }

  // -------------------------------------------------------- bookkeeping

  /** The steps of `doBackup`, each named after what it does. */
  datatype Step =
    | SelectArchive | MountBuffer | MakeFolders | EncryptView | LinkLastBackup
    | Transfer | Remount | CommitRename | RecordBackup | ReportArchive

  /** The steps a successful run performs, in order. */
  function Plan(encryption: bool, incremental: bool): (p: seq<Step>)
    ensures |p| == 8 + (if encryption then 1 else 0) + (if incremental then 1 else 0)
    ensures p[0] == SelectArchive && p[1] == MountBuffer && p[2] == MakeFolders
    ensures p[|p| - 5] == Transfer && p[|p| - 4] == Remount && p[|p| - 3] == CommitRename
    ensures p[|p| - 2] == RecordBackup && p[|p| - 1] == ReportArchive
  {
    [SelectArchive, MountBuffer, MakeFolders]
      + (if encryption then [EncryptView] else [])
      + (if incremental then [LinkLastBackup] else [])
      + [Transfer, Remount, CommitRename, RecordBackup, ReportArchive]
  }

  /** The steps a configuration schedules: all of them, except the
      encryption view without encryption and the hard links without
      incremental backups. */
  predicate Scheduled(encryption: bool, incremental: bool, s: Step)
  {
    match s
    case EncryptView => encryption
    case LinkLastBackup => incremental
    case _ => true
  }

  /** The plan holds exactly the scheduled steps. */
  lemma PlanSchedules(encryption: bool, incremental: bool, s: Step)
    ensures s in Plan(encryption, incremental) <==> Scheduled(encryption, incremental, s)
  {
    var p := Plan(encryption, incremental);
    if Scheduled(encryption, incremental, s) {
      var k := Position(encryption, incremental, s);
      assert p[k] == s;
    }
  }

  /** Where a step stands in the plan. */
  function Position(encryption: bool, incremental: bool, s: Step): (k: nat)
    requires Scheduled(encryption, incremental, s)
    ensures k < |Plan(encryption, incremental)| && Plan(encryption, incremental)[k] == s
  {
    var e := if encryption then 1 else 0;
    var i := if incremental then 1 else 0;
    match s
    case SelectArchive => 0
    case MountBuffer => 1
    case MakeFolders => 2
    case EncryptView => 3
    case LinkLastBackup => 3 + e
    case Transfer => 3 + e + i
    case Remount => 4 + e + i
    case CommitRename => 5 + e + i
    case RecordBackup => 6 + e + i
    case ReportArchive => 7 + e + i
  }

  /** The steps entered by a run that stops in step `s`. */
  function TraceUpTo(encryption: bool, incremental: bool, s: Step): (t: seq<Step>)
    requires Scheduled(encryption, incremental, s)
    ensures 0 < |t| <= |Plan(encryption, incremental)| && t == Plan(encryption, incremental)[..|t|]
    ensures t[|t| - 1] == s
  {
    Plan(encryption, incremental)[..Position(encryption, incremental, s) + 1]
  }

  /** Why the encryption step failed: its set-up, or the encode of one
      entry of the lists. */
  datatype EncryptionFault = SetupFailed(encfsError: BackupSteps.EncryptionError) | EncodeFailed(run: ExecResult)

  /** Why a run stopped. */
  datatype Failure =
    | SelectionFailed(apiError: C14Api.Error)
    | MountFailed(output: seq<string>)
    | EncryptionFailed(fault: EncryptionFault)
    | TransferFailed(output: seq<string>)
    | RemountFailed(output: seq<string>)
    | RenameFailed(output: seq<string>)
    | ReportFailed(reportError: C14Api.Error)

  /** The step that raises each failure. */
  function StepOf(f: Failure): Step
  {
    match f
    case SelectionFailed(_) => SelectArchive
    case MountFailed(_) => MountBuffer
    case EncryptionFailed(_) => EncryptView
    case TransferFailed(_) => Transfer
    case RemountFailed(_) => Remount
    case RenameFailed(_) => CommitRename
    case ReportFailed(_) => ReportArchive
  }

  /** Each entry of the plan is a scheduled step standing at its own
      position: no step occurs twice. */
  lemma PlanPositions(encryption: bool, incremental: bool, k: nat)
    requires k < |Plan(encryption, incremental)|
    ensures Scheduled(encryption, incremental, Plan(encryption, incremental)[k])
    ensures Position(encryption, incremental, Plan(encryption, incremental)[k]) == k
  {
    var p := Plan(encryption, incremental);
    var n := |p|;
    if k >= n - 5 {
      assert p[k] == [Transfer, Remount, CommitRename, RecordBackup, ReportArchive][k - (n - 5)];
    } else if k >= 3 {
      if encryption && k == 3 {
        assert p[k] == EncryptView;
      } else {
        assert incremental && p[k] == LinkLastBackup;
      }
    }
  }

  /** A run that entered a prefix of the plan entered a scheduled step
      exactly when the prefix reaches that step's position. */
  lemma {:induction false} PrefixReaches(trace: seq<Step>, encryption: bool, incremental: bool, s: Step)
    requires |trace| <= |Plan(encryption, incremental)| && trace == Plan(encryption, incremental)[..|trace|]
    requires Scheduled(encryption, incremental, s)
    ensures s in trace <==> Position(encryption, incremental, s) < |trace|
  {
    var p := Plan(encryption, incremental);
    if s in trace {
      var k :| 0 <= k < |trace| && trace[k] == s;
      assert p[k] == s;
      PlanPositions(encryption, incremental, k);
    }
    if Position(encryption, incremental, s) < |trace| {
      assert trace[Position(encryption, incremental, s)] == s;
    }
  }

  /** Every step a run gets to, successful or not, comes after all the
      steps the plan puts before it: a backup is recorded only after the
      transfer and the rename, and the transfer only after the mount. */
  lemma PlanPrefixOrder(trace: seq<Step>, encryption: bool, incremental: bool)
    requires |trace| <= |Plan(encryption, incremental)| && trace == Plan(encryption, incremental)[..|trace|]
    ensures RecordBackup in trace ==> CommitRename in trace && Transfer in trace && Remount in trace
    ensures CommitRename in trace ==> Transfer in trace && MountBuffer in trace
    ensures Transfer in trace ==> MountBuffer in trace && MakeFolders in trace
    ensures Transfer in trace && encryption ==> EncryptView in trace
    ensures Transfer in trace && incremental ==> LinkLastBackup in trace
  {
    PrefixReaches(trace, encryption, incremental, RecordBackup);
    PrefixReaches(trace, encryption, incremental, CommitRename);
    PrefixReaches(trace, encryption, incremental, Remount);
    PrefixReaches(trace, encryption, incremental, Transfer);
    PrefixReaches(trace, encryption, incremental, MakeFolders);
    PrefixReaches(trace, encryption, incremental, MountBuffer);
    if encryption {
      PrefixReaches(trace, encryption, incremental, EncryptView);
    }
    if incremental {
      PrefixReaches(trace, encryption, incremental, LinkLastBackup);
    }
  }

  /** What a successful run leaves behind. */
  datatype Report = Report(
    archive: C14Api.ArchiveDetails,
    linkedFrom: Option<string>,
    transferCommand: string,
    renamedTo: string,
    record: C14Api.ModifyArchiveRequest,
    reported: C14Api.ArchiveDetails)

  /** The steps a run entered, read off its result: the whole plan when it
      got to the report, the plan up to the failing step otherwise. */
  function Trace(encryption: bool, incremental: bool, r: Result<Report, Failure>): seq<Step>
    requires r.Err? ==> Scheduled(encryption, incremental, StepOf(r.error))
  {
    TraceUpTo(encryption, incremental, if r.Ok? then ReportArchive else StepOf(r.error))
  }

  /** What the world answers during one run, in call order. Each of the
      three safe look-ups by name has its own answer for the uuid a
      `createSafe` would return. */
  datatype RunEnv = RunEnv(
    selection: C14Api.SelectionEnv,
    createdSafeUuid: string,
    firstMount: nat -> ExecResult,
    encfs: BackupSteps.EncfsEnv,
    encode: string -> ExecResult,
    backupDirs: seq<string>,
    parse: string -> Option<int>,
    format: int -> string,
    transfer: nat -> ExecResult,
    secondMount: nat -> ExecResult,
    renameTime: int,
    rename: ExecResult,
    recordTime: int,
    recordSafes: seq<C14Api.Safe>,
    recordCreatedSafeUuid: string,
    report: C14Api.SelectionEnv,
    reportCreatedSafeUuid: string,
    esc: string -> string)

  // -------------------------------------------------- name translation

  /** The path `convertPlainDirNameToEncryptedDirName` gives back for a
      successful encode. */
  function Converted(encryptedDir: string, item: string, encode: string -> ExecResult): string
  {
    encryptedDir + "/" + FirstLine(encode(item).output)
  }

  /** The first entry whose encode fails. */
  function FailureAt(items: seq<string>, encode: string -> ExecResult): (r: Option<nat>)
    ensures r.Some? ==> (r.value < |items| && encode(items[r.value]).code != 0
                         && forall j :: 0 <= j < r.value ==> encode(items[j]).code == 0)
    ensures r.None? <==> forall j :: 0 <= j < |items| ==> encode(items[j]).code == 0
  {
    if |items| == 0 then None
    else if encode(items[0]).code != 0 then Some(0)
    else match FailureAt(items[1..], encode)
      case None => None
      case Some(k) => Some(k + 1)
  }

  /** The list after its first `k` entries were rewritten in place. */
  function TranslatedUpTo(encryptedDir: string, items: seq<string>, encode: string -> ExecResult, k: nat): (r: seq<string>)
    requires k <= |items|
    ensures |r| == |items|
    ensures forall i :: 0 <= i < k ==> r[i] == Converted(encryptedDir, items[i], encode)
    ensures forall i :: k <= i < |items| ==> r[i] == items[i]
  {
    seq(|items|, i requires 0 <= i < |items| => if i < k then Converted(encryptedDir, items[i], encode) else items[i])
  }

  /** The list the translating `foreach` leaves: every entry rewritten, or
      those before the first failing one when an encode fails. */
  function TranslatedList(encryptedDir: string, items: seq<string>, encode: string -> ExecResult): seq<string>
  {
    match FailureAt(items, encode)
    case Some(k) => TranslatedUpTo(encryptedDir, items, encode, k)
    case None => TranslatedUpTo(encryptedDir, items, encode, |items|)
  }

  /** A translation in which every encode succeeds keeps the length and the
      order of the list and puts each entry's encoded name, as the single
      conversion computes it, in its place. */
  lemma TranslationPreservesOrder(encryptedDir: string, items: seq<string>, encode: string -> ExecResult)
    requires FailureAt(items, encode).None?
    ensures |TranslatedList(encryptedDir, items, encode)| == |items|
    ensures forall i :: 0 <= i < |items| ==>
      BackupSteps.ConvertName(encryptedDir, encode(items[i])) == Ok(TranslatedList(encryptedDir, items, encode)[i])
  {
  }

  /** When an encode fails, the entries from the failing one on are left
      untouched, and the failing entry is the first whose conversion fails. */
  lemma TranslationStopsAtFailure(encryptedDir: string, items: seq<string>, encode: string -> ExecResult)
    requires FailureAt(items, encode).Some?
    ensures var k := FailureAt(items, encode).value;
      && BackupSteps.ConvertName(encryptedDir, encode(items[k])).Err?
      && (forall j :: 0 <= j < k ==> BackupSteps.ConvertName(encryptedDir, encode(items[j])).Ok?)
      && TranslatedList(encryptedDir, items, encode)[k..] == items[k..]
  {
    var k := FailureAt(items, encode).value;
    var t := TranslatedUpTo(encryptedDir, items, encode, k);
    assert TranslatedList(encryptedDir, items, encode) == t;
    assert BackupSteps.ConvertName(encryptedDir, encode(items[k])).Err?;
    forall j | 0 <= j < k
      ensures BackupSteps.ConvertName(encryptedDir, encode(items[j])).Ok?
    {
      assert encode(items[j]).code == 0;
    }
    assert t[k..] == items[k..];
  }

  /** The encrypted view's own mount point is what `encryptDirNames` adds to
      the excludes, and it is translated like every other exclude. */
  lemma ViewExcludedLast(encryptedDir: string, excludes: seq<string>, encode: string -> ExecResult)
    requires FailureAt(excludes + [encryptedDir], encode).None?
    ensures var t := TranslatedList(encryptedDir, excludes + [encryptedDir], encode);
      && |t| == |excludes| + 1
      && t[|excludes|] == Converted(encryptedDir, encryptedDir, encode)
      && forall i :: 0 <= i < |excludes| ==> t[i] == Converted(encryptedDir, excludes[i], encode)
  {
    var ex := excludes + [encryptedDir];
    assert ex[|excludes|] == encryptedDir;
    assert forall i :: 0 <= i < |excludes| ==> ex[i] == excludes[i];
  }

  // ------------------------------------------------- run specification

  /** The include and exclude lists. */
  datatype Lists = Lists(includes: seq<string>, excludes: seq<string>)

  /** What the steps before the transfer hand on: the selected archive and
      the folder the temporary one was seeded from, if any. */
  datatype Prepared = Prepared(archive: C14Api.ArchiveDetails, linkedFrom: Option<string>)

  /** What `enableEncryption` leaves in the lists, and the failure it
      raises: nothing is translated when the configuration or the view
      cannot be set up; otherwise the view is appended to the excludes and
      the includes are translated up to the first failing encode, the
      excludes only when every include encoded. */
  function EncryptionStep(encfs: BackupSteps.EncfsEnv, encode: string -> ExecResult, encryptedDir: string,
                          inc0: seq<string>, ex0: seq<string>): (Lists, Option<EncryptionFault>)
  {
    match BackupSteps.EncryptionSetup(encfs)
    case Err(e) => (Lists(inc0, ex0), Some(SetupFailed(e)))
    case Ok(_) =>
      var ex := ex0 + [encryptedDir];
      var inc := TranslatedList(encryptedDir, inc0, encode);
      match FailureAt(inc0, encode)
      case Some(k) => (Lists(inc, ex), Some(EncodeFailed(encode(inc0[k]))))
      case None =>
        (Lists(inc, TranslatedList(encryptedDir, ex, encode)),
         if FailureAt(ex, encode).Some? then Some(EncodeFailed(encode(ex[FailureAt(ex, encode).value]))) else None)
  }

  /** What each step's own call answers in one run, the steps that raise
      no failure (the folders, the hard links, the description update)
      left out. */
  datatype Answers = Answers(
    selection: Result<C14Api.Selection, C14Api.Error>,
    firstMount: Result<nat, seq<string>>,
    encryption: Option<EncryptionFault>,
    transfer: Result<nat, seq<string>>,
    secondMount: Result<nat, seq<string>>,
    rename: Result<(), seq<string>>,
    report: Result<C14Api.ArchiveDetails, C14Api.Error>)

  /** The failure step `s` raises on its own, whatever the others answer. */
  function StepFailure(a: Answers, s: Step): (f: Option<Failure>)
    ensures f.Some? ==> StepOf(f.value) == s
  {
    match s
    case SelectArchive => if a.selection.Err? then Some(SelectionFailed(a.selection.error)) else None
    case MountBuffer => if a.firstMount.Err? then Some(MountFailed(a.firstMount.error)) else None
    case EncryptView => if a.encryption.Some? then Some(EncryptionFailed(a.encryption.value)) else None
    case Transfer => if a.transfer.Err? then Some(TransferFailed(a.transfer.error)) else None
    case Remount => if a.secondMount.Err? then Some(RemountFailed(a.secondMount.error)) else None
    case CommitRename => if a.rename.Err? then Some(RenameFailed(a.rename.error)) else None
    case ReportArchive => if a.report.Err? then Some(ReportFailed(a.report.error)) else None
    case _ => None
  }

  /** The failure that ends the steps before the transfer, if any. */
  function PreparationFailure(encryption: bool, a: Answers): Option<Failure>
  {
    if a.selection.Err? then Some(SelectionFailed(a.selection.error))
    else if a.firstMount.Err? then Some(MountFailed(a.firstMount.error))
    else if encryption && a.encryption.Some? then Some(EncryptionFailed(a.encryption.value))
    else None
  }

  /** The failure that ends the steps from the transfer on, if any. */
  function CompletionFailure(a: Answers): Option<Failure>
  {
    if a.transfer.Err? then Some(TransferFailed(a.transfer.error))
    else if a.secondMount.Err? then Some(RemountFailed(a.secondMount.error))
    else if a.rename.Err? then Some(RenameFailed(a.rename.error))
    else if a.report.Err? then Some(ReportFailed(a.report.error))
    else None
  }

  /** The failure that ends a run with these answers: the first one, in
      the order `doBackup` makes the calls. */
  function FirstFailure(encryption: bool, a: Answers): Option<Failure>
  {
    if PreparationFailure(encryption, a).Some? then PreparationFailure(encryption, a) else CompletionFailure(a)
  }

  /** The first failure is the failure of a scheduled step every scheduled
      step before which, in plan order, raised none; there is none exactly
      when no scheduled step raises one. */
  lemma FirstFailureIsFirstFailingStep(encryption: bool, incremental: bool, a: Answers)
    ensures var f := FirstFailure(encryption, a);
      f.Some? ==> Scheduled(encryption, incremental, StepOf(f.value)) && StepFailure(a, StepOf(f.value)) == f
    ensures var f := FirstFailure(encryption, a);
      f.Some? ==> forall s :: Scheduled(encryption, incremental, s)
                   && Position(encryption, incremental, s) < Position(encryption, incremental, StepOf(f.value))
                   ==> StepFailure(a, s).None?
    ensures FirstFailure(encryption, a).None? <==>
      forall s :: Scheduled(encryption, incremental, s) ==> StepFailure(a, s).None?
  {
    var f := FirstFailure(encryption, a);
    if f.None? {
      forall s | Scheduled(encryption, incremental, s)
        ensures StepFailure(a, s).None?
      {
      }
    } else {
      var n := Position(encryption, incremental, StepOf(f.value));
      forall s | Scheduled(encryption, incremental, s) && Position(encryption, incremental, s) < n
        ensures StepFailure(a, s).None?
      {
      }
      assert StepFailure(a, StepOf(f.value)) == f;
    }
  }

  /** A run whose result is the first failure of its answers, or a
      report when there is none, enters a prefix of the plan: all of it on
      success, up to the failing step otherwise; every step of it before
      the last, and the last too on success, had a call that did not fail,
      and the last step of a failed run is the one whose call raised the
      failure. So a recorded backup always follows a successful transfer
      and rename. */
  lemma RunTrace(encryption: bool, incremental: bool, a: Answers, r: Result<Report, Failure>)
    requires (r.Err? <==> FirstFailure(encryption, a).Some?) && (r.Err? ==> r.error == FirstFailure(encryption, a).value)
    ensures r.Err? ==> Scheduled(encryption, incremental, StepOf(r.error))
    ensures var t := Trace(encryption, incremental, r);
      && 0 < |t| <= |Plan(encryption, incremental)| && t == Plan(encryption, incremental)[..|t|]
      && (r.Ok? ==> t == Plan(encryption, incremental))
      && (r.Err? ==> t[|t| - 1] == StepOf(r.error) && StepFailure(a, t[|t| - 1]) == Some(r.error))
      && (forall k :: 0 <= k < |t| && (r.Ok? || k < |t| - 1) ==> StepFailure(a, t[k]).None?)
      && (RecordBackup in t ==> CommitRename in t && Transfer in t && Remount in t)
  {
    FirstFailureIsFirstFailingStep(encryption, incremental, a);
    var t := Trace(encryption, incremental, r);
    var p := Plan(encryption, incremental);
    if r.Ok? {
      assert |t| == |p|;
      assert t == p[..|p|] == p;
    }
    forall k | 0 <= k < |t| && (r.Ok? || k < |t| - 1)
      ensures StepFailure(a, t[k]).None?
    {
      assert t[k] == p[k];
      PlanPositions(encryption, incremental, k);
    }
    PlanPrefixOrder(t, encryption, incremental);
  }

  // ------------------------------------------------------------ handler

  class Handler {
    const safeName: string
    const incremental: bool
    const encryption: bool
    const encryptionPassword: Option<string>
    const privateKey: string
    const rsyncOptions: string
    const backupRotationOptions: seq<Rotation.OptionValue>
    const backupTempDir: string
    const allMountPointsDir: string
    const mountPointsDir: string
    const c14mountDir: string
    const encryptedDir: string
    var includes: seq<string>
    var excludes: seq<string>
    var encfsConfigLocalFile: string
    var encfsConfigRemoteFile: string

    /** The field assignments of the constructor, once the checks passed. */
    constructor (config: Config, installDir: string, tempSuffix: string, opts: seq<Rotation.OptionValue>)
      ensures safeName == config.safeName && incremental == (config.incremental == Some(true))
      ensures encryption == config.encrypt && encryptionPassword == config.password
      ensures privateKey == config.privateKey && rsyncOptions == config.rsyncOptions
      ensures backupRotationOptions == opts && backupTempDir == "backup_temp_" + tempSuffix
      ensures BackupSteps.MountLayout(allMountPointsDir, mountPointsDir, c14mountDir, encryptedDir)
        == BackupSteps.Layout(installDir, config.safeName)
      ensures includes == config.includes && excludes == config.excludes
      ensures encfsConfigLocalFile == "" && encfsConfigRemoteFile == ""
    {
      var layout := BackupSteps.Layout(installDir, config.safeName);
      safeName := config.safeName;
      incremental := config.incremental == Some(true);
      encryption := config.encrypt;
      encryptionPassword := config.password;
      privateKey := config.privateKey;
      rsyncOptions := config.rsyncOptions;
      backupRotationOptions := opts;
      backupTempDir := "backup_temp_" + tempSuffix;
      allMountPointsDir := layout.allMountPointsDir;
      mountPointsDir := layout.mountPointsDir;
      c14mountDir := layout.c14mountDir;
      encryptedDir := layout.encryptedDir;
      includes := config.includes;
      excludes := config.excludes;
      encfsConfigLocalFile := "";
      encfsConfigRemoteFile := "";
    }

    /** `new BackupHandler($config, ...)`: the password test, then the loop
      over the rotation options, then the fields and the mount folders of
      `createDirsForMountPoints`, which `dirs` lists (none when a check
      rejects the configuration). `tempSuffix` is the random number of the
      temporary folder name. */
    static method Create(config: Config, installDir: string, tempSuffix: string)
      returns (r: Result<Handler, ConfigError>, dirs: seq<string>)
      ensures r.Err? <==> ConfigCheck(config).Err?
      ensures r.Err? ==> r.error == ConfigCheck(config).error && dirs == []
      ensures r.Ok? ==> fresh(r.value) && r.value.backupRotationOptions == ConfigCheck(config).value
      ensures r.Ok? ==> (r.value.safeName == config.safeName && r.value.encryption == config.encrypt
                         && r.value.incremental == (config.incremental == Some(true))
                         && r.value.includes == config.includes && r.value.excludes == config.excludes
                         && r.value.encryptionPassword == config.password
                         && r.value.privateKey == config.privateKey && r.value.rsyncOptions == config.rsyncOptions
                         && r.value.backupTempDir == "backup_temp_" + tempSuffix
                         && r.value.encfsConfigLocalFile == "" && r.value.encfsConfigRemoteFile == "")
      ensures r.Ok? ==> BackupSteps.MountLayout(r.value.allMountPointsDir, r.value.mountPointsDir,
                                                r.value.c14mountDir, r.value.encryptedDir)
                        == BackupSteps.Layout(installDir, config.safeName)
      ensures r.Ok? ==> var l := BackupSteps.Layout(installDir, config.safeName);
        dirs == [l.allMountPointsDir, l.mountPointsDir, l.c14mountDir] + (if config.encrypt then [l.encryptedDir] else [])
    {
      if config.encrypt && EmptyValue(config.password) {
        return Err(PasswordMissing), [];
      }
      var opts := Rotation.BuildRotationOptions(config.rotationOptions);
      if opts.Err? {
        return Err(UnknownInterval(opts.error)), [];
      }
      var h := new Handler(config, installDir, tempSuffix, opts.value);
      dirs := h.CreateDirsForMountPoints();
      return Ok(h), dirs;
    }

    /** `createDirsForMountPoints`: the directories created, each after the
      one it lies in; `mkdirOrDie` never raises, since a directory that
      `mkdir` has just created exists. */
    method CreateDirsForMountPoints() returns (dirs: seq<string>)
      requires allMountPointsDir <= mountPointsDir <= c14mountDir && mountPointsDir <= encryptedDir
      ensures |dirs| >= 3 && dirs[0] == allMountPointsDir && dirs[1] == mountPointsDir && dirs[2] == c14mountDir
      ensures forall i :: 0 < i < |dirs| ==> dirs[i - 1] <= dirs[i] || dirs[1] <= dirs[i]
      ensures encryptedDir in dirs[3..] <==> encryption
      ensures |dirs| == (if encryption then 4 else 3)
    {
      dirs := [allMountPointsDir, mountPointsDir, c14mountDir];
      if encryption {
        dirs := dirs + [encryptedDir];
      }
    }

    /** `createBackupFolders`: the folder of completed backups and the
      temporary folder, both inside the mounted storage. */
    method CreateBackupFolders() returns (dirs: seq<string>)
      ensures |dirs| == 2 && c14mountDir + "/" <= dirs[0] && c14mountDir + "/" <= dirs[1]
      ensures dirs[0][|c14mountDir| + 1..] == BackupSteps.BackupDir && dirs[1][|c14mountDir| + 1..] == backupTempDir
    {
      dirs := [c14mountDir + "/" + BackupSteps.BackupDir, c14mountDir + "/" + backupTempDir];
    }

    /** `encryptDirNames`: append the view's mount point to the excludes,
      then rewrite every include and then every exclude in place, stopping
      at the first failing encode. */
    method EncryptDirNames(encode: string -> ExecResult) returns (r: Result<(), ExecResult>)
      modifies this`includes, this`excludes
      ensures includes == TranslatedList(encryptedDir, old(includes), encode)
      ensures var ex := old(excludes) + [encryptedDir];
        excludes == if FailureAt(old(includes), encode).Some? then ex else TranslatedList(encryptedDir, ex, encode)
      ensures r.Err? <==>
        FailureAt(old(includes), encode).Some? || FailureAt(old(excludes) + [encryptedDir], encode).Some?
      ensures r.Err? && FailureAt(old(includes), encode).Some? ==>
        r.error == encode(old(includes)[FailureAt(old(includes), encode).value])
      ensures var ex := old(excludes) + [encryptedDir];
        r.Err? && FailureAt(old(includes), encode).None? ==> r.error == encode(ex[FailureAt(ex, encode).value])
    {
      excludes := excludes + [encryptedDir];
      ghost var inc0 := includes;
      ghost var ex0 := excludes;
      for i := 0 to |includes|
        invariant |includes| == |inc0| && includes == TranslatedUpTo(encryptedDir, inc0, encode, i)
        invariant forall j :: 0 <= j < i ==> encode(inc0[j]).code == 0
        invariant excludes == ex0
      {
        var res := encode(includes[i]);
        if res.code != 0 {
          assert FailureAt(inc0, encode) == Some(i);
          return Err(res);
        }
        includes := includes[i := encryptedDir + "/" + FirstLine(res.output)];
        assert includes == TranslatedUpTo(encryptedDir, inc0, encode, i + 1);
      }
      assert FailureAt(inc0, encode).None?;
      for i := 0 to |excludes|
        invariant |excludes| == |ex0| && excludes == TranslatedUpTo(encryptedDir, ex0, encode, i)
        invariant forall j :: 0 <= j < i ==> encode(ex0[j]).code == 0
        invariant includes == TranslatedList(encryptedDir, inc0, encode)
      {
        var res := encode(excludes[i]);
        if res.code != 0 {
          assert FailureAt(ex0, encode) == Some(i);
          return Err(res);
        }
        excludes := excludes[i := encryptedDir + "/" + FirstLine(res.output)];
        assert excludes == TranslatedUpTo(encryptedDir, ex0, encode, i + 1);
      }
      assert FailureAt(ex0, encode).None?;
      return Ok(());
    }

    /** `enableEncryption`: record the configuration paths, settle where the
      configuration comes from and mount the view, then translate the lists. */
    method EnableEncryption(env: BackupSteps.EncfsEnv, encode: string -> ExecResult)
      returns (r: Result<BackupSteps.ConfigSource, EncryptionFault>)
      modifies this`includes, this`excludes, this`encfsConfigLocalFile, this`encfsConfigRemoteFile
      ensures (encfsConfigLocalFile, encfsConfigRemoteFile) == BackupSteps.EncfsConfigFiles(
        BackupSteps.MountLayout(allMountPointsDir, mountPointsDir, c14mountDir, encryptedDir), safeName)
      ensures Lists(includes, excludes) == EncryptionStep(env, encode, encryptedDir, old(includes), old(excludes)).0
      ensures r.Err? <==> EncryptionStep(env, encode, encryptedDir, old(includes), old(excludes)).1.Some?
      ensures r.Err? ==> r.error == EncryptionStep(env, encode, encryptedDir, old(includes), old(excludes)).1.value
      ensures BackupSteps.EncryptionSetup(env).Err? ==>
        r == Err(SetupFailed(BackupSteps.EncryptionSetup(env).error))
        && includes == old(includes) && excludes == old(excludes)
      ensures BackupSteps.EncryptionSetup(env).Ok? ==>
        includes == TranslatedList(encryptedDir, old(includes), encode)
        && (r.Ok? <==> FailureAt(old(includes), encode).None?
                       && FailureAt(old(excludes) + [encryptedDir], encode).None?)
        && (r.Ok? ==> r.value == BackupSteps.EncryptionSetup(env).value
                      && excludes == TranslatedList(encryptedDir, old(excludes) + [encryptedDir], encode))
        && (r.Err? ==> r.error.EncodeFailed?)
    {
      var files := BackupSteps.EncfsConfigFiles(
        BackupSteps.MountLayout(allMountPointsDir, mountPointsDir, c14mountDir, encryptedDir), safeName);
      encfsConfigLocalFile := files.0;
      encfsConfigRemoteFile := files.1;
      var setup := BackupSteps.EncryptionSetup(env);
      if setup.Err? {
        return Err(SetupFailed(setup.error));
      }
      var names := EncryptDirNames(encode);
      if names.Err? {
        return Err(EncodeFailed(names.error));
      }
      return Ok(setup.value);
    }

    /** `createHardLinksFromLastBackup`: the name of the latest dated backup
      folder and the copy command that seeds the temporary folder from it,
      or nothing when no folder name parses to a date after the epoch. */
    method CreateHardLinksFromLastBackup(dirs: seq<string>, parse: string -> Option<int>, format: int -> string,
                                         esc: string -> string) returns (latest: Option<string>, cmd: Option<string>)
      ensures latest.Some? <==> BackupSteps.LatestParsed(dirs, parse).Some?
      ensures latest.Some? ==> (latest.value == format(BackupSteps.LatestParsed(dirs, parse).value)
                                && cmd == Some(BackupSteps.HardLinkCommand(c14mountDir, backupTempDir, latest.value, esc)))
      ensures latest.None? ==> cmd.None?
    {
      var date := BackupSteps.LatestBackupDate(dirs, parse);
      if date.None? {
        return None, None;
      }
      var name := format(date.value);
      return Some(name), Some(BackupSteps.HardLinkCommand(c14mountDir, backupTempDir, name, esc));
    }

    /** `renameTempFolder`: the dated folder name and the single move. */
    method RenameTempFolder(now: int, format: int -> string, res: ExecResult) returns (r: Result<string, seq<string>>)
      ensures r.Ok? <==> BackupSteps.RenameOutcome(res).Ok?
      ensures r.Ok? ==> r.value == format(now)
      ensures r.Err? ==> r.error == res.output
    {
      var newDirName := format(now);
      var outcome := BackupSteps.RenameOutcome(res);
      if outcome.Err? {
        return Err(outcome.error);
      }
      return Ok(newDirName);
    }

    // ----------------------------------------------- what a run computes

    /** The archive a look-up by this handler's safe name selects. */
    function Selected(sel: C14Api.SelectionEnv, createdSafeUuid: string): Result<C14Api.Selection, C14Api.Error>
    {
      C14Api.SelectFor(sel, C14Api.GetOrCreateSafeUuid(sel.safes, safeName, createdSafeUuid).uuid)
    }

    /** The run gets as far as enabling encryption: it is configured, and
      the selection and the first mount succeeded. */
    predicate ReachesEncryption(env: RunEnv)
    {
      encryption && Selected(env.selection, env.createdSafeUuid).Ok? && BackupSteps.MountOutcome(env.firstMount).Ok?
    }

    /** The encryption step of this handler, from the lists it starts with. */
    function Encrypted(env: RunEnv, inc0: seq<string>, ex0: seq<string>): (Lists, Option<EncryptionFault>)
    {
      EncryptionStep(env.encfs, env.encode, encryptedDir, inc0, ex0)
    }

    /** The lists at the end of a run that started with `inc0` and `ex0`. */
    function ListsAfter(env: RunEnv, inc0: seq<string>, ex0: seq<string>): Lists
    {
      if ReachesEncryption(env) then Encrypted(env, inc0, ex0).0 else Lists(inc0, ex0)
    }

    /** The configuration paths at the end of a run: set exactly when the
      run enters the encryption step. */
    function ConfigFilesAfter(env: RunEnv, local0: string, remote0: string): (string, string)
    {
      if ReachesEncryption(env) then
        BackupSteps.EncfsConfigFiles(BackupSteps.MountLayout(allMountPointsDir, mountPointsDir, c14mountDir, encryptedDir), safeName)
      else (local0, remote0)
    }

    /** The folder an incremental run seeds the temporary folder from: the
      latest backup date, formatted again. */
    function LinkSource(env: RunEnv): Option<string>
    {
      var latest := BackupSteps.LatestParsed(env.backupDirs, env.parse);
      if incremental && latest.Some? then Some(env.format(latest.value)) else None
    }

    /** The steps before the transfer, in order, each one stopping the run
      with its own failure. */
    function Preparation(env: RunEnv, inc0: seq<string>, ex0: seq<string>): Result<Prepared, Failure>
    {
      match Selected(env.selection, env.createdSafeUuid)
      case Err(e) => Err(SelectionFailed(e))
      case Ok(sel) =>
        match BackupSteps.MountOutcome(env.firstMount)
        case Err(o) => Err(MountFailed(o))
        case Ok(_) =>
          if encryption && Encrypted(env, inc0, ex0).1.Some? then Err(EncryptionFailed(Encrypted(env, inc0, ex0).1.value))
          else Ok(Prepared(C14Api.ArchiveOf(sel), LinkSource(env)))
    }

    /** The first of the transfer, the second mount and the rename to fail. */
    function CommitFailure(env: RunEnv): Option<Failure>
    {
      match BackupSteps.TransferOutcome(env.transfer)
      case Err(o) => Some(TransferFailed(o))
      case Ok(_) =>
        match BackupSteps.MountOutcome(env.secondMount)
        case Err(o) => Some(RemountFailed(o))
        case Ok(_) =>
          match BackupSteps.RenameOutcome(env.rename)
          case Err(o) => Some(RenameFailed(o))
          case Ok(_) => None
    }

    /** The update request `writeBackupInfoToC14` sends for `archive`. */
    function RecordFor(env: RunEnv, archive: C14Api.ArchiveDetails): C14Api.ModifyArchiveRequest
    {
      BackupSteps.RecordRequest(
        C14Api.GetOrCreateSafeUuid(env.recordSafes, safeName, env.recordCreatedSafeUuid).uuid, archive, env.format(env.recordTime))
    }

    /** The archive the final look-up selects, answering from `env.report`. */
    function Reported(env: RunEnv): Result<C14Api.ArchiveDetails, C14Api.Error>
    {
      match Selected(env.report, env.reportCreatedSafeUuid)
      case Err(e) => Err(e)
      case Ok(s) => Ok(C14Api.ArchiveOf(s))
    }

    /** The steps from the transfer on, with the lists the transfer sends. */
    function Completion(env: RunEnv, archive: C14Api.ArchiveDetails, linkedFrom: Option<string>,
                        lists: Lists): Result<Report, Failure>
    {
      match CommitFailure(env)
      case Some(f) => Err(f)
      case None =>
        match Reported(env)
        case Err(e) => Err(ReportFailed(e))
        case Ok(rep) =>
          Ok(Report(archive, linkedFrom,
                    "rsync" + BackupSteps.Spaced(BackupSteps.TransferArgs(archive.ssh.port, rsyncOptions, lists.excludes,
                      lists.includes, archive.ssh.user, archive.ssh.host, backupTempDir, env.esc)),
                    env.format(env.renameTime), RecordFor(env, archive), rep))
    }

    /** The result of a whole run that started with `inc0` and `ex0`. */
    function Outcome(env: RunEnv, inc0: seq<string>, ex0: seq<string>): Result<Report, Failure>
    {
      match Preparation(env, inc0, ex0)
      case Err(f) => Err(f)
      case Ok(p) => Completion(env, p.archive, p.linkedFrom, ListsAfter(env, inc0, ex0))
    }

    /** What each step's own call answers, from the world before the run
      and the lists it started with. */
    function AnswersOf(env: RunEnv, inc0: seq<string>, ex0: seq<string>): Answers
    {
      Answers(Selected(env.selection, env.createdSafeUuid), BackupSteps.MountOutcome(env.firstMount),
              Encrypted(env, inc0, ex0).1, BackupSteps.TransferOutcome(env.transfer),
              BackupSteps.MountOutcome(env.secondMount), BackupSteps.RenameOutcome(env.rename), Reported(env))
    }

    /** The steps before the transfer stop with the first failure of their
      calls. */
    lemma PreparationAnswers(env: RunEnv, inc0: seq<string>, ex0: seq<string>)
      ensures var p := Preparation(env, inc0, ex0);
        var f := PreparationFailure(encryption, AnswersOf(env, inc0, ex0));
        (p.Err? <==> f.Some?) && (p.Err? ==> p.error == f.value)
    {
    }

    /** The steps from the transfer on stop with the first failure of
      their calls. */
    lemma CompletionAnswers(env: RunEnv, inc0: seq<string>, ex0: seq<string>, archive: C14Api.ArchiveDetails,
                            linkedFrom: Option<string>, lists: Lists)
      ensures var c := Completion(env, archive, linkedFrom, lists);
        var f := CompletionFailure(AnswersOf(env, inc0, ex0));
        (c.Err? <==> f.Some?) && (c.Err? ==> c.error == f.value)
    {
    }

    /** A run fails exactly when one of its calls does, with the first
      failure in call order. */
    lemma OutcomeAnswers(env: RunEnv, inc0: seq<string>, ex0: seq<string>)
      ensures var r := Outcome(env, inc0, ex0);
        var f := FirstFailure(encryption, AnswersOf(env, inc0, ex0));
        (r.Err? <==> f.Some?) && (r.Err? ==> r.error == f.value)
    {
      var prep := Preparation(env, inc0, ex0);
      PreparationAnswers(env, inc0, ex0);
      if prep.Ok? {
        var lists := ListsAfter(env, inc0, ex0);
        assert Outcome(env, inc0, ex0) == Completion(env, prep.value.archive, prep.value.linkedFrom, lists);
        CompletionAnswers(env, inc0, ex0, prep.value.archive, prep.value.linkedFrom, lists);
      }
    }

    /** A failed run fails in a scheduled step, with exactly the failure
      that step's call answers, and no scheduled step before it, in plan
      order, failed; a run succeeds exactly when no scheduled step fails. */
    lemma RunFailsAtFirstFailingStep(env: RunEnv, inc0: seq<string>, ex0: seq<string>)
      ensures var r := Outcome(env, inc0, ex0);
        r.Err? ==> Scheduled(encryption, incremental, StepOf(r.error))
                   && StepFailure(AnswersOf(env, inc0, ex0), StepOf(r.error)) == Some(r.error)
      ensures var r := Outcome(env, inc0, ex0);
        r.Err? ==> forall s :: Scheduled(encryption, incremental, s)
                     && Position(encryption, incremental, s) < Position(encryption, incremental, StepOf(r.error))
                     ==> StepFailure(AnswersOf(env, inc0, ex0), s).None?
      ensures Outcome(env, inc0, ex0).Ok? <==>
        forall s :: Scheduled(encryption, incremental, s) ==> StepFailure(AnswersOf(env, inc0, ex0), s).None?
    {
      OutcomeAnswers(env, inc0, ex0);
      FirstFailureIsFirstFailingStep(encryption, incremental, AnswersOf(env, inc0, ex0));
    }

    /** A successful run used the archive the look-up by safe name selected,
      which is active; it recorded the new date in that archive's
      description, seeded the temporary folder from the latest dated backup
      exactly when incremental, renamed the folder to the date of the
      rename and reported an active archive. */
    lemma RunSucceeds(env: RunEnv, inc0: seq<string>, ex0: seq<string>)
      requires Outcome(env, inc0, ex0).Ok?
      ensures var rep := Outcome(env, inc0, ex0).value;
        var sel := Selected(env.selection, env.createdSafeUuid);
        && sel.Ok? && rep.archive == C14Api.ArchiveOf(sel.value) && rep.archive.status == "active"
        && rep.record.archiveUuid == rep.archive.uuid
        && rep.record.description == BackupSteps.NewDescription(rep.archive.description, env.format(env.recordTime))
        && rep.renamedTo == env.format(env.renameTime)
        && rep.reported.status == "active"
      ensures var rep := Outcome(env, inc0, ex0).value;
        var latest := BackupSteps.LatestParsed(env.backupDirs, env.parse);
        && (rep.linkedFrom.Some? <==> incremental && latest.Some?)
        && (rep.linkedFrom.Some? ==> rep.linkedFrom.value == env.format(latest.value))
    {
      var prep := Preparation(env, inc0, ex0);
      var sel := Selected(env.selection, env.createdSafeUuid);
      assert prep.Ok? && sel.Ok?;
      C14Api.SelectedIsUsable(env.selection, C14Api.GetOrCreateSafeUuid(env.selection.safes, safeName, env.createdSafeUuid).uuid);
      var rep := Selected(env.report, env.reportCreatedSafeUuid);
      assert rep.Ok?;
      C14Api.SelectedIsUsable(env.report, C14Api.GetOrCreateSafeUuid(env.report.safes, safeName, env.reportCreatedSafeUuid).uuid);
    }

    /** `doBackup` enters a prefix of the plan whose steps' calls all
      succeeded, but for the last step of a failed run, whose call raised
      the failure the run ends with. */
    lemma TraceFollowsPlan(env: RunEnv, inc0: seq<string>, ex0: seq<string>)
      ensures var r := Outcome(env, inc0, ex0);
        r.Err? ==> Scheduled(encryption, incremental, StepOf(r.error))
      ensures var r := Outcome(env, inc0, ex0);
        var a := AnswersOf(env, inc0, ex0);
        var t := Trace(encryption, incremental, r);
        && 0 < |t| <= |Plan(encryption, incremental)| && t == Plan(encryption, incremental)[..|t|]
        && (r.Ok? ==> t == Plan(encryption, incremental))
        && (r.Err? ==> t[|t| - 1] == StepOf(r.error) && StepFailure(a, t[|t| - 1]) == Some(r.error))
        && (forall k :: 0 <= k < |t| && (r.Ok? || k < |t| - 1) ==> StepFailure(a, t[k]).None?)
        && (RecordBackup in t ==> CommitRename in t && Transfer in t && Remount in t)
    {
      OutcomeAnswers(env, inc0, ex0);
      RunTrace(encryption, incremental, AnswersOf(env, inc0, ex0), Outcome(env, inc0, ex0));
    }

    // --------------------------------------------------- the run itself

    /** The steps of `doBackup` up to the transfer: select the archive,
      mount the storage, create the folders, optionally enable encryption
      and seed the temporary folder from the last backup. */
    method Prepare(env: RunEnv) returns (r: Result<Prepared, Failure>)
      modifies this`includes, this`excludes, this`encfsConfigLocalFile, this`encfsConfigRemoteFile
      ensures r == Preparation(env, old(includes), old(excludes))
      ensures Lists(includes, excludes) == ListsAfter(env, old(includes), old(excludes))
      ensures (encfsConfigLocalFile, encfsConfigRemoteFile)
        == ConfigFilesAfter(env, old(encfsConfigLocalFile), old(encfsConfigRemoteFile))
      ensures r.Ok? ==> r.value.archive.status == "active"
    {
      var safe, selected := C14Api.GetArchiveForBackupBySafeName(env.selection, safeName, env.createdSafeUuid);
      if selected.Err? {
        return Err(SelectionFailed(selected.error));
      }
      C14Api.SelectedIsUsable(env.selection, safe.uuid);
      var mounted := BackupSteps.MountStorage(env.firstMount);
      if mounted.Err? {
        return Err(MountFailed(mounted.error));
      }
      var folders := CreateBackupFolders();
      if encryption {
        var enabled := EnableEncryption(env.encfs, env.encode);
        if enabled.Err? {
          return Err(EncryptionFailed(enabled.error));
        }
      }
      var linkedFrom := None;
      if incremental {
        var cmd;
        linkedFrom, cmd := CreateHardLinksFromLastBackup(env.backupDirs, env.parse, env.format, env.esc);
      }
      return Ok(Prepared(C14Api.ArchiveOf(selected.value), linkedFrom));
    }

    /** The transfer, the second mount and the rename. */
    method Commit(env: RunEnv, ssh: C14Api.SshInfo) returns (transferCommand: string, renamedTo: string,
                                                            failure: Option<Failure>)
      ensures failure == CommitFailure(env)
      ensures transferCommand == "rsync" + BackupSteps.Spaced(BackupSteps.TransferArgs(
        ssh.port, rsyncOptions, excludes, includes, ssh.user, ssh.host, backupTempDir, env.esc))
      ensures failure.None? ==> renamedTo == env.format(env.renameTime)
    {
      transferCommand := BackupSteps.TransferCommand(ssh, rsyncOptions, excludes, includes, backupTempDir, env.esc);
      renamedTo := "";
      var transferred := BackupSteps.RunTransfer(env.transfer);
      if transferred.Err? {
        return transferCommand, renamedTo, Some(TransferFailed(transferred.error));
      }
      var remounted := BackupSteps.MountStorage(env.secondMount);
      if remounted.Err? {
        return transferCommand, renamedTo, Some(RemountFailed(remounted.error));
      }
      var renamed := RenameTempFolder(env.renameTime, env.format, env.rename);
      if renamed.Err? {
        return transferCommand, renamedTo, Some(RenameFailed(renamed.error));
      }
      renamedTo := renamed.value;
      failure := None;
    }

    /** `writeBackupInfoToC14` and the final look-up of the archive: the
      update request for the archive's description, and the archive the
      look-up selects, which may itself create a safe or an archive. */
    method RecordAndReport(env: RunEnv, archive: C14Api.ArchiveDetails)
      returns (record: C14Api.ModifyArchiveRequest, reported: Result<C14Api.ArchiveDetails, C14Api.Error>)
      ensures record == RecordFor(env, archive)
      ensures reported == Reported(env)
      ensures reported.Ok? ==> reported.value.status == "active"
    {
      var recordSafe := C14Api.GetOrCreateSafeUuid(env.recordSafes, safeName, env.recordCreatedSafeUuid);
      record := BackupSteps.RecordRequest(recordSafe.uuid, archive, env.format(env.recordTime));
      var reportSafe, selected := C14Api.GetArchiveForBackupBySafeName(env.report, safeName, env.reportCreatedSafeUuid);
      if selected.Err? {
        return record, Err(selected.error);
      }
      C14Api.SelectedIsUsable(env.report, reportSafe.uuid);
      return record, Ok(C14Api.ArchiveOf(selected.value));
    }

    /** The steps of `doBackup` after the preparation: the transfer, the
      second mount, the rename, the record and the report. */
    method Finish(env: RunEnv, archive: C14Api.ArchiveDetails, linkedFrom: Option<string>)
      returns (r: Result<Report, Failure>)
      ensures r == Completion(env, archive, linkedFrom, Lists(includes, excludes))
    {
      var transferCommand, renamedTo, failure := Commit(env, archive.ssh);
      if failure.Some? {
        return Err(failure.value);
      }
      var record, reported := RecordAndReport(env, archive);
      if reported.Err? {
        return Err(ReportFailed(reported.error));
      }
      r := Ok(Report(archive, linkedFrom, transferCommand, renamedTo, record, reported.value));
    }

    /** `doBackup`: the steps of the plan in order; a failure ends the run
      in the step that raised it. The description update's answer is not
      looked at. */
    method DoBackup(env: RunEnv) returns (r: Result<Report, Failure>)
      modifies this`includes, this`excludes, this`encfsConfigLocalFile, this`encfsConfigRemoteFile
      ensures r == Outcome(env, old(includes), old(excludes))
      ensures Lists(includes, excludes) == ListsAfter(env, old(includes), old(excludes))
      ensures (encfsConfigLocalFile, encfsConfigRemoteFile)
        == ConfigFilesAfter(env, old(encfsConfigLocalFile), old(encfsConfigRemoteFile))
    {
      var prepared := Prepare(env);
      if prepared.Err? {
        return Err(prepared.error);
      }
      r := Finish(env, prepared.value.archive, prepared.value.linkedFrom);
    }
  }
}
