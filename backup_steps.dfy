/** The steps of one backup run other than archive selection and rotation:
    the mount points layout, the description bookkeeping, the hard-link
    source, the transfer command and its retries, the storage mount and its
    retries, the encfs configuration decisions and the translation of one
    path into the encrypted view. Every shell command is an oracle giving an
    exit code and output lines per attempt; `escapeshellarg` is an opaque
    function `esc`. */
module BackupSteps {
  import opened Util
  import C14Api

  /** Runs of the transfer and of the mount before giving up. */
  const Attempts: nat := 20

  /** The folder of completed backups inside the mounted storage. */
  const BackupDir: string := "C14ABT"

  /** A description shorter than this is replaced instead of appended to. */
  const DescriptionMinLength: nat := 5

  /** The sshfs and encfs message that the mount steps tolerate. */
  const MountpointNotEmpty: string := "fuse: mountpoint is not empty"

  /** The exit code the encrypted view mount also accepts. */
  const ViewMountCrashCode: int := 139

  // ------------------------------------------------------------ paths

  /** The directories the constructor derives from the install directory
      (the parent of the source directory) and the safe name. */
  datatype MountLayout = MountLayout(
    allMountPointsDir: string, mountPointsDir: string, c14mountDir: string, encryptedDir: string)

  function Layout(installDir: string, safeName: string): (l: MountLayout)
    ensures l.mountPointsDir == l.allMountPointsDir + safeName + "/"
    ensures l.allMountPointsDir <= l.mountPointsDir
    ensures l.mountPointsDir <= l.c14mountDir && l.mountPointsDir <= l.encryptedDir
    ensures l.c14mountDir != l.encryptedDir
  {
    var all := installDir + "/mountpoints/";
    var mp := all + safeName + "/";
    assert (mp + "c14")[|mp|] == 'c' && (mp + "encrypted")[|mp|] == 'e';
    MountLayout(all, mp, mp + "c14", mp + "encrypted")
  }

  /** Where the encfs configuration lives locally and in the storage;
      the local path carries a doubled '/' because the mount points
      directory already ends in one. */
  function EncfsConfigFiles(layout: MountLayout, safeName: string): (files: (string, string))
    ensures files.0 == layout.mountPointsDir + "/" + safeName + ".encfs6.xml"
    ensures files.1 == layout.c14mountDir + "/" + safeName + ".encfs6.xml"
  {
    (layout.mountPointsDir + "/" + safeName + ".encfs6.xml", layout.c14mountDir + "/" + safeName + ".encfs6.xml")
  }

  // ------------------------------------------------------- description

  /** `writeBackupInfoToC14`'s new description: the date alone when the prior
      description is shorter than five characters, else appended on a new line. */
  function NewDescription(prior: string, newDate: string): string
  {
    if |prior| < DescriptionMinLength then newDate else prior + "\n" + newDate
  }

  /** A description of five characters or more is kept as the head of the
      new one, followed by a line break and the new date. */
  lemma DescriptionKeepsHistory(prior: string, newDate: string)
    ensures var r := NewDescription(prior, newDate);
      && (|prior| < DescriptionMinLength ==> r == newDate)
      && (|prior| >= DescriptionMinLength ==>
            prior <= r && r[|prior|] == '\n' && r[|prior| + 1..] == newDate && |r| == |prior| + 1 + |newDate|)
  {
  }

  /** The new description always ends with the new date, and a date longer
      than five characters makes it count as a recorded backup for rotation. */
  lemma DescriptionRecordsBackup(prior: string, newDate: string)
    ensures var r := NewDescription(prior, newDate);
      && newDate <= r[|r| - |newDate|..]
      && (|newDate| > 5 ==> |r| > 5)
  {
  }

  /** A freshly created archive has the one-space description, so its first
      record is exactly the date. */
  lemma FirstRecordIsTheDate(safeUuid: string, name: string, keyId: string, newDate: string)
    ensures NewDescription(C14Api.CreateArchivePayload(safeUuid, name, keyId).description, newDate) == newDate
  {
  }

  /** The archive update `writeBackupInfoToC14` sends. */
  function RecordRequest(safeUuid: string, archive: C14Api.ArchiveDetails, newDate: string): (m: C14Api.ModifyArchiveRequest)
    ensures m.safeUuid == safeUuid && m.archiveUuid == archive.uuid
    ensures m.description == NewDescription(archive.description, newDate)
  {
    C14Api.ModifyArchiveRequest(safeUuid, archive.uuid, NewDescription(archive.description, newDate))
  }

  // ------------------------------------------------- hard-link source

  /** The latest date among the folder names that parse as one, counting only
      dates after the epoch sentinel; None when there is no such folder. */
  function LatestParsed(dirs: seq<string>, parse: string -> Option<int>): (r: Option<int>)
    ensures r.Some? ==> r.value > 0 && exists i :: 0 <= i < |dirs| && parse(dirs[i]) == Some(r.value)
    ensures r.Some? ==> forall i :: 0 <= i < |dirs| && parse(dirs[i]).Some? ==> parse(dirs[i]).value <= r.value
    ensures r.None? <==> forall i :: 0 <= i < |dirs| ==> parse(dirs[i]).None? || parse(dirs[i]).value <= 0
  {
    if |dirs| == 0 then None
    else
      var prefix := dirs[..|dirs| - 1];
      var prev := LatestParsed(prefix, parse);
      var d := parse(dirs[|dirs| - 1]);
      assert forall i :: 0 <= i < |prefix| ==> dirs[i] == prefix[i];
      if d.Some? && d.value > (if prev.Some? then prev.value else 0) then d else prev
  }

  /** `createHardLinksFromLastBackup`'s scan: the running maximum starts at
      the epoch (0) and moves to every parsed date strictly after it. */
  method LatestBackupDate(dirs: seq<string>, parse: string -> Option<int>) returns (r: Option<int>)
    ensures r == LatestParsed(dirs, parse)
  {
    var last := 0;
    for i := 0 to |dirs|
      invariant LatestParsed(dirs[..i], parse).None? <==> last == 0
      invariant LatestParsed(dirs[..i], parse).Some? ==> last == LatestParsed(dirs[..i], parse).value
    {
      assert dirs[..i + 1][..i] == dirs[..i];
      var date := parse(dirs[i]);
      if date.Some? && date.value > last {
        last := date.value;
      }
    }
    assert dirs[..|dirs|] == dirs;
    r := if last == 0 then None else Some(last);
  }

  /** The copy that seeds the temporary folder from the latest backup. */
  function HardLinkCommand(c14mountDir: string, tempDir: string, latestName: string, esc: string -> string): string
  {
    "cp -al " + esc(c14mountDir + "/" + BackupDir + "/" + latestName + "/.")
      + " " + esc(c14mountDir + "/" + tempDir + "/") + " 2>&1"
  }

  /** A folder that a run renames into place and that parses to a date later
      than every other folder is the next run's hard-link source. */
  lemma RenamedFolderIsNextSource(dirs: seq<string>, parse: string -> Option<int>, newDir: string, t: int)
    requires parse(newDir) == Some(t) && t > 0
    requires forall i :: 0 <= i < |dirs| && parse(dirs[i]).Some? ==> parse(dirs[i]).value < t
    ensures LatestParsed(dirs + [newDir], parse) == Some(t)
  {
    var l := dirs + [newDir];
    assert l[|l| - 1] == newDir;
    var r := LatestParsed(l, parse);
    assert r.Some?;
    var i :| 0 <= i < |l| && parse(l[i]) == Some(r.value);
    if i < |dirs| {
      assert l[i] == dirs[i];
    }
  }

  // ---------------------------------------------------------- transfer

  /** The words after `rsync`, as the command line lists them: the ssh port,
      the configured options, one `--exclude=` per exclude in list order,
      then every include in list order, then the destination. */
  function TransferArgs(port: string, rsyncOptions: string, excludes: seq<string>, includes: seq<string>,
                        user: string, host: string, tempDir: string, esc: string -> string): seq<string>
  {
    ["-e", "'ssh -p " + port + "'", rsyncOptions]
      + ExcludeArgs(excludes, esc) + IncludeArgs(includes, esc)
      + [user + "@" + host + ":/buffer/" + tempDir, "2>&1"]
  }

  /** Word by word: the ssh port and the options first, each exclude as a
      `--exclude=` word in list order, each include in list order, then the
      destination and the redirection. */
  lemma TransferArgsLayout(port: string, rsyncOptions: string, excludes: seq<string>, includes: seq<string>,
                           user: string, host: string, tempDir: string, esc: string -> string)
    ensures var args := TransferArgs(port, rsyncOptions, excludes, includes, user, host, tempDir, esc);
      && |args| == 5 + |excludes| + |includes|
      && args[0] == "-e" && args[1] == "'ssh -p " + port + "'" && args[2] == rsyncOptions
      && (forall i :: 0 <= i < |excludes| ==> args[3 + i] == "--exclude=" + esc(excludes[i]))
      && (forall j :: 0 <= j < |includes| ==> args[3 + |excludes| + j] == esc(includes[j]))
      && args[|args| - 2] == user + "@" + host + ":/buffer/" + tempDir && args[|args| - 1] == "2>&1"
  {
  }

  function ExcludeArgs(excludes: seq<string>, esc: string -> string): (r: seq<string>)
    ensures |r| == |excludes|
    ensures forall i :: 0 <= i < |excludes| ==> r[i] == "--exclude=" + esc(excludes[i])
  {
    seq(|excludes|, i requires 0 <= i < |excludes| => "--exclude=" + esc(excludes[i]))
  }

  function IncludeArgs(includes: seq<string>, esc: string -> string): (r: seq<string>)
    ensures |r| == |includes|
    ensures forall j :: 0 <= j < |includes| ==> r[j] == esc(includes[j])
  {
    seq(|includes|, j requires 0 <= j < |includes| => esc(includes[j]))
  }

  /** Each word preceded by one space. */
  function Spaced(words: seq<string>): string
  {
    if |words| == 0 then "" else Spaced(words[..|words| - 1]) + " " + words[|words| - 1]
  }

  lemma {:induction false} SpacedAppend(a: seq<string>, b: seq<string>)
    ensures Spaced(a + b) == Spaced(a) + Spaced(b)
    decreases |b|
  {
    if |b| > 0 {
      var b' := b[..|b| - 1];
      assert (a + b)[..|a + b| - 1] == a + b';
      SpacedAppend(a, b');
    } else {
      assert a + b == a;
    }
  }

  lemma SpacedSnoc(words: seq<string>, w: string)
    ensures Spaced(words + [w]) == Spaced(words) + " " + w
  {
    assert (words + [w])[..|words|] == words;
  }

  /** Appending one word to the command keeps it equal to `rsync` followed
      by the spaced words. */
  lemma CommandSnoc(cmd: string, words: seq<string>, w: string)
    requires cmd == "rsync" + Spaced(words)
    ensures cmd + " " + w == "rsync" + Spaced(words + [w])
  {
    SpacedSnoc(words, w);
  }

  /** The `foreach` over the excludes: one ` --exclude=<arg>` per entry. */
  method AppendExcludes(cmd0: string, ghost words: seq<string>, excludes: seq<string>, esc: string -> string)
    returns (cmd: string)
    requires cmd0 == "rsync" + Spaced(words)
    ensures cmd == "rsync" + Spaced(words + ExcludeArgs(excludes, esc))
  {
    cmd := cmd0;
    var ex := ExcludeArgs(excludes, esc);
    assert words + ex[..0] == words;
    for i := 0 to |excludes|
      invariant cmd == "rsync" + Spaced(words + ex[..i])
    {
      var arg := "--exclude=" + esc(excludes[i]);
      assert arg == ex[i];
      CommandSnoc(cmd, words + ex[..i], arg);
      assert ex[..i + 1] == ex[..i] + [arg];
      assert words + ex[..i + 1] == words + ex[..i] + [arg];
      cmd := cmd + " " + arg;
    }
    assert ex[..|excludes|] == ex;
  }

  /** The `foreach` over the includes: one ` <arg>` per entry. */
  method AppendIncludes(cmd0: string, ghost words: seq<string>, includes: seq<string>, esc: string -> string)
    returns (cmd: string)
    requires cmd0 == "rsync" + Spaced(words)
    ensures cmd == "rsync" + Spaced(words + IncludeArgs(includes, esc))
  {
    cmd := cmd0;
    var inc := IncludeArgs(includes, esc);
    assert words + inc[..0] == words;
    for j := 0 to |includes|
      invariant cmd == "rsync" + Spaced(words + inc[..j])
    {
      CommandSnoc(cmd, words + inc[..j], inc[j]);
      assert inc[..j + 1] == inc[..j] + [inc[j]];
      assert words + inc[..j + 1] == words + inc[..j] + [inc[j]];
      cmd := cmd + " " + esc(includes[j]);
    }
    assert inc[..|includes|] == inc;
  }

  /** `makeBackup`'s command construction: the fixed head, then one
      appended argument per exclude, then one per include, then the
      destination. */
  method TransferCommand(ssh: C14Api.SshInfo, rsyncOptions: string, excludes: seq<string>, includes: seq<string>,
                         tempDir: string, esc: string -> string) returns (cmd: string)
    ensures cmd == "rsync" + Spaced(TransferArgs(ssh.port, rsyncOptions, excludes, includes, ssh.user, ssh.host, tempDir, esc))
  {
    var sshCommand := "'ssh -p " + ssh.port + "'";
    CommandSnoc("rsync", [], "-e");
    CommandSnoc("rsync" + " " + "-e", ["-e"], sshCommand);
    CommandSnoc("rsync" + " " + "-e" + " " + sshCommand, ["-e", sshCommand], rsyncOptions);
    var head := ["-e", sshCommand, rsyncOptions];
    assert ["-e", sshCommand] + [rsyncOptions] == head;
    cmd := "rsync" + " " + "-e" + " " + sshCommand + " " + rsyncOptions;
    cmd := AppendExcludes(cmd, head, excludes, esc);
    ghost var words := head + ExcludeArgs(excludes, esc);
    cmd := AppendIncludes(cmd, words, includes, esc);
    words := words + IncludeArgs(includes, esc);
    var destination := ssh.user + "@" + ssh.host + ":/buffer/" + tempDir;
    CommandSnoc(cmd, words, destination);
    CommandSnoc(cmd + " " + destination, words + [destination], "2>&1");
    var tail := [destination, "2>&1"];
    assert [destination] + ["2>&1"] == tail;
    assert words + [destination] + ["2>&1"] == words + tail;
    assert words + tail == TransferArgs(ssh.port, rsyncOptions, excludes, includes, ssh.user, ssh.host, tempDir, esc);
    cmd := cmd + " " + destination + " " + "2>&1";
  }

  /** The output lines the first `n` attempts have accumulated: PHP's `exec`
      appends to the array it is given. */
  function Accumulated(run: nat -> ExecResult, n: nat): seq<string>
  {
    if n == 0 then [] else Accumulated(run, n - 1) + run(n - 1).output
  }

  lemma {:induction false} AccumulatedPrefix(run: nat -> ExecResult, k: nat, n: nat)
    requires k <= n
    ensures Accumulated(run, k) <= Accumulated(run, n)
    decreases n
  {
    if k < n {
      AccumulatedPrefix(run, k, n - 1);
    }
  }

  /** rsync's success and partial-transfer exit codes both end the retries. */
  predicate TransferDone(code: int)
  {
    code == 0 || code == 23
  }

  /** Which of the attempts end the transfer. */
  function TransferVerdicts(run: nat -> ExecResult): (v: seq<bool>)
    ensures |v| == Attempts
  {
    seq(Attempts, j requires 0 <= j => TransferDone(run(j).code))
  }

  /** The transfer retries from attempt `i` on. */
  function TransferFrom(run: nat -> ExecResult, i: nat): Result<nat, seq<string>>
  {
    match FirstTrue(TransferVerdicts(run), i)
    case Some(k) => Ok(k)
    case None => Err(Accumulated(run, Attempts))
  }

  /** The attempt that ends the transfer, or the accumulated output when
      every attempt failed. */
  function TransferOutcome(run: nat -> ExecResult): Result<nat, seq<string>>
  {
    TransferFrom(run, 0)
  }

  /** The transfer ends at the first attempt whose code is 0 or 23, and
      fails, with everything the attempts printed, only when none is. */
  lemma TransferOutcomeMeans(run: nat -> ExecResult)
    ensures var r := TransferOutcome(run);
      && (r.Ok? ==> (r.value < Attempts && TransferDone(run(r.value).code)
                     && forall j :: 0 <= j < r.value ==> !TransferDone(run(j).code)))
      && (r.Err? <==> forall j :: 0 <= j < Attempts ==> !TransferDone(run(j).code))
      && (r.Err? ==> r.error == Accumulated(run, Attempts))
  {
    var v := TransferVerdicts(run);
    FirstTrueFrom(v, 0);
    assert forall j :: 0 <= j < Attempts ==> (v[j] <==> TransferDone(run(j).code));
  }

  /** `makeBackup`'s retry loop: stop at the first attempt whose code is 0 or
      23, fail after `Attempts` attempts. */
  method RunTransfer(run: nat -> ExecResult) returns (r: Result<nat, seq<string>>)
    ensures r == TransferOutcome(run)
  {
    var out: seq<string> := [];
    for i := 0 to Attempts
      invariant out == Accumulated(run, i)
      invariant TransferOutcome(run) == TransferFrom(run, i)
    {
      var res := run(i);
      out := out + res.output;
      if res.code == 0 || res.code == 23 {
        return Ok(i);
      }
    }
    return Err(out);
  }

  // ------------------------------------------------------------- mount

  /** The success test of `mountC14Storage` after an attempt, as written: exit
      code 0, the "mountpoint is not empty" line anywhere in the accumulated
      output, or a truthy first accumulated line. The last test comes from a
      misplaced parenthesis: the offset argument of `substr` is the boolean
      `strlen(..) === '..'`, which is false, so `substr` returns the whole first
      line, whose PHP truthiness decides. */
  predicate MountAccepts(code: int, output: seq<string>)
  {
    code == 0 || MountpointNotEmpty in output || Truthy(FirstLine(output))
  }

  /** Which of the attempts pass the mount test. */
  function MountVerdicts(run: nat -> ExecResult): (v: seq<bool>)
    ensures |v| == Attempts
  {
    seq(Attempts, j requires 0 <= j => MountAccepts(run(j).code, Accumulated(run, j + 1)))
  }

  /** The mount retries from attempt `i` on. */
  function MountFrom(run: nat -> ExecResult, i: nat): Result<nat, seq<string>>
  {
    match FirstTrue(MountVerdicts(run), i)
    case Some(k) => Ok(k)
    case None => Err(Accumulated(run, Attempts))
  }

  /** The attempt after which the storage counts as mounted, or the
      accumulated output when no attempt passed the test. */
  function MountOutcome(run: nat -> ExecResult): Result<nat, seq<string>>
  {
    MountFrom(run, 0)
  }

  /** The mount succeeds at the first attempt that passes the test on the
      output accumulated so far, and fails only when no attempt does. */
  lemma MountOutcomeMeans(run: nat -> ExecResult)
    ensures var r := MountOutcome(run);
      && (r.Ok? ==> (r.value < Attempts && MountAccepts(run(r.value).code, Accumulated(run, r.value + 1))
                     && forall j :: 0 <= j < r.value ==> !MountAccepts(run(j).code, Accumulated(run, j + 1))))
      && (r.Err? <==> forall j :: 0 <= j < Attempts ==> !MountAccepts(run(j).code, Accumulated(run, j + 1)))
      && (r.Err? ==> r.error == Accumulated(run, Attempts))
  {
    var v := MountVerdicts(run);
    FirstTrueFrom(v, 0);
    assert forall j :: 0 <= j < Attempts ==> (v[j] <==> MountAccepts(run(j).code, Accumulated(run, j + 1)));
  }

  /** `mountC14Storage`'s retry loop over the accumulating output. */
  method MountStorage(run: nat -> ExecResult) returns (r: Result<nat, seq<string>>)
    ensures r == MountOutcome(run)
  {
    var output: seq<string> := [];
    for i := 0 to Attempts
      invariant output == Accumulated(run, i)
      invariant MountOutcome(run) == MountFrom(run, i)
    {
      var res := run(i);
      output := output + res.output;
      assert output == Accumulated(run, i + 1);
      if res.code == 0 || MountpointNotEmpty in output || Truthy(FirstLine(output)) {
        return Ok(i);
      }
    }
    return Err(output);
  }

  /** The consequence of the misplaced parenthesis: a first attempt that
      prints any first line other than "" and "0" (an sshfs error message,
      say) counts as a successful mount, whatever its exit code. */
  lemma MountAcceptsAnyMessage(run: nat -> ExecResult)
    requires |run(0).output| > 0 && Truthy(run(0).output[0])
    ensures MountOutcome(run) == Ok(0)
  {
    assert Accumulated(run, 1) == run(0).output;
    MountOutcomeMeans(run);
  }

  /** Once some attempt has printed a line, the first accumulated line never
      changes, so later attempts are judged by that same line. */
  lemma MountFirstLineSticky(run: nat -> ExecResult, k: nat, n: nat)
    requires k <= n && |Accumulated(run, k)| > 0
    ensures FirstLine(Accumulated(run, n)) == FirstLine(Accumulated(run, k))
  {
    AccumulatedPrefix(run, k, n);
  }

  /** A mount that fails has seen, on every attempt, a non-zero code, no
      "mountpoint is not empty" line so far and a first line that is "" or "0". */
  lemma MountFailureMeans(run: nat -> ExecResult, j: nat)
    requires MountOutcome(run).Err? && j < Attempts
    ensures run(j).code != 0
    ensures MountpointNotEmpty !in Accumulated(run, j + 1)
    ensures !Truthy(FirstLine(Accumulated(run, j + 1)))
  {
    MountOutcomeMeans(run);
  }

  // ------------------------------------------------------------ rename

  /** `renameTempFolder`: one run, never retried; any non-zero code fails. */
  function RenameOutcome(res: ExecResult): (r: Result<(), seq<string>>)
    ensures r.Ok? <==> res.code == 0
    ensures r.Err? ==> r.error == res.output
  {
    if res.code != 0 then Err(res.output) else Ok(())
  }

  // -------------------------------------------------------- encryption

  /** What the file system and the encfs runs answer during `enableEncryption`. */
  datatype EncfsEnv = EncfsEnv(
    localExists: bool,
    remoteExists: bool,
    copyRemoteOk: bool,
    createCode: int,
    copyCreatedOk: bool,
    viewCode: int,
    viewOutput: seq<string>)

  /** Where the configuration used for the view came from. */
  datatype ConfigSource = UsedLocal | RecoveredRemote | CreatedNew

  datatype EncryptionError = CannotCopyConfig | CannotCreateConfig | CannotMountView

  /** The view mount succeeds on code 0 or 139, or when its first output line
      reports that the mount point is not empty. */
  predicate ViewMountAccepts(code: int, output: seq<string>)
  {
    code == 0 || code == ViewMountCrashCode || (|output| > 0 && output[0] == MountpointNotEmpty)
  }

  /** The decision tree of `enableEncryption` up to the name translation.
      When a new configuration is created, `$stdout` holds the string read
      from the pipe, not an array, so the "mountpoint is not empty" exception
      there never applies and every non-zero code fails. */
  function EncryptionSetup(env: EncfsEnv): (r: Result<ConfigSource, EncryptionError>)
  {
    var source: Result<ConfigSource, EncryptionError> :=
      if env.localExists then Ok(UsedLocal)
      else if env.remoteExists then (if env.copyRemoteOk then Ok(RecoveredRemote) else Err(CannotCopyConfig))
      else if env.createCode != 0 then Err(CannotCreateConfig)
      else if !env.copyCreatedOk then Err(CannotCopyConfig)
      else Ok(CreatedNew);
    if source.Err? then source
    else if !ViewMountAccepts(env.viewCode, env.viewOutput) then Err(CannotMountView)
    else source
  }

  /** With the configuration in place, the view mount decides, and it
      tolerates exactly codes 0 and 139 and the "not empty" message. */
  lemma ViewMountTolerance(env: EncfsEnv)
    requires env.localExists || (env.remoteExists && env.copyRemoteOk)
      || (!env.remoteExists && env.createCode == 0 && env.copyCreatedOk)
    ensures EncryptionSetup(env).Ok? <==>
      env.viewCode == 0 || env.viewCode == 139 || (|env.viewOutput| > 0 && env.viewOutput[0] == MountpointNotEmpty)
  {
  }

  /** A local configuration is used as it is: nothing is copied or created. */
  lemma LocalConfigNeverReprovisioned(env: EncfsEnv)
    requires env.localExists
    ensures EncryptionSetup(env) == (if ViewMountAccepts(env.viewCode, env.viewOutput) then Ok(UsedLocal) else Err(CannotMountView))
  {
  }

  /** Without a local configuration, a remote one is copied rather than a
      new one created, and a failed copy is fatal. */
  lemma RemoteConfigRecovered(env: EncfsEnv)
    requires !env.localExists && env.remoteExists
    ensures EncryptionSetup(env) != Ok(CreatedNew) && EncryptionSetup(env) != Err(CannotCreateConfig)
    ensures !env.copyRemoteOk ==> EncryptionSetup(env) == Err(CannotCopyConfig)
  {
  }

  /** Creating a configuration fails on any non-zero code, whatever encfs printed. */
  lemma CreateToleratesNothing(env: EncfsEnv)
    requires !env.localExists && !env.remoteExists && env.createCode != 0
    ensures EncryptionSetup(env) == Err(CannotCreateConfig)
  {
  }

  /** `convertPlainDirNameToEncryptedDirName`: the encoded name (the first
      output line, "" when there is none) under the encrypted view, or the
      failed run. */
  function ConvertName(encryptedDir: string, res: ExecResult): (r: Result<string, ExecResult>)
    ensures r.Err? <==> res.code != 0
    ensures r.Ok? ==> encryptedDir + "/" <= r.value && r.value[|encryptedDir| + 1..] == FirstLine(res.output)
  {
    if res.code != 0 then Err(res) else Ok(encryptedDir + "/" + FirstLine(res.output))
  }
}
