/** The remote archive API client: lookups over the lists the provider
    returns, and the "reuse a writable archive or create one and wait for it"
    protocol. Every HTTP exchange is an input: a list the provider returned,
    or the answer it gives to the n-th request. */
module C14Api {
  import opened Util

  /** Seconds to wait in total before a new archive must be active. */
  const MaxWaitTime: nat := 600
  /** Seconds slept before each status fetch while waiting. */
  const PollInterval: nat := 5
  /** Status fetches the waiting loop can make at most. */
  const MaxFetches: nat := MaxWaitTime / PollInterval
  const ArchiveNamePrefix: string := "C14ABT"

  datatype Safe = Safe(name: string, uuid: string)

  /** An element of the archive list of a safe. */
  datatype ArchiveEntry = ArchiveEntry(name: string, uuid: string, description: string)

  /** SSH endpoint of an archive's bucket. */
  datatype SshInfo = SshInfo(user: string, host: string, port: string)

  /** The details of one archive. `archivalDays` is the days component of the
      distance between its bucket's archival date and now, or None when the
      bucket carries no archival date. */
  datatype ArchiveDetails = ArchiveDetails(
    uuid: string, name: string, status: string, description: string,
    archivalDays: Option<nat>, ssh: SshInfo)

  datatype SshKey = SshKey(uuid: string, fingerprint: string)

  datatype CreateArchiveRequest = CreateArchiveRequest(
    safeUuid: string, name: string, description: string, parity: string,
    protocols: seq<string>, sshKeys: seq<string>, days: nat, platforms: seq<string>)

  datatype ModifyArchiveRequest = ModifyArchiveRequest(
    safeUuid: string, archiveUuid: string, description: string)

  datatype Error = FingerprintToolMissing | ActivationTimeout

  // ---------------------------------------------------------------- safes

  /** The outcome of `getOrCreateSafeUUID`: the uuid, and whether `createSafe` ran. */
  datatype SafeLookup = SafeLookup(uuid: string, created: bool)

  /** `getOrCreateSafeUUID`: the first listed safe with exactly this name, or
      the uuid the provider gives the safe created under that name. */
  function GetOrCreateSafeUuid(safes: seq<Safe>, name: string, createdUuid: string): (r: SafeLookup)
    ensures !r.created <==> exists i :: 0 <= i < |safes| && safes[i].name == name
    ensures !r.created ==> exists i :: (0 <= i < |safes| && safes[i].name == name
      && r.uuid == safes[i].uuid && forall j :: 0 <= j < i ==> safes[j].name != name)
    ensures r.created ==> r.uuid == createdUuid
  {
    match FirstIndex(safes, (s: Safe) => s.name == name)
    case Some(i) => SafeLookup(safes[i].uuid, false)
    case None => SafeLookup(createdUuid, true)
  }

  /** The safe whose archives `getArchive(ref)` lists: the first safe named
      `ref` or with uuid `ref`, provided its uuid is truthy. None means no
      archive query is made and the method returns null. */
  function ArchiveListSafe(safes: seq<Safe>, ref: string): (r: Option<string>)
    ensures r.Some? ==> exists i :: (0 <= i < |safes| && (safes[i].name == ref || safes[i].uuid == ref)
      && r.value == safes[i].uuid && Truthy(r.value)
      && forall j :: 0 <= j < i ==> safes[j].name != ref && safes[j].uuid != ref)
    ensures (forall i :: 0 <= i < |safes| ==> safes[i].name != ref && safes[i].uuid != ref) ==> r.None?
    ensures forall i :: (0 <= i < |safes| && (safes[i].name == ref || safes[i].uuid == ref)
      && (forall j :: 0 <= j < i ==> safes[j].name != ref && safes[j].uuid != ref)
      ==> r == (if Truthy(safes[i].uuid) then Some(safes[i].uuid) else None))
  {
    match FirstIndex(safes, (s: Safe) => s.name == ref || s.uuid == ref)
    case Some(i) => if Truthy(safes[i].uuid) then Some(safes[i].uuid) else None
    case None => None
  }

  /** `getArchive(ref)`: the archive list of the matched safe, or None (null). */
  function GetArchive(safes: seq<Safe>, ref: string, listing: string -> seq<ArchiveEntry>): (r: Option<seq<ArchiveEntry>>)
    ensures r.Some? <==> ArchiveListSafe(safes, ref).Some?
    ensures r.Some? ==> r.value == listing(ArchiveListSafe(safes, ref).value)
    ensures forall i :: (0 <= i < |safes| && (safes[i].name == ref || safes[i].uuid == ref)
      && (forall j :: 0 <= j < i ==> safes[j].name != ref && safes[j].uuid != ref)
      ==> r == (if Truthy(safes[i].uuid) then Some(listing(safes[i].uuid)) else None))
  {
    match ArchiveListSafe(safes, ref)
    case Some(u) => Some(listing(u))
    case None => None
  }

  // ------------------------------------------------------------- ssh keys

  predicate FingerprintChar(c: char)
  {
    'a' <= c <= 'z' || '0' <= c <= '9' || c == ':'
  }

  /** The longest prefix made of `[a-z0-9:]` characters. */
  function FingerprintRun(s: string): (r: string)
    ensures r <= s
    ensures forall i :: 0 <= i < |r| ==> FingerprintChar(r[i])
    ensures |r| < |s| ==> !FingerprintChar(s[|r|])
  {
    if |s| > 0 && FingerprintChar(s[0]) then [s[0]] + FingerprintRun(s[1..]) else ""
  }

  /** `preg_match('/MD5:([a-z0-9:]*)/', $line)` group 1: the run after the
      leftmost "MD5:", or None when the line has no "MD5:". */
  function Fingerprint(line: string): (r: Option<string>)
    ensures r.Some? <==> Contains(line, "MD5:")
    ensures r.Some? ==> Contains(line, "MD5:" + r.value)
    decreases |line|
  {
    if "MD5:" <= line then
      var run := FingerprintRun(line[4..]);
      assert ("MD5:" + run) <= line by {
        assert line == "MD5:" + line[4..];
      }
      Some(run)
    else if |line| == 0 then None
    else Fingerprint(line[1..])
  }

  /** The fingerprint is the whole `[a-z0-9:]` run after the leftmost
      "MD5:" of the line. */
  lemma {:induction false} FingerprintLeftmost(line: string)
    ensures var r := Fingerprint(line);
      r.Some? ==> exists i :: (0 <= i <= |line| - 4 && "MD5:" <= line[i..]
        && (forall j :: 0 <= j < i ==> !("MD5:" <= line[j..])) && r.value == FingerprintRun(line[i + 4..]))
    decreases |line|
  {
    if "MD5:" <= line {
      assert line[0..] == line && line[0 + 4..] == line[4..];
    } else if |line| > 0 && Fingerprint(line).Some? {
      var rest := line[1..];
      FingerprintLeftmost(rest);
      var i :| 0 <= i <= |rest| - 4 && "MD5:" <= rest[i..]
        && (forall j :: 0 <= j < i ==> !("MD5:" <= rest[j..])) && Fingerprint(rest).value == FingerprintRun(rest[i + 4..]);
      assert rest[i..] == line[i + 1..] && rest[i + 4..] == line[i + 1 + 4..];
      forall j | 0 <= j < i + 1
        ensures !("MD5:" <= line[j..])
      {
        if j > 0 {
          assert line[j..] == rest[j - 1..];
        }
      }
    }
  }

  /** Where the ssh key id comes from. */
  datatype KeyLookup = KeyFound(uuid: string) | KeyRegistered(id: string)

  /** `getSSHKeyId`: fails when the fingerprint tool printed nothing; else the
      uuid of the first registered key whose fingerprint equals the one
      extracted from the first output line; else the id the provider returns
      for the newly registered key. A line without "MD5:" yields null, which
      equals no fingerprint, so the key is registered. */
  function SshKeyId(fingerprintOutput: seq<string>, keys: seq<SshKey>, registeredId: string): (r: Result<KeyLookup, Error>)
    ensures r.Err? <==> fingerprintOutput == []
    ensures r.Ok? && r.value.KeyFound? ==> exists i :: (0 <= i < |keys|
      && Fingerprint(fingerprintOutput[0]) == Some(keys[i].fingerprint) && r.value.uuid == keys[i].uuid
      && forall j :: 0 <= j < i ==> Fingerprint(fingerprintOutput[0]) != Some(keys[j].fingerprint))
    ensures r.Ok? && r.value.KeyRegistered? ==> (r.value.id == registeredId
      && forall j :: 0 <= j < |keys| ==> Fingerprint(fingerprintOutput[0]) != Some(keys[j].fingerprint))
  {
    if fingerprintOutput == [] then Err(FingerprintToolMissing)
    else
      var fp := Fingerprint(fingerprintOutput[0]);
      match FirstIndex(keys, (k: SshKey) => fp == Some(k.fingerprint))
      case Some(i) => Ok(KeyFound(keys[i].uuid))
      case None => Ok(KeyRegistered(registeredId))
  }

  function KeyIdOf(k: KeyLookup): string
  {
    match k
    case KeyFound(u) => u
    case KeyRegistered(id) => id
  }

  /** The body `createArchive` posts. */
  function CreateArchivePayload(safeUuid: string, name: string, keyId: string): CreateArchiveRequest
  {
    CreateArchiveRequest(safeUuid, name, " ", "standard", ["ssh"], [keyId], 7, ["1"])
  }

  // ------------------------------------------------------ archive selection

  /** An archive whose details allow writing to it: active, with an archival
      date whose day-component distance from now is positive. */
  predicate Writable(d: ArchiveDetails)
  {
    d.status == "active" && d.archivalDays.Some? && d.archivalDays.value > 0
  }

  /** A listed archive that qualifies: its name contains the prefix and its
      details are writable. */
  predicate Qualifies(e: ArchiveEntry, details: string -> ArchiveDetails)
  {
    Contains(e.name, ArchiveNamePrefix) && Writable(details(e.uuid))
  }

  /** What the provider answers while `getArchiveForBackupByUUID` runs. */
  datatype SelectionEnv = SelectionEnv(
    safes: seq<Safe>,
    listing: string -> seq<ArchiveEntry>,
    details: string -> ArchiveDetails,
    fingerprintOutput: seq<string>,
    keys: seq<SshKey>,
    registeredKeyId: string,
    timestamp: string,
    poll: nat -> ArchiveDetails)

  datatype Selection =
    | Reused(archive: ArchiveDetails)
    | Created(request: CreateArchiveRequest, archive: ArchiveDetails, fetches: nat)

  function ArchiveOf(s: Selection): ArchiveDetails
  {
    match s
    case Reused(a) => a
    case Created(_, a, _) => a
  }

  /** The archives the selection loop considers: an absent (null) list has none. */
  function Candidates(env: SelectionEnv, safeUuid: string): seq<ArchiveEntry>
  {
    match GetArchive(env.safes, safeUuid, env.listing)
    case Some(l) => l
    case None => []
  }

  /** Whether each of the status fetches the waiting loop may make finds the
      new archive active. */
  function ActiveFetches(env: SelectionEnv): (v: seq<bool>)
    ensures |v| == MaxFetches
  {
    seq(MaxFetches, k requires 0 <= k => env.poll(k).status == "active")
  }

  /** What `getArchiveForBackupByUUID` returns: the details of the first
      listed archive that qualifies; when none does, one archive named
      prefix + " " + the timestamp is created and its status fetched every
      PollInterval seconds until it is active, giving up once more than
      MaxWaitTime seconds have been waited. */
  function SelectFor(env: SelectionEnv, safeUuid: string): Result<Selection, Error>
  {
    var list := Candidates(env, safeUuid);
    match FirstIndex(list, (e: ArchiveEntry) => Qualifies(e, env.details))
    case Some(i) => Ok(Reused(env.details(list[i].uuid)))
    case None =>
      match SshKeyId(env.fingerprintOutput, env.keys, env.registeredKeyId)
      case Err(e) => Err(e)
      case Ok(key) =>
        match FirstTrue(ActiveFetches(env), 0)
        case None => Err(ActivationTimeout)
        case Some(k) =>
          Ok(Created(CreateArchivePayload(safeUuid, ArchiveNamePrefix + " " + env.timestamp, KeyIdOf(key)),
                     env.poll(k), k + 1))
  }

  /** The selection rule: an archive is reused exactly when a listed one
      qualifies, and it is the first such; otherwise the created archive's
      request carries the prefixed name and the key, and the archive returned
      is the first active one of at most 120 status fetches; the two errors
      occur exactly when no archive qualifies and, respectively, ssh-keygen
      printed nothing, or no fetch found the archive active. */
  predicate SelectionRule(env: SelectionEnv, safeUuid: string, r: Result<Selection, Error>)
  {
    ReuseRule(env, safeUuid, r) && CreateRule(env, safeUuid, r) && ErrorRule(env, safeUuid, r)
  }

  /** The reuse part of the rule. */
  predicate ReuseRule(env: SelectionEnv, safeUuid: string, r: Result<Selection, Error>)
  {
    var list := Candidates(env, safeUuid);
    && (r.Ok? && r.value.Reused? <==> exists i :: 0 <= i < |list| && Qualifies(list[i], env.details))
    && (r.Ok? && r.value.Reused? ==> exists i :: (0 <= i < |list| && Qualifies(list[i], env.details)
         && r.value.archive == env.details(list[i].uuid)
         && forall j :: 0 <= j < i ==> !Qualifies(list[j], env.details)))
  }

  /** The creation part of the rule. */
  predicate CreateRule(env: SelectionEnv, safeUuid: string, r: Result<Selection, Error>)
  {
    r.Ok? && r.value.Created? ==>
      var key := SshKeyId(env.fingerprintOutput, env.keys, env.registeredKeyId);
      && key.Ok?
      && r.value.request == CreateArchivePayload(safeUuid, ArchiveNamePrefix + " " + env.timestamp, KeyIdOf(key.value))
      && 1 <= r.value.fetches <= MaxFetches
      && r.value.archive == env.poll(r.value.fetches - 1) && r.value.archive.status == "active"
      && forall k :: 0 <= k < r.value.fetches - 1 ==> env.poll(k).status != "active"
  }

  /** The two errors of the rule. */
  predicate ErrorRule(env: SelectionEnv, safeUuid: string, r: Result<Selection, Error>)
  {
    var list := Candidates(env, safeUuid);
    && (r == Err(FingerprintToolMissing) <==>
         (forall e :: e in list ==> !Qualifies(e, env.details)) && env.fingerprintOutput == [])
    && (r == Err(ActivationTimeout) <==>
         (forall e :: e in list ==> !Qualifies(e, env.details))
         && env.fingerprintOutput != [] && forall k :: 0 <= k < MaxFetches ==> env.poll(k).status != "active")
  }

  /** The selection follows the rule. */
  lemma SelectForMeans(env: SelectionEnv, safeUuid: string)
    ensures SelectionRule(env, safeUuid, SelectFor(env, safeUuid))
  {
    SelectForReuses(env, safeUuid);
    SelectForCreates(env, safeUuid);
    SelectForErrs(env, safeUuid);
  }

  /** The reuse part holds of the selection. */
  lemma SelectForReuses(env: SelectionEnv, safeUuid: string)
    ensures ReuseRule(env, safeUuid, SelectFor(env, safeUuid))
  {
  }

  /** The creation part holds of the selection: the poll found is the
      first active one. */
  lemma SelectForCreates(env: SelectionEnv, safeUuid: string)
    ensures CreateRule(env, safeUuid, SelectFor(env, safeUuid))
  {
    var r := SelectFor(env, safeUuid);
    var v := ActiveFetches(env);
    var found := FirstTrue(v, 0);
    if r.Ok? && r.value.Created? {
      assert found.Some? && r.value.fetches == found.value + 1 && r.value.archive == env.poll(found.value);
      FirstTrueFrom(v, 0);
      assert v[found.value];
      forall k | 0 <= k < found.value
        ensures env.poll(k).status != "active"
      {
        assert !v[k];
      }
    }
  }

  /** The error part holds of the selection. */
  lemma SelectForErrs(env: SelectionEnv, safeUuid: string)
    ensures ErrorRule(env, safeUuid, SelectFor(env, safeUuid))
  {
    var v := ActiveFetches(env);
    FirstTrueFrom(v, 0);
    assert forall k :: 0 <= k < MaxFetches ==> (v[k] <==> env.poll(k).status == "active");
    var list := Candidates(env, safeUuid);
    assert (forall e :: e in list ==> !Qualifies(e, env.details))
      <==> FirstIndex(list, (e: ArchiveEntry) => Qualifies(e, env.details)).None?;
  }

  /** A selected archive can be written to: a reused one is writable, a
      created one active. */
  lemma SelectedIsUsable(env: SelectionEnv, safeUuid: string)
    requires SelectFor(env, safeUuid).Ok?
    ensures var s := SelectFor(env, safeUuid).value;
      (s.Reused? ==> Writable(s.archive)) && (s.Created? ==> s.archive.status == "active")
  {
    SelectForMeans(env, safeUuid);
  }

  /** `getArchiveForBackupByUUID`: the search over the listing, then the
      polling loop. */
  method GetArchiveForBackupByUuid(env: SelectionEnv, safeUuid: string) returns (r: Result<Selection, Error>)
    ensures r == SelectFor(env, safeUuid)
  {
    var list := Candidates(env, safeUuid);
    var found := FirstIndex(list, (e: ArchiveEntry) => Qualifies(e, env.details));
    if found.Some? {
      return Ok(Reused(env.details(list[found.value].uuid)));
    }
    var key := SshKeyId(env.fingerprintOutput, env.keys, env.registeredKeyId);
    if key.Err? {
      return Err(key.error);
    }
    var request := CreateArchivePayload(safeUuid, ArchiveNamePrefix + " " + env.timestamp, KeyIdOf(key.value));
    ghost var v := ActiveFetches(env);
    var waited: nat := 0;
    var fetches: nat := 0;
    var archive := env.poll(0);
    var active := false;
    while !active
      invariant waited == PollInterval * fetches && fetches <= MaxFetches
      invariant active ==> 1 <= fetches && archive == env.poll(fetches - 1) && v[fetches - 1]
      invariant forall k :: 0 <= k < fetches - (if active then 1 else 0) ==> !v[k]
      decreases MaxFetches - fetches, if active then 0 else 1
    {
      waited := waited + PollInterval;
      if waited > MaxWaitTime {
        FirstTrueFrom(v, 0);
        return Err(ActivationTimeout);
      }
      archive := env.poll(fetches);
      fetches := fetches + 1;
      active := archive.status == "active";
    }
    FirstTrueAt(v, fetches - 1);
    return Ok(Created(request, archive, fetches));
  }

  /** `getArchiveForBackupBySafeName`: resolve (or create) the safe, then
      select an archive in it. */
  method GetArchiveForBackupBySafeName(env: SelectionEnv, safeName: string, createdSafeUuid: string)
    returns (safe: SafeLookup, r: Result<Selection, Error>)
    ensures safe == GetOrCreateSafeUuid(env.safes, safeName, createdSafeUuid)
    ensures r == SelectFor(env, safe.uuid)
  {
    safe := GetOrCreateSafeUuid(env.safes, safeName, createdSafeUuid);
    r := GetArchiveForBackupByUuid(env, safe.uuid);
  }

  /** At most MaxFetches = 120 status fetches fit in the wait budget. */
  lemma MaxFetchesValue()
    ensures MaxFetches == 120
    ensures PollInterval * MaxFetches <= MaxWaitTime < PollInterval * (MaxFetches + 1)
  {
  }
}
