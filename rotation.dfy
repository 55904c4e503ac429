/** Retention rotation (`BackupHandler::backupRotate`) and the rotation
    options array the constructor builds for it.

    The options array is the configured map's values (booleans) followed by
    the names of the enabled options. The rotation pass creates one bucket
    per distinct value of that array (PHP turns the boolean values into the
    integer keys 1 and 0), classifies every archive whose list description
    records a backup by its age, keeps one archive per bucket (the earliest
    dated), keeps recent and undated ones outright, and deletes every other
    listed archive. Ages and dates are inputs; the clock and the date
    arithmetic are not modelled. */
module Rotation {
  import opened Util

  const WholeMonth: string := "wholeMonth"
  const OnePer3Months: string := "onePer3months"
  const OnePer6Months: string := "onePer6Months"
  const OnePerYear: string := "onePerYear"

  /** The option names the constructor accepts. */
  const RotationOptions: seq<string> := [OnePerYear, OnePer6Months, OnePer3Months, WholeMonth]

  /** Strict age limits in days, each a period plus seven days of grace. */
  const WholeMonthDays: nat := 31 + 7
  const ThreeMonthsDays: nat := 92 + 7
  const SixMonthsDays: nat := 185 + 7
  const YearDays: nat := 365 + 7

  /** A list description of at most this many characters records no backup. */
  const MinRecordedDescription: nat := 5

  // ------------------------------------------------------ options array

  /** A value of the `backupRotationOptions` array: a configured boolean, or
      the name of an enabled option appended after the configured map. */
  datatype OptionValue = Flag(b: bool) | Name(n: string)

  /** A key of the bucket array: PHP turns the keys `true` and `false` into 1 and 0. */
  datatype BucketKey = IntKey(i: int) | StrKey(s: string)

  function KeyOf(v: OptionValue): BucketKey
  {
    match v
    case Flag(b) => IntKey(if b then 1 else 0)
    case Name(n) => StrKey(n)
  }

  /** The configured map's values, in order. */
  function ConfiguredValues(raw: seq<(string, bool)>): (r: seq<OptionValue>)
    ensures |r| == |raw| && forall i :: 0 <= i < |raw| ==> r[i] == Flag(raw[i].1)
  {
    seq(|raw|, i requires 0 <= i < |raw| => Flag(raw[i].1))
  }

  /** The names of the options set to `true`, in order. */
  function EnabledNames(raw: seq<(string, bool)>): (r: seq<OptionValue>)
    ensures forall v :: v in r ==> v.Name?
    ensures forall n :: Name(n) in r <==> (n, true) in raw
  {
    if |raw| == 0 then []
    else
      var last := raw[|raw| - 1];
      assert raw == raw[..|raw| - 1] + [last];
      EnabledNames(raw[..|raw| - 1]) + (if last.1 then [Name(last.0)] else [])
  }

  /** The options array the constructor leaves, or the first unknown key it rejects. */
  function RotationOptionsFor(raw: seq<(string, bool)>): (r: Result<seq<OptionValue>, string>)
    ensures r.Err? <==> exists i :: 0 <= i < |raw| && raw[i].0 !in RotationOptions
    ensures r.Err? ==> exists i :: (0 <= i < |raw| && raw[i].0 == r.error && r.error !in RotationOptions
      && forall j :: 0 <= j < i ==> raw[j].0 in RotationOptions)
    ensures r.Ok? ==> (|r.value| == 0 <==> |raw| == 0)
    ensures r.Ok? && |raw| > 0 ==> r.value[0].Flag?
    ensures r.Ok? ==> forall n :: Name(n) in r.value <==> (n, true) in raw
  {
    match FirstIndex(raw, (e: (string, bool)) => e.0 !in RotationOptions)
    case Some(i) => Err(raw[i].0)
    case None => Ok(ConfiguredValues(raw) + EnabledNames(raw))
  }

  /** The constructor's loop over the configured map: reject an unknown key,
      append the name of every option set to `true`. */
  method BuildRotationOptions(raw: seq<(string, bool)>) returns (r: Result<seq<OptionValue>, string>)
    ensures r == RotationOptionsFor(raw)
  {
    var opts := ConfiguredValues(raw);
    var i := 0;
    while i < |raw|
      invariant 0 <= i <= |raw|
      invariant forall j :: 0 <= j < i ==> raw[j].0 in RotationOptions
      invariant opts == ConfiguredValues(raw) + EnabledNames(raw[..i])
    {
      if raw[i].0 !in RotationOptions {
        return Err(raw[i].0);
      }
      assert raw[..i + 1][..i] == raw[..i];
      if raw[i].1 {
        opts := opts + [Name(raw[i].0)];
      }
      i := i + 1;
    }
    assert raw[..i] == raw;
    return Ok(opts);
  }

  // ------------------------------------------------------- classification

  /** `isset($backupsForSave[name])` for an option name. */
  predicate Has(opts: seq<OptionValue>, name: string)
  {
    Name(name) in opts
  }

  /** Where the cascade of strict age tests puts an archive. */
  datatype Class = WithinMonth | Into(bucket: string) | Unbucketed

  function Classify(opts: seq<OptionValue>, age: nat): Class
  {
    if Has(opts, WholeMonth) && age < WholeMonthDays then WithinMonth
    else if Has(opts, OnePer3Months) && age < ThreeMonthsDays then Into(OnePer3Months)
    else if Has(opts, OnePer6Months) && age < SixMonthsDays then Into(OnePer6Months)
    else if Has(opts, OnePerYear) && age < YearDays then Into(OnePerYear)
    else Unbucketed
  }

  /** The creation date and age of an archive whose details carry one. */
  datatype Created = Created(date: int, ageDays: nat)

  /** An archive of the listing: its uuid, its list-level description and,
      from its details, the creation date when there is one. */
  datatype Archive = Archive(uuid: string, description: string, created: Option<Created>)

  /** The description records at least one successful backup. */
  predicate Recorded(a: Archive)
  {
    |a.description| > MinRecordedDescription
  }

  /** Kept by the classification loop itself: undated, or within the month. */
  predicate KeptDirectly(opts: seq<OptionValue>, a: Archive)
  {
    Recorded(a) && (a.created.None? || Classify(opts, a.created.value.ageDays) == WithinMonth)
  }

  /** Put into bucket `n` by the classification loop. */
  predicate InBucket(opts: seq<OptionValue>, a: Archive, n: string)
  {
    Recorded(a) && a.created.Some? && Classify(opts, a.created.value.ageDays) == Into(n)
  }

  // ---------------------------------------------------------------- buckets

  /** A bucket: an ordered PHP array from archive uuid to creation date. */
  type Entries = seq<(string, int)>

  /** `$m[$k] = $v`: replace in place when the key is present, else append. */
  function Put(m: Entries, k: string, v: int): (r: Entries)
    ensures (forall e :: e in m ==> e.0 != k) ==> r == m + [(k, v)]
    ensures forall e :: e in r ==> e in m || e == (k, v)
  {
    if |m| == 0 then [(k, v)]
    else if m[0].0 == k then [(k, v)] + m[1..]
    else [m[0]] + Put(m[1..], k, v)
  }

  /** Assigning to a uuid already in a bucket overwrites its first (in PHP,
      its only) entry in place and keeps the order of the others. */
  lemma {:induction false} PutReplacesFirst(m: Entries, k: string, v: int, i: nat)
    requires i < |m| && m[i].0 == k && forall j :: 0 <= j < i ==> m[j].0 != k
    ensures Put(m, k, v) == m[i := (k, v)]
    decreases i
  {
    if i == 0 {
      assert [(k, v)] + m[1..] == m[0 := (k, v)];
    } else {
      PutReplacesFirst(m[1..], k, v, i - 1);
      assert [m[0]] + m[1..][i - 1 := (k, v)] == m[i := (k, v)];
    }
  }

  /** `asort` then `key`: the first entry with the least date (a stable
      sort keeps equal dates in insertion order). */
  function Earliest(m: Entries): (r: Option<(string, int)>)
    ensures r.None? <==> |m| == 0
    ensures r.Some? ==> r.value in m && forall e :: e in m ==> r.value.1 <= e.1
    ensures r.Some? ==> exists i :: (0 <= i < |m| && m[i] == r.value
      && forall j :: 0 <= j < i ==> m[j].1 > r.value.1)
  {
    if |m| == 0 then None
    else
      var prev := Earliest(m[..|m| - 1]);
      var e := m[|m| - 1];
      assert m == m[..|m| - 1] + [e];
      if prev.None? || e.1 < prev.value.1 then Some(e) else prev
  }

  /** What a bucket adds to the keep list: its earliest key, or null when empty. */
  function Representative(m: Entries): Option<string>
  {
    match Earliest(m)
    case None => None
    case Some(e) => Some(e.0)
  }

  /** The contents of bucket `n` after the classification loop over `archives`. */
  function Bucket(opts: seq<OptionValue>, archives: seq<Archive>, n: string): Entries
  {
    if |archives| == 0 then []
    else
      var prev := Bucket(opts, archives[..|archives| - 1], n);
      var a := archives[|archives| - 1];
      if InBucket(opts, a, n) then Put(prev, a.uuid, a.created.value.date) else prev
  }

  function BucketOfKey(opts: seq<OptionValue>, archives: seq<Archive>, k: BucketKey): Entries
  {
    match k
    case StrKey(n) => Bucket(opts, archives, n)
    case IntKey(_) => []
  }

  /** The bucket keys in insertion order (first occurrence in the options array). */
  function DistinctKeys(opts: seq<OptionValue>): seq<BucketKey>
  {
    if |opts| == 0 then []
    else
      var prev := DistinctKeys(opts[..|opts| - 1]);
      var k := KeyOf(opts[|opts| - 1]);
      if k in prev then prev else prev + [k]
  }

  // ------------------------------------------------------------ keep list

  /** What the classification loop appends to `$dontRemove`. */
  function DirectKeeps(opts: seq<OptionValue>, archives: seq<Archive>): seq<Option<string>>
  {
    if |archives| == 0 then []
    else
      var a := archives[|archives| - 1];
      DirectKeeps(opts, archives[..|archives| - 1]) + (if KeptDirectly(opts, a) then [Some(a.uuid)] else [])
  }

  /** What the per-bucket loop appends to `$dontRemove`, one entry per key. */
  function Representatives(keys: seq<BucketKey>, opts: seq<OptionValue>, archives: seq<Archive>): seq<Option<string>>
  {
    if |keys| == 0 then []
    else
      Representatives(keys[..|keys| - 1], opts, archives)
        + [Representative(BucketOfKey(opts, archives, keys[|keys| - 1]))]
  }

  function DontRemove(opts: seq<OptionValue>, archives: seq<Archive>): seq<Option<string>>
  {
    DirectKeeps(opts, archives) + Representatives(DistinctKeys(opts), opts, archives)
  }

  /** `in_array($uuid, $dontRemove)` with PHP's loose comparison, under
      which the empty string equals null. */
  predicate LooseIn(u: string, keep: seq<Option<string>>)
  {
    Some(u) in keep || (u == "" && None in keep)
  }

  /** The uuids passed to `deleteArchive`, in list order. */
  function DeleteList(archives: seq<Archive>, keep: seq<Option<string>>): seq<string>
  {
    if |archives| == 0 then []
    else
      var a := archives[|archives| - 1];
      DeleteList(archives[..|archives| - 1], keep) + (if LooseIn(a.uuid, keep) then [] else [a.uuid])
  }

  /** The archives a pass leaves in place, in list order. */
  function Survivors(archives: seq<Archive>, keep: seq<Option<string>>): seq<Archive>
  {
    if |archives| == 0 then []
    else
      var a := archives[|archives| - 1];
      Survivors(archives[..|archives| - 1], keep) + (if LooseIn(a.uuid, keep) then [a] else [])
  }

  datatype RotationRun = KeptAll | Rotated(deleted: seq<string>)

  /** The whole pass: an empty options array returns before any API call. */
  function RotateSpec(opts: seq<OptionValue>, archives: seq<Archive>): RotationRun
  {
    if |opts| == 0 then KeptAll else Rotated(DeleteList(archives, DontRemove(opts, archives)))
  }

  /** The bucket array as the classification loop leaves it after `archives`. */
  ghost predicate BucketsAfter(buckets: map<BucketKey, Entries>, opts: seq<OptionValue>, archives: seq<Archive>)
  {
    (forall j :: 0 <= j < |opts| ==> KeyOf(opts[j]) in buckets)
    && forall k :: k in buckets ==> buckets[k] == BucketOfKey(opts, archives, k)
  }

  /** The first loop: one empty bucket per value of the options array. A
      PHP array is an ordered map: `order` is its key order, the order in
      which the values first occur. */
  method InitBuckets(opts: seq<OptionValue>) returns (buckets: map<BucketKey, Entries>, order: seq<BucketKey>)
    ensures BucketsAfter(buckets, opts, [])
    ensures order == DistinctKeys(opts)
    ensures forall k :: k in buckets <==> k in order
  {
    buckets := map[];
    order := [];
    for i := 0 to |opts|
      invariant forall j :: 0 <= j < i ==> KeyOf(opts[j]) in buckets
      invariant forall k :: k in buckets ==> buckets[k] == []
      invariant order == DistinctKeys(opts[..i])
      invariant forall k :: k in buckets <==> k in order
    {
      assert opts[..i + 1][..i] == opts[..i];
      var k := KeyOf(opts[i]);
      if k !in buckets {
        order := order + [k];
      }
      buckets := buckets[k := []];
    }
    assert opts[..|opts|] == opts;
  }

  lemma BucketsExtend(buckets: map<BucketKey, Entries>, opts: seq<OptionValue>, prefix: seq<Archive>, a: Archive)
    requires BucketsAfter(buckets, opts, prefix)
    ensures var c := if a.created.Some? then Classify(opts, a.created.value.ageDays) else Unbucketed;
      if Recorded(a) && c.Into? then
        StrKey(c.bucket) in buckets
        && BucketsAfter(buckets[StrKey(c.bucket) := Put(buckets[StrKey(c.bucket)], a.uuid, a.created.value.date)], opts, prefix + [a])
      else BucketsAfter(buckets, opts, prefix + [a])
  {
    assert (prefix + [a])[..|prefix|] == prefix;
    if a.created.Some? && Recorded(a) {
      var c := Classify(opts, a.created.value.ageDays);
      if c.Into? {
        assert Name(c.bucket) in opts;
        var j :| 0 <= j < |opts| && opts[j] == Name(c.bucket);
        assert KeyOf(opts[j]) == StrKey(c.bucket);
      }
    }
  }

  /** The second loop: classify every listed archive. */
  method ClassifyArchives(opts: seq<OptionValue>, archives: seq<Archive>, buckets0: map<BucketKey, Entries>)
    returns (buckets: map<BucketKey, Entries>, dontRemove: seq<Option<string>>)
    requires BucketsAfter(buckets0, opts, [])
    ensures BucketsAfter(buckets, opts, archives)
    ensures buckets.Keys == buckets0.Keys
    ensures dontRemove == DirectKeeps(opts, archives)
  {
    buckets := buckets0;
    dontRemove := [];
    assert archives[..0] == [];
    for i := 0 to |archives|
      invariant BucketsAfter(buckets, opts, archives[..i])
      invariant buckets.Keys == buckets0.Keys
      invariant dontRemove == DirectKeeps(opts, archives[..i])
    {
      var a := archives[i];
      assert archives[..i + 1] == archives[..i] + [a];
      assert (archives[..i] + [a])[..i] == archives[..i];
      BucketsExtend(buckets, opts, archives[..i], a);
      if |a.description| > MinRecordedDescription {
        if a.created.Some? {
          var c := Classify(opts, a.created.value.ageDays);
          if c.WithinMonth? {
            dontRemove := dontRemove + [Some(a.uuid)];
          } else if c.Into? {
            var k := StrKey(c.bucket);
            buckets := buckets[k := Put(buckets[k], a.uuid, a.created.value.date)];
          }
        } else {
          dontRemove := dontRemove + [Some(a.uuid)];
        }
      }
    }
    assert archives[..|archives|] == archives;
  }

  /** One step of the per-bucket loop. */
  lemma RepresentativesStep(order: seq<BucketKey>, i: nat, buckets: map<BucketKey, Entries>,
                            opts: seq<OptionValue>, archives: seq<Archive>)
    requires i < |order| && order[i] in buckets
    requires buckets[order[i]] == BucketOfKey(opts, archives, order[i])
    ensures Representatives(order[..i + 1], opts, archives)
      == Representatives(order[..i], opts, archives) + [Representative(buckets[order[i]])]
  {
    assert order[..i + 1][..i] == order[..i];
  }

  /** The third loop: each bucket, in key order, adds its earliest key. */
  method AddRepresentatives(opts: seq<OptionValue>, archives: seq<Archive>,
                            buckets: map<BucketKey, Entries>, order: seq<BucketKey>,
                            direct: seq<Option<string>>)
    returns (dontRemove: seq<Option<string>>)
    requires forall k :: k in order ==> k in buckets && buckets[k] == BucketOfKey(opts, archives, k)
    ensures dontRemove == direct + Representatives(order, opts, archives)
  {
    dontRemove := direct;
    for i := 0 to |order|
      invariant dontRemove == direct + Representatives(order[..i], opts, archives)
    {
      RepresentativesStep(order, i, buckets, opts, archives);
      dontRemove := dontRemove + [Representative(buckets[order[i]])];
    }
    assert order[..|order|] == order;
  }

  /** The last loop: delete every listed archive that is not kept. */
  method DeleteUnkept(archives: seq<Archive>, dontRemove: seq<Option<string>>) returns (deleted: seq<string>)
    ensures deleted == DeleteList(archives, dontRemove)
  {
    deleted := [];
    for i := 0 to |archives|
      invariant deleted == DeleteList(archives[..i], dontRemove)
    {
      assert archives[..i + 1][..i] == archives[..i];
      if !LooseIn(archives[i].uuid, dontRemove) {
        deleted := deleted + [archives[i].uuid];
      }
    }
    assert archives[..|archives|] == archives;
  }

  /** `backupRotate` over the archive list the provider returned. */
  method BackupRotate(opts: seq<OptionValue>, archives: seq<Archive>) returns (r: RotationRun)
    ensures r == RotateSpec(opts, archives)
  {
    if |opts| == 0 {
      return KeptAll;
    }
    var buckets, order := InitBuckets(opts);
    var direct;
    buckets, direct := ClassifyArchives(opts, archives, buckets);
    var dontRemove := AddRepresentatives(opts, archives, buckets, order, direct);
    var deleted := DeleteUnkept(archives, dontRemove);
    return Rotated(deleted);
  }
}
