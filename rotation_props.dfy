/** What the rotation pass guarantees: which archives it deletes (all and
    only those neither kept outright nor the earliest member of their
    bucket), that each bucket keeps exactly one archive, that a second pass
    over the survivors deletes nothing, and a worked example. */
module RotationProps {
  import opened Util
  import opened Rotation

  /** The archive list carries each uuid once. */
  ghost predicate DistinctUuids(archives: seq<Archive>)
  {
    forall i, j :: 0 <= i < j < |archives| ==> archives[i].uuid != archives[j].uuid
  }

  /** The first archive of bucket `n` with the least creation date: the one
      `asort` followed by `key` selects. */
  predicate IsRepresentative(opts: seq<OptionValue>, archives: seq<Archive>, i: int, n: string)
  {
    && 0 <= i < |archives| && InBucket(opts, archives[i], n)
    && (forall j :: 0 <= j < |archives| && InBucket(opts, archives[j], n) ==>
          archives[i].created.value.date <= archives[j].created.value.date)
    && (forall j :: 0 <= j < i && InBucket(opts, archives[j], n) ==>
          archives[j].created.value.date > archives[i].created.value.date)
  }

  /** The independent statement of what a pass keeps. */
  ghost predicate Kept(opts: seq<OptionValue>, archives: seq<Archive>, i: int)
    requires 0 <= i < |archives|
  {
    KeptDirectly(opts, archives[i]) || exists n :: IsRepresentative(opts, archives, i, n)
  }

  // ------------------------------------------------------------- buckets

  /** Every bucket entry is the uuid and date of a listed archive of that bucket. */
  lemma {:induction false} BucketMembers(opts: seq<OptionValue>, archives: seq<Archive>, n: string)
    ensures forall e :: e in Bucket(opts, archives, n) ==>
      exists j :: (0 <= j < |archives| && archives[j].uuid == e.0 && InBucket(opts, archives[j], n)
        && e.1 == archives[j].created.value.date)
    decreases |archives|
  {
    if |archives| > 0 {
      var prefix := archives[..|archives| - 1];
      var a := archives[|archives| - 1];
      BucketMembers(opts, prefix, n);
      forall e | e in Bucket(opts, archives, n)
        ensures exists j :: (0 <= j < |archives| && archives[j].uuid == e.0 && InBucket(opts, archives[j], n)
          && e.1 == archives[j].created.value.date)
      {
        if e in Bucket(opts, prefix, n) {
          var j :| 0 <= j < |prefix| && prefix[j].uuid == e.0 && InBucket(opts, prefix[j], n)
            && e.1 == prefix[j].created.value.date;
          assert archives[j] == prefix[j];
        } else {
          assert e == (a.uuid, a.created.value.date);
          assert archives[|archives| - 1] == a;
        }
      }
    }
  }

  /** With distinct uuids, each new member of a bucket is appended at its end. */
  lemma BucketSnoc(opts: seq<OptionValue>, archives: seq<Archive>, n: string)
    requires |archives| > 0 && DistinctUuids(archives)
    ensures var prefix := archives[..|archives| - 1];
      var a := archives[|archives| - 1];
      Bucket(opts, archives, n)
        == Bucket(opts, prefix, n) + (if InBucket(opts, a, n) then [(a.uuid, a.created.value.date)] else [])
  {
    var prefix := archives[..|archives| - 1];
    var a := archives[|archives| - 1];
    BucketMembers(opts, prefix, n);
    forall e | e in Bucket(opts, prefix, n)
      ensures e.0 != a.uuid
    {
      var j :| 0 <= j < |prefix| && prefix[j].uuid == e.0 && InBucket(opts, prefix[j], n)
        && e.1 == prefix[j].created.value.date;
      assert archives[j] == prefix[j];
    }
  }

  /** A representative stays one when an archive outside its bucket, or a
      member no earlier than it, is added at the end. */
  lemma RepresentativeKept(opts: seq<OptionValue>, archives: seq<Archive>, i: int, n: string)
    requires |archives| > 0 && IsRepresentative(opts, archives[..|archives| - 1], i, n)
    requires var a := archives[|archives| - 1];
      InBucket(opts, a, n) ==> archives[i].created.value.date <= a.created.value.date
    ensures IsRepresentative(opts, archives, i, n)
  {
    var prefix := archives[..|archives| - 1];
    assert archives[i] == prefix[i];
    forall j | 0 <= j < |prefix| ensures archives[j] == prefix[j] { }
  }

  /** A new bucket member earlier than every earlier member becomes the representative. */
  lemma RepresentativeNew(opts: seq<OptionValue>, archives: seq<Archive>, n: string)
    requires |archives| > 0 && InBucket(opts, archives[|archives| - 1], n)
    requires var prefix := archives[..|archives| - 1];
      forall j :: 0 <= j < |prefix| && InBucket(opts, prefix[j], n) ==>
        prefix[j].created.value.date > archives[|archives| - 1].created.value.date
    ensures IsRepresentative(opts, archives, |archives| - 1, n)
  {
    var prefix := archives[..|archives| - 1];
    forall j | 0 <= j < |prefix| ensures archives[j] == prefix[j] { }
  }

  /** Dropping the last archive keeps the uuids distinct. */
  lemma DistinctPrefix(archives: seq<Archive>)
    requires |archives| > 0 && DistinctUuids(archives)
    ensures DistinctUuids(archives[..|archives| - 1])
  {
    var prefix := archives[..|archives| - 1];
    forall i, j | 0 <= i < j < |prefix| ensures prefix[i].uuid != prefix[j].uuid {
      assert prefix[i] == archives[i] && prefix[j] == archives[j];
    }
  }

  /** A bucket is empty exactly when no archive falls into it. */
  lemma {:induction false} BucketEmptyIff(opts: seq<OptionValue>, archives: seq<Archive>, n: string)
    requires DistinctUuids(archives)
    ensures |Bucket(opts, archives, n)| == 0 <==> forall j :: 0 <= j < |archives| ==> !InBucket(opts, archives[j], n)
    decreases |archives|
  {
    if |archives| > 0 {
      var prefix := archives[..|archives| - 1];
      DistinctPrefix(archives);
      BucketEmptyIff(opts, prefix, n);
      BucketSnoc(opts, archives, n);
      assert forall j :: 0 <= j < |prefix| ==> archives[j] == prefix[j];
    }
  }

  /** The bucket's earliest entry, when there is one, is the uuid and date
      of a representative archive of `archives`. */
  ghost predicate EarliestRepresents(opts: seq<OptionValue>, archives: seq<Archive>, n: string)
  {
    Earliest(Bucket(opts, archives, n)).Some? ==>
      exists i :: IsRepresentative(opts, archives, i, n)
        && Earliest(Bucket(opts, archives, n)).value == (archives[i].uuid, archives[i].created.value.date)
  }

  /** An archive outside the bucket, added at the end, changes neither the
      earliest entry nor the representative. */
  lemma EarliestSnocOutside(opts: seq<OptionValue>, archives: seq<Archive>, n: string)
    requires |archives| > 0 && DistinctUuids(archives) && !InBucket(opts, archives[|archives| - 1], n)
    requires EarliestRepresents(opts, archives[..|archives| - 1], n)
    ensures EarliestRepresents(opts, archives, n)
  {
    var prefix := archives[..|archives| - 1];
    BucketSnoc(opts, archives, n);
    var prev := Earliest(Bucket(opts, prefix, n));
    if prev.Some? {
      var i :| IsRepresentative(opts, prefix, i, n) && prev.value == (prefix[i].uuid, prefix[i].created.value.date);
      RepresentativeKept(opts, archives, i, n);
      assert archives[i] == prefix[i];
    }
  }

  /** A bucket member added at the end becomes the earliest entry and the
      representative when it is strictly earlier than the previous one;
      otherwise both stay. */
  lemma EarliestSnocInside(opts: seq<OptionValue>, archives: seq<Archive>, n: string)
    requires |archives| > 0 && DistinctUuids(archives) && InBucket(opts, archives[|archives| - 1], n)
    requires EarliestRepresents(opts, archives[..|archives| - 1], n)
    ensures EarliestRepresents(opts, archives, n)
  {
    var prefix := archives[..|archives| - 1];
    var a := archives[|archives| - 1];
    BucketSnoc(opts, archives, n);
    var prev := Earliest(Bucket(opts, prefix, n));
    var e := (a.uuid, a.created.value.date);
    var m := Bucket(opts, archives, n);
    assert m[..|m| - 1] == Bucket(opts, prefix, n);
    if prev.Some? {
      var i :| IsRepresentative(opts, prefix, i, n) && prev.value == (prefix[i].uuid, prefix[i].created.value.date);
      if e.1 < prev.value.1 {
        RepresentativeNew(opts, archives, n);
      } else {
        RepresentativeKept(opts, archives, i, n);
        assert archives[i] == prefix[i];
      }
    } else {
      DistinctPrefix(archives);
      BucketEmptyIff(opts, prefix, n);
      RepresentativeNew(opts, archives, n);
    }
  }

  lemma {:induction false} EarliestRepresentative(opts: seq<OptionValue>, archives: seq<Archive>, n: string)
    requires DistinctUuids(archives)
    ensures EarliestRepresents(opts, archives, n)
    decreases |archives|
  {
    if |archives| > 0 {
      DistinctPrefix(archives);
      EarliestRepresentative(opts, archives[..|archives| - 1], n);
      if InBucket(opts, archives[|archives| - 1], n) {
        EarliestSnocInside(opts, archives, n);
      } else {
        EarliestSnocOutside(opts, archives, n);
      }
    }
  }

  /** The bucket's earliest entry is exactly its representative archive, and
      there is none only when no archive falls into the bucket. */
  lemma EarliestIsRepresentative(opts: seq<OptionValue>, archives: seq<Archive>, n: string)
    requires DistinctUuids(archives)
    ensures Earliest(Bucket(opts, archives, n)).None?
      <==> forall j :: 0 <= j < |archives| ==> !InBucket(opts, archives[j], n)
    ensures Earliest(Bucket(opts, archives, n)).Some? ==>
      exists i :: IsRepresentative(opts, archives, i, n)
        && Earliest(Bucket(opts, archives, n)).value == (archives[i].uuid, archives[i].created.value.date)
  {
    BucketEmptyIff(opts, archives, n);
    EarliestRepresentative(opts, archives, n);
  }

  /** A bucket has at most one representative. */
  lemma RepresentativeUnique(opts: seq<OptionValue>, archives: seq<Archive>, i: int, j: int, n: string)
    requires IsRepresentative(opts, archives, i, n) && IsRepresentative(opts, archives, j, n)
    ensures i == j
  {
  }

  /** A bucket with at least one member has a representative. */
  lemma RepresentativeExists(opts: seq<OptionValue>, archives: seq<Archive>, j: int, n: string)
    requires DistinctUuids(archives)
    requires 0 <= j < |archives| && InBucket(opts, archives[j], n)
    ensures exists i :: IsRepresentative(opts, archives, i, n)
  {
    EarliestIsRepresentative(opts, archives, n);
  }

  // ----------------------------------------------------------- keep list

  /** The bucket keys occur once each, and are exactly the keys of the options array. */
  lemma {:induction false} DistinctKeysMembers(opts: seq<OptionValue>)
    ensures forall k :: k in DistinctKeys(opts) <==> exists j :: 0 <= j < |opts| && KeyOf(opts[j]) == k
    ensures forall s, t :: 0 <= s < t < |DistinctKeys(opts)| ==> DistinctKeys(opts)[s] != DistinctKeys(opts)[t]
    decreases |opts|
  {
    if |opts| > 0 {
      var prefix := opts[..|opts| - 1];
      DistinctKeysMembers(prefix);
      forall j | 0 <= j < |prefix| ensures opts[j] == prefix[j] { }
    }
  }

  /** An enabled option name is a bucket key. */
  lemma NamedKeyPresent(opts: seq<OptionValue>, n: string)
    requires Name(n) in opts
    ensures StrKey(n) in DistinctKeys(opts)
  {
    DistinctKeysMembers(opts);
    var j :| 0 <= j < |opts| && opts[j] == Name(n);
    assert KeyOf(opts[j]) == StrKey(n);
  }

  /** The per-bucket loop adds one entry per key, in key order. */
  lemma {:induction false} RepresentativesIndex(keys: seq<BucketKey>, opts: seq<OptionValue>, archives: seq<Archive>)
    ensures |Representatives(keys, opts, archives)| == |keys|
    ensures forall t :: 0 <= t < |keys| ==>
      Representatives(keys, opts, archives)[t] == Representative(BucketOfKey(opts, archives, keys[t]))
    decreases |keys|
  {
    if |keys| > 0 {
      var prefix := keys[..|keys| - 1];
      RepresentativesIndex(prefix, opts, archives);
      var reps := Representatives(keys, opts, archives);
      assert reps == Representatives(prefix, opts, archives)
        + [Representative(BucketOfKey(opts, archives, keys[|keys| - 1]))];
      forall t | 0 <= t < |keys|
        ensures reps[t] == Representative(BucketOfKey(opts, archives, keys[t]))
      {
        if t < |keys| - 1 {
          assert keys[t] == prefix[t];
        }
      }
    }
  }

  /** The classification loop keeps exactly the uuids of the archives kept outright. */
  lemma {:induction false} DirectKeepsMembers(opts: seq<OptionValue>, archives: seq<Archive>)
    ensures forall x :: x in DirectKeeps(opts, archives) <==>
      exists j :: 0 <= j < |archives| && KeptDirectly(opts, archives[j]) && x == Some(archives[j].uuid)
    decreases |archives|
  {
    if |archives| > 0 {
      var prefix := archives[..|archives| - 1];
      DirectKeepsMembers(opts, prefix);
      forall j | 0 <= j < |prefix| ensures archives[j] == prefix[j] { }
    }
  }

  /** The deletion loop deletes exactly the listed uuids not (loosely) in the keep list. */
  lemma {:induction false} DeleteListMembers(archives: seq<Archive>, keep: seq<Option<string>>)
    ensures forall u :: u in DeleteList(archives, keep) <==>
      (!LooseIn(u, keep) && exists j :: 0 <= j < |archives| && archives[j].uuid == u)
    decreases |archives|
  {
    if |archives| > 0 {
      var prefix := archives[..|archives| - 1];
      DeleteListMembers(prefix, keep);
      forall j | 0 <= j < |prefix| ensures archives[j] == prefix[j] { }
    }
  }

  /** A uuid the per-bucket loop keeps is that of a bucket's representative. */
  lemma KeptByBucketIsRepresentative(opts: seq<OptionValue>, archives: seq<Archive>, i: int)
    requires DistinctUuids(archives) && 0 <= i < |archives|
    requires Some(archives[i].uuid) in Representatives(DistinctKeys(opts), opts, archives)
    ensures exists n :: IsRepresentative(opts, archives, i, n)
  {
    var keys := DistinctKeys(opts);
    var reps := Representatives(keys, opts, archives);
    RepresentativesIndex(keys, opts, archives);
    var t :| 0 <= t < |reps| && reps[t] == Some(archives[i].uuid);
    var k := keys[t];
    assert k.StrKey?;
    var n := k.s;
    EarliestIsRepresentative(opts, archives, n);
    var i' :| IsRepresentative(opts, archives, i', n)
      && Earliest(Bucket(opts, archives, n)).value == (archives[i'].uuid, archives[i'].created.value.date);
    assert i' == i;
  }

  /** The representative of every bucket is in the keep list. */
  lemma RepresentativeIsKept(opts: seq<OptionValue>, archives: seq<Archive>, i: int, n: string)
    requires DistinctUuids(archives) && IsRepresentative(opts, archives, i, n)
    ensures Some(archives[i].uuid) in Representatives(DistinctKeys(opts), opts, archives)
  {
    var keys := DistinctKeys(opts);
    assert Has(opts, n);
    NamedKeyPresent(opts, n);
    var t :| 0 <= t < |keys| && keys[t] == StrKey(n);
    EarliestIsRepresentative(opts, archives, n);
    var i' :| IsRepresentative(opts, archives, i', n)
      && Earliest(Bucket(opts, archives, n)).value == (archives[i'].uuid, archives[i'].created.value.date);
    RepresentativeUnique(opts, archives, i, i', n);
    RepresentativesIndex(keys, opts, archives);
    assert Representatives(keys, opts, archives)[t] == Representative(Bucket(opts, archives, n));
  }

  /** Among the uuids other than "", the keep list holds the representatives. */
  lemma RepresentativeInKeepList(opts: seq<OptionValue>, archives: seq<Archive>, i: int)
    requires DistinctUuids(archives) && 0 <= i < |archives|
    ensures Some(archives[i].uuid) in Representatives(DistinctKeys(opts), opts, archives)
      <==> exists n :: IsRepresentative(opts, archives, i, n)
  {
    if Some(archives[i].uuid) in Representatives(DistinctKeys(opts), opts, archives) {
      KeptByBucketIsRepresentative(opts, archives, i);
    }
    if exists n :: IsRepresentative(opts, archives, i, n) {
      var n :| IsRepresentative(opts, archives, i, n);
      RepresentativeIsKept(opts, archives, i, n);
    }
  }

  /** THE ROTATION THEOREM. When the options array is not empty, a listed
      archive with a non-empty uuid is deleted exactly when it is neither
      kept outright (recorded and undated, or recorded, within the month and
      `wholeMonth` enabled) nor the earliest member of its bucket. */
  lemma DeletedIff(opts: seq<OptionValue>, archives: seq<Archive>, i: int)
    requires |opts| > 0 && DistinctUuids(archives)
    requires 0 <= i < |archives| && archives[i].uuid != ""
    ensures RotateSpec(opts, archives).Rotated?
    ensures archives[i].uuid in RotateSpec(opts, archives).deleted <==> !Kept(opts, archives, i)
  {
    var keep := DontRemove(opts, archives);
    var u := archives[i].uuid;
    DeleteListMembers(archives, keep);
    DirectKeepsMembers(opts, archives);
    RepresentativeInKeepList(opts, archives, i);
    assert Some(u) in DirectKeeps(opts, archives) <==> KeptDirectly(opts, archives[i]);
  }

  // --------------------------------------------------------- consequences

  /** The early return happens exactly for an empty configured map: with any
      option configured, even when every value is false, the pass runs. */
  lemma RotationRunsUnlessUnconfigured(raw: seq<(string, bool)>, archives: seq<Archive>)
    requires RotationOptionsFor(raw).Ok?
    ensures RotateSpec(RotationOptionsFor(raw).value, archives).KeptAll? <==> |raw| == 0
  {
  }

  /** A recorded archive without a creation date is never deleted. */
  lemma UndatedRecordedNeverDeleted(opts: seq<OptionValue>, archives: seq<Archive>, i: int)
    requires 0 <= i < |archives| && Recorded(archives[i]) && archives[i].created.None?
    ensures RotateSpec(opts, archives).Rotated? ==> archives[i].uuid !in RotateSpec(opts, archives).deleted
  {
    if |opts| > 0 {
      var keep := DontRemove(opts, archives);
      DirectKeepsMembers(opts, archives);
      assert Some(archives[i].uuid) in DirectKeeps(opts, archives);
      assert LooseIn(archives[i].uuid, keep);
      DeleteListMembers(archives, keep);
    }
  }

  /** An archive that falls into no bucket and is not kept outright is
      deleted: one whose description records no backup, and a dated one older
      than every enabled threshold. */
  lemma UnclassifiedDeleted(opts: seq<OptionValue>, archives: seq<Archive>, i: int)
    requires |opts| > 0 && DistinctUuids(archives)
    requires 0 <= i < |archives| && archives[i].uuid != ""
    requires !Recorded(archives[i])
      || (archives[i].created.Some? && (archives[i].created.value.ageDays >= YearDays
                                        || Classify(opts, archives[i].created.value.ageDays) == Unbucketed))
    ensures archives[i].uuid in RotateSpec(opts, archives).deleted
  {
    DeletedIff(opts, archives, i);
  }

  /** With every configured option false there are no buckets: the pass keeps
      only the recorded undated archives and deletes every other one. */
  lemma AllDisabledKeepsOnlyUndated(raw: seq<(string, bool)>, archives: seq<Archive>, i: int)
    requires |raw| > 0 && forall j :: 0 <= j < |raw| ==> !raw[j].1
    requires RotationOptionsFor(raw).Ok?
    requires DistinctUuids(archives) && 0 <= i < |archives| && archives[i].uuid != ""
    ensures var opts := RotationOptionsFor(raw).value;
      var kept := Recorded(archives[i]) && archives[i].created.None?;
      archives[i].uuid in RotateSpec(opts, archives).deleted <==> !kept
  {
    var opts := RotationOptionsFor(raw).value;
    forall n ensures !Has(opts, n) { }
    assert forall age :: Classify(opts, age) == Unbucketed;
    assert forall n :: !IsRepresentative(opts, archives, i, n);
    DeletedIff(opts, archives, i);
  }

  /** Whenever the pass runs, the boolean buckets are empty and put null in
      the keep list, so an archive whose uuid is "" (loosely equal to null)
      is never deleted. */
  lemma EmptyUuidNeverDeleted(raw: seq<(string, bool)>, archives: seq<Archive>)
    requires RotationOptionsFor(raw).Ok? && |raw| > 0
    ensures var opts := RotationOptionsFor(raw).value;
      None in DontRemove(opts, archives) && "" !in RotateSpec(opts, archives).deleted
  {
    var opts := RotationOptionsFor(raw).value;
    var keys := DistinctKeys(opts);
    DistinctKeysMembers(opts);
    assert KeyOf(opts[0]).IntKey?;
    assert KeyOf(opts[0]) in keys;
    var t :| 0 <= t < |keys| && keys[t] == KeyOf(opts[0]);
    RepresentativesIndex(keys, opts, archives);
    assert Representatives(keys, opts, archives)[t] == None;
    DeleteListMembers(archives, DontRemove(opts, archives));
  }

  // ---------------------------------------------------------- idempotence

  /** The survivors are exactly the listed archives whose uuid is kept. */
  lemma {:induction false} SurvivorsMembers(archives: seq<Archive>, keep: seq<Option<string>>)
    ensures forall a :: a in Survivors(archives, keep) <==> a in archives && LooseIn(a.uuid, keep)
    decreases |archives|
  {
    if |archives| > 0 {
      var prefix := archives[..|archives| - 1];
      SurvivorsMembers(prefix, keep);
      assert archives == prefix + [archives[|archives| - 1]];
    }
  }

  /** Filtering keeps the uuids distinct. */
  lemma {:induction false} SurvivorsDistinct(archives: seq<Archive>, keep: seq<Option<string>>)
    requires DistinctUuids(archives)
    ensures DistinctUuids(Survivors(archives, keep))
    decreases |archives|
  {
    if |archives| > 0 {
      var prefix := archives[..|archives| - 1];
      var a := archives[|archives| - 1];
      assert DistinctUuids(prefix) by {
        forall i, j | 0 <= i < j < |prefix| ensures prefix[i].uuid != prefix[j].uuid {
          assert prefix[i] == archives[i] && prefix[j] == archives[j];
        }
      }
      SurvivorsDistinct(prefix, keep);
      SurvivorsMembers(prefix, keep);
      var sp := Survivors(prefix, keep);
      forall x | x in sp ensures x.uuid != a.uuid {
        var j :| 0 <= j < |prefix| && prefix[j] == x;
        assert archives[j] == x;
      }
    }
  }

  /** A survivor in bucket `n` other than through being kept outright is
      that bucket's representative: a bucket holds at most one survivor. */
  lemma SurvivingBucketMember(opts: seq<OptionValue>, archives: seq<Archive>, j: int, i: int, n: string)
    requires |opts| > 0 && DistinctUuids(archives)
    requires 0 <= j < |archives| && archives[j].uuid != "" && InBucket(opts, archives[j], n)
    requires archives[j].uuid !in RotateSpec(opts, archives).deleted
    requires IsRepresentative(opts, archives, i, n)
    ensures j == i
  {
    DeletedIff(opts, archives, j);
    var m :| IsRepresentative(opts, archives, j, m);
    RepresentativeUnique(opts, archives, i, j, n);
  }

  /** Every survivor is kept again by a pass over the survivors. */
  lemma SurvivorKeptAgain(opts: seq<OptionValue>, archives: seq<Archive>, i': int)
    requires |opts| > 0 && DistinctUuids(archives)
    requires forall j :: 0 <= j < |archives| ==> archives[j].uuid != ""
    requires var S := Survivors(archives, DontRemove(opts, archives)); 0 <= i' < |S|
    ensures Kept(opts, Survivors(archives, DontRemove(opts, archives)), i')
  {
    var keep := DontRemove(opts, archives);
    var S := Survivors(archives, keep);
    SurvivorsMembers(archives, keep);
    SurvivorsDistinct(archives, keep);
    DeleteListMembers(archives, keep);
    var s := S[i'];
    assert s in S;
    var i :| 0 <= i < |archives| && archives[i] == s;
    DeletedIff(opts, archives, i);
    if !KeptDirectly(opts, s) {
      var n :| IsRepresentative(opts, archives, i, n);
      forall j' | 0 <= j' < |S| && InBucket(opts, S[j'], n)
        ensures j' == i'
      {
        assert S[j'] in S;
        var j :| 0 <= j < |archives| && archives[j] == S[j'];
        SurvivingBucketMember(opts, archives, j, i, n);
      }
      assert IsRepresentative(opts, S, i', n);
    }
  }

  /** A pass over the survivors keeps every survivor's uuid. */
  lemma SurvivorsKeptAgain(opts: seq<OptionValue>, archives: seq<Archive>)
    requires |opts| > 0 && DistinctUuids(archives)
    requires forall j :: 0 <= j < |archives| ==> archives[j].uuid != ""
    ensures var S := Survivors(archives, DontRemove(opts, archives));
      AllKept(S, DontRemove(opts, S))
  {
    var keep := DontRemove(opts, archives);
    var S := Survivors(archives, keep);
    SurvivorsDistinct(archives, keep);
    SurvivorsMembers(archives, keep);
    DeleteListMembers(S, DontRemove(opts, S));
    forall j | 0 <= j < |S| ensures LooseIn(S[j].uuid, DontRemove(opts, S)) {
      assert S[j] in S;
      SurvivorKeptAgain(opts, archives, j);
      DeletedIff(opts, S, j);
    }
  }

  /** Every listed uuid is (loosely) in the keep list. */
  predicate AllKept(archives: seq<Archive>, keep: seq<Option<string>>)
  {
    forall j :: 0 <= j < |archives| ==> LooseIn(archives[j].uuid, keep)
  }

  /** A deletion pass in which every uuid is kept deletes nothing. */
  lemma {:induction false} AllKeptDeletesNothing(archives: seq<Archive>, keep: seq<Option<string>>)
    requires AllKept(archives, keep)
    ensures DeleteList(archives, keep) == []
    decreases |archives|
  {
    if |archives| > 0 {
      var prefix := archives[..|archives| - 1];
      assert forall j :: 0 <= j < |prefix| ==> prefix[j] == archives[j];
      AllKeptDeletesNothing(prefix, keep);
    }
  }

  /** Running the pass again over the survivors, with unchanged ages,
      deletes nothing. */
  lemma SecondPassDeletesNothing(opts: seq<OptionValue>, archives: seq<Archive>)
    requires |opts| > 0 && DistinctUuids(archives)
    requires forall j :: 0 <= j < |archives| ==> archives[j].uuid != ""
    ensures var S := Survivors(archives, DontRemove(opts, archives));
      DeleteList(S, DontRemove(opts, S)) == [] && RotateSpec(opts, S).Rotated?
  {
    var S := Survivors(archives, DontRemove(opts, archives));
    var keep := DontRemove(opts, S);
    SurvivorsKeptAgain(opts, archives);
    AllKeptDeletesNothing(S, keep);
    assert RotateSpec(opts, S) == Rotated(DeleteList(S, keep));
  }

  // ------------------------------------------------------------- example

  function ExampleRaw(): seq<(string, bool)>
  {
    [(OnePerYear, true), (OnePer6Months, true), (OnePer3Months, true), (WholeMonth, true)]
  }

  /** Five recorded archives aged 10, 40, 100, 200 and 400 days. */
  function ExampleArchives(): seq<Archive>
  {
    [Archive("a", "2024-05-01 03:00:00", Some(Created(-10, 10))),
     Archive("b", "2024-04-01 03:00:00", Some(Created(-40, 40))),
     Archive("c", "2024-02-01 03:00:00", Some(Created(-100, 100))),
     Archive("d", "2023-11-01 03:00:00", Some(Created(-200, 200))),
     Archive("e", "2023-04-01 03:00:00", Some(Created(-400, 400)))]
  }

  /** How the cascade classifies the five example ages once every option is enabled. */
  lemma ExampleClasses(opts: seq<OptionValue>)
    requires Has(opts, WholeMonth) && Has(opts, OnePer3Months) && Has(opts, OnePer6Months) && Has(opts, OnePerYear)
    ensures var A := ExampleArchives();
      && KeptDirectly(opts, A[0]) && !KeptDirectly(opts, A[1]) && !KeptDirectly(opts, A[2])
      && !KeptDirectly(opts, A[3]) && !KeptDirectly(opts, A[4])
      && (forall j :: 0 <= j < |A| ==> (InBucket(opts, A[j], OnePer3Months) <==> j == 1))
      && (forall j :: 0 <= j < |A| ==> (InBucket(opts, A[j], OnePer6Months) <==> j == 2))
      && (forall j :: 0 <= j < |A| ==> (InBucket(opts, A[j], OnePerYear) <==> j == 3))
      && forall n :: !InBucket(opts, A[4], n)
  {
  }

  /** The example configuration enables all four options. */
  lemma ExampleOptionsEnableAll()
    ensures RotationOptionsFor(ExampleRaw()).Ok?
    ensures var opts := RotationOptionsFor(ExampleRaw()).value;
      |opts| > 0 && Has(opts, WholeMonth) && Has(opts, OnePer3Months)
      && Has(opts, OnePer6Months) && Has(opts, OnePerYear)
  {
    var raw := ExampleRaw();
    assert forall i :: 0 <= i < |raw| ==> raw[i].0 in RotationOptions;
    assert raw[0].1 && raw[1].1 && raw[2].1 && raw[3].1;
  }

  /** Only the archive aged 400 days is deleted under `opts` enabling every option. */
  lemma ExampleDeletions(opts: seq<OptionValue>)
    requires |opts| > 0
    requires Has(opts, WholeMonth) && Has(opts, OnePer3Months) && Has(opts, OnePer6Months) && Has(opts, OnePerYear)
    ensures var A := ExampleArchives();
      forall i :: 0 <= i < |A| ==> (A[i].uuid in RotateSpec(opts, A).deleted <==> i == 4)
  {
    var A := ExampleArchives();
    ExampleClasses(opts);
    assert IsRepresentative(opts, A, 1, OnePer3Months);
    assert IsRepresentative(opts, A, 2, OnePer6Months);
    assert IsRepresentative(opts, A, 3, OnePerYear);
    forall i | 0 <= i < |A| ensures A[i].uuid in RotateSpec(opts, A).deleted <==> i == 4 {
      DeletedIff(opts, A, i);
      if i == 4 {
        assert !Kept(opts, A, 4);
      }
    }
  }

  /** With every option enabled, the archive aged 10 days is within the
      month, the ones aged 40, 100 and 200 days are alone in the quarterly,
      half-yearly and yearly buckets (100 days is past the quarterly limit of
      99), and only the one aged 400 days is deleted. */
  lemma AllEnabledExample()
    ensures RotationOptionsFor(ExampleRaw()).Ok?
    ensures var A := ExampleArchives();
      var run := RotateSpec(RotationOptionsFor(ExampleRaw()).value, A);
      && run.Rotated?
      && forall i :: 0 <= i < |A| ==> (A[i].uuid in run.deleted <==> i == 4)
  {
    ExampleOptionsEnableAll();
    ExampleDeletions(RotationOptionsFor(ExampleRaw()).value);
  }
}
